/** The stripes of the block map and of the key index, and the flat maps they stand for. */
module Stripes {
  import opened Sums
  import opened Blocks

  datatype Stripe = Stripe(blocks: map<nat, Entry>, usedBytes: int)

  ghost function Part(blocks: map<nat, Entry>, n: nat, i: nat): map<nat, Entry>
    requires n >= 1
  {
    map id | id in blocks && id % n == i :: blocks[id]
  }

  ghost predicate StripeOk(st: Stripe, blocks: map<nat, Entry>, n: nat, i: nat)
    requires n >= 1
  {
    st.blocks == Part(blocks, n, i) && st.usedBytes == SumOf(st.blocks, Size)
  }

  /** Each stripe holds its share of the blocks and its counter is the sum of their sizes. */
  ghost predicate StripesOk(stripes: seq<Stripe>, n: nat, blocks: map<nat, Entry>) {
    n >= 1 && |stripes| == n && forall i | 0 <= i < n :: StripeOk(stripes[i], blocks, n, i)
  }

  ghost function KeyPart(latest: map<string, nat>, hash: string -> int, n: nat, i: nat): map<string, nat>
    requires n >= 1
  {
    map k | k in latest && hash(k) % n == i :: latest[k]
  }

  ghost predicate KeysOk(keys: seq<map<string, nat>>, hash: string -> int, n: nat, latest: map<string, nat>) {
    n >= 1 && |keys| == n && forall i | 0 <= i < n :: keys[i] == KeyPart(latest, hash, n, i)
  }

  lemma InsertStripe(stripes: seq<Stripe>, n: nat, blocks: map<nat, Entry>, id: nat, e: Entry)
    requires StripesOk(stripes, n, blocks) && id !in blocks
    ensures var st := stripes[id % n];
            StripesOk(stripes[id % n := Stripe(st.blocks[id := e], st.usedBytes + |e.data|)], n, blocks[id := e])
  {
    var st := stripes[id % n];
    SumUpdate(st.blocks, id, e, Size);
    var next := stripes[id % n := Stripe(st.blocks[id := e], st.usedBytes + |e.data|)];
    forall i | 0 <= i < n ensures StripeOk(next[i], blocks[id := e], n, i) {
      assert StripeOk(stripes[i], blocks, n, i);
      assert next[i].blocks == Part(blocks[id := e], n, i);
    }
  }

  lemma DeleteStripe(stripes: seq<Stripe>, n: nat, blocks: map<nat, Entry>, id: nat)
    requires StripesOk(stripes, n, blocks) && id in blocks
    ensures var st := stripes[id % n];
            && id in st.blocks && st.blocks[id] == blocks[id]
            && StripesOk(stripes[id % n := Stripe(st.blocks - {id}, st.usedBytes - |blocks[id].data|)], n,
                         blocks - {id})
  {
    var st := stripes[id % n];
    assert StripeOk(st, blocks, n, id % n);
    SumRemove(st.blocks, id, Size);
    var next := stripes[id % n := Stripe(st.blocks - {id}, st.usedBytes - |blocks[id].data|)];
    forall i | 0 <= i < n ensures StripeOk(next[i], blocks - {id}, n, i) {
      assert StripeOk(stripes[i], blocks, n, i);
      assert next[i].blocks == Part(blocks - {id}, n, i);
    }
  }

  lemma LookUp(stripes: seq<Stripe>, n: nat, blocks: map<nat, Entry>, id: nat)
    requires StripesOk(stripes, n, blocks)
    ensures id in stripes[id % n].blocks <==> id in blocks
    ensures id in blocks ==> stripes[id % n].blocks[id] == blocks[id]
  {
    assert StripeOk(stripes[id % n], blocks, n, id % n);
  }

  lemma LookUpKey(keys: seq<map<string, nat>>, hash: string -> int, n: nat, latest: map<string, nat>, key: string)
    requires KeysOk(keys, hash, n, latest)
    ensures var i := hash(key) % n;
            && (key in keys[i] <==> key in latest)
            && (key in latest ==> keys[i][key] == latest[key])
  {
    assert keys[hash(key) % n] == KeyPart(latest, hash, n, hash(key) % n);
  }

  function Bound(m: map<string, nat>, key: string, id: nat): map<string, nat> {
    m[key := id]
  }

  lemma BindKey(keys: seq<map<string, nat>>, hash: string -> int, n: nat, latest: map<string, nat>, key: string,
                id: nat)
    requires KeysOk(keys, hash, n, latest)
    ensures var i := hash(key) % n;
            && KeysOk(keys[i := Bound(keys[i], key, id)], hash, n, latest[key := id])
            && KeysOk(keys[i := keys[i] - {key}], hash, n, latest - {key})
  {
    var i := hash(key) % n;
    var bound, cut := keys[i := Bound(keys[i], key, id)], keys[i := keys[i] - {key}];
    forall j | 0 <= j < n
      ensures bound[j] == KeyPart(latest[key := id], hash, n, j)
      ensures cut[j] == KeyPart(latest - {key}, hash, n, j)
    {
      assert keys[j] == KeyPart(latest, hash, n, j);
    }
  }
}

/** The code's form of the block store: striped tables changed in place, a reserved-bytes
    counter and a one-entry key removal, proved to be the plain store of `Blocks`. */
module BlockManagers {
  import opened Common
  import opened Config
  import opened Sums
  import opened Eviction
  import opened Blocks
  import opened BlockTheorems
  import opened Stripes

  /** The plan visits each stripe once, with blocks of that stripe. */
  predicate Shuffled(plan: Plan, n: nat)
    requires n >= 1
  {
    plan.Visit? ==>
      && plan.stripe < n
      && !Visits(plan.rest, plan.stripe)
      && (forall id <- Elements(plan.cands) :: id % n == plan.stripe)
      && Shuffled(plan.rest, n)
  }

  predicate Visits(plan: Plan, stripe: nat) {
    plan.Visit? && (plan.stripe == stripe || Visits(plan.rest, stripe))
  }

  /** With a single stripe a store fails exactly when it cannot fit beside the pinned blocks. */
  lemma SingleStripeFailsExactly(s: State, e: Entry, plan: Plan)
    requires PlanOk(s.blocks, plan) && Shuffled(plan, 1) && |e.data| <= MAX_BLOCK_SIZE
    ensures Store(s, e, plan).1 == OutOfMemory <==> PinnedBytes(s) + |e.data| > s.max
  {
    OneStripeFailsExactly(s, e, plan);
  }

  datatype Victim = Victim(id: nat, size: nat, key: Option<string>)

  function IdList(victims: seq<Victim>): Ids {
    if victims == [] then Nil
    else Append(IdList(victims[..|victims| - 1]), Cons(victims[|victims| - 1].id, Nil))
  }

  function VictimBytes(victims: seq<Victim>): nat {
    if victims == [] then 0 else VictimBytes(victims[..|victims| - 1]) + victims[|victims| - 1].size
  }

  /** Each victim records the block it was. */
  ghost predicate Faithful(victims: seq<Victim>, was: map<nat, Entry>) {
    forall i | 0 <= i < |victims| ::
      victims[i].id in was && victims[i] == Victim(victims[i].id, |was[victims[i].id].data|, was[victims[i].id].key)
  }

  ghost predicate Measured(victims: seq<Victim>, size: nat -> nat) {
    forall i | 0 <= i < |victims| :: victims[i].size == size(victims[i].id)
  }

  lemma IdListSnoc(victims: seq<Victim>, v: Victim)
    ensures IdList(victims + [v]) == Append(IdList(victims), Cons(v.id, Nil))
    ensures VictimBytes(victims + [v]) == VictimBytes(victims) + v.size
    ensures Elements(IdList(victims + [v])) == Elements(IdList(victims)) + {v.id}
  {
    assert (victims + [v])[..|victims|] == victims;
    ElementsAppend(IdList(victims), Cons(v.id, Nil));
  }

  lemma {:induction false} AppendAssoc(a: Ids, b: Ids, c: Ids)
    ensures Append(Append(a, b), c) == Append(a, Append(b, c))
    decreases a
  {
    if a.Cons? { AppendAssoc(a.rest, b, c); }
  }

  /** `victims` were taken from `was`. */
  ghost predicate Taken(was: map<nat, Entry>, blocks: map<nat, Entry>, victims: seq<Victim>, size: nat -> nat) {
    blocks == was - Elements(IdList(victims)) && Faithful(victims, was) && Measured(victims, size)
  }

  /** `rest` are blocks of the sizes given. */
  ghost predicate Untaken(blocks: map<nat, Entry>, rest: Ids, size: nat -> nat) {
    && Distinct(rest) && Elements(rest) <= blocks.Keys
    && forall id <- Elements(rest) :: size(id) == |blocks[id].data|
  }

  function VictimOf(blocks: map<nat, Entry>, id: nat): Victim
    requires id in blocks
  {
    Victim(id, |blocks[id].data|, blocks[id].key)
  }

  lemma OneTaken(was: map<nat, Entry>, blocks: map<nat, Entry>, victims: seq<Victim>, id: nat, size: nat -> nat)
    requires Taken(was, blocks, victims, size) && id in blocks && size(id) == |blocks[id].data|
    ensures Taken(was, blocks - {id}, victims + [VictimOf(blocks, id)], size)
  {
    var v := VictimOf(blocks, id);
    IdListSnoc(victims, v);
    var more := victims + [v];
    assert blocks - {id} == was - Elements(IdList(more));
    assert v == VictimOf(was, id);
  }

  lemma OneUntaken(blocks: map<nat, Entry>, rest: Ids, size: nat -> nat)
    requires rest.Cons? && Untaken(blocks, rest, size)
    ensures rest.id in blocks && size(rest.id) == |blocks[rest.id].data| && Untaken(blocks - {rest.id}, rest.rest, size)
  {
    assert rest.id in Elements(rest);
    assert forall id <- Elements(rest.rest) :: id in Elements(rest) && id != rest.id;
  }

  /** The inner loop has taken `victims` and has `rest` before it; `all` is what it takes. */
  ghost predicate Taking(was: map<nat, Entry>, blocks: map<nat, Entry>, victims: seq<Victim>, rest: Ids,
                         size: nat -> nat, all: Ids, view: int, stop: bool) {
    && Taken(was, blocks, victims, size) && Untaken(blocks, rest, size)
    && all == Append(IdList(victims), if stop then Nil else Take(size, rest, view))
  }

  lemma TakingStep(was: map<nat, Entry>, blocks: map<nat, Entry>, victims: seq<Victim>, rest: Ids,
                   size: nat -> nat, all: Ids, view: int)
    requires rest.Cons? && Taking(was, blocks, victims, rest, size, all, view, false)
    ensures rest.id in blocks
    ensures var v := VictimOf(blocks, rest.id);
            && Taking(was, blocks - {rest.id}, victims + [v], rest.rest, size, all, view - v.size, view - v.size <= 0)
            && VictimBytes(victims + [v]) == VictimBytes(victims) + v.size
  {
    OneUntaken(blocks, rest, size);
    OneTaken(was, blocks, victims, rest.id, size);
    IdListSnoc(victims, VictimOf(blocks, rest.id));
    TakeStep(size, IdList(victims), rest, view);
  }

  lemma {:induction false} TakeStep(size: nat -> nat, got: Ids, rest: Ids, view: int)
    requires rest.Cons?
    ensures Append(got, Take(size, rest, view)) ==
            Append(Append(got, Cons(rest.id, Nil)),
                   if view - size(rest.id) <= 0 then Nil else Take(size, rest.rest, view - size(rest.id)))
  {
    AppendAssoc(got, Cons(rest.id, Nil),
                if view - size(rest.id) <= 0 then Nil else Take(size, rest.rest, view - size(rest.id)));
  }

  /** Dropping one more victim's key is one more step of the scan. */
  lemma ScanOneMore(was: map<nat, Entry>, latest: map<string, nat>, gone: set<nat>, id: nat)
    requires Bijective(was, latest) && id in was
    ensures var now, key := Scan(latest, gone), was[id].key;
            Scan(latest, gone + {id}) ==
            if key.Some? && key.value in now && now[key.value] == id then now - {key.value} else now
  {
    assert forall k <- latest :: latest[k] == id ==> was[id].key == Some(k);
  }

  class BlockManager {
    const max: nat
    const n: nat
    /** The process's string hash, which picks a key's stripe. */
    const hash: string -> int
    var stripes: seq<Stripe>
    var keys: seq<map<string, nat>>
    var reserved: nat
    var nextId: nat
    ghost var blocks: map<nat, Entry>
    ghost var latest: map<string, nat>

    ghost function View(): State
      reads this
    {
      State(max, blocks, latest, nextId)
    }

    ghost predicate Shape()
      reads this
    {
      StripesOk(stripes, n, blocks) && KeysOk(keys, hash, n, latest)
    }

    ghost predicate Valid()
      reads this
    {
      Shape() && Inv(View()) && reserved == Used(View())
    }

    constructor (max: nat, stripeCount: nat, hash: string -> int)
      requires stripeCount >= 1
      ensures Valid() && View() == Start(max)
    {
      this.max, this.n, this.hash := max, stripeCount, hash;
      stripes := seq(stripeCount, _ => Stripe(map[], 0));
      keys := seq(stripeCount, _ => map[]);
      reserved, nextId := 0, 1;
      blocks, latest := map[], map[];
    }

    method Reserve(size: nat) returns (ok: bool)
      modifies this`reserved
      ensures ok == (old(reserved) + size <= max)
      ensures reserved == if ok then old(reserved) + size else old(reserved)
    {
      if reserved + size > max {
        return false;
      }
      reserved := reserved + size;
      return true;
    }

    method ReleaseBytes(size: nat)
      modifies this`reserved
      ensures reserved == if size <= old(reserved) then old(reserved) - size else 0
    {
      reserved := if reserved - size < 0 then 0 else reserved - size;
    }

    method PopBlock(id: nat) returns (e: Option<Entry>)
      requires Shape()
      modifies this`stripes, this`blocks
      ensures Shape()
      ensures e == if id in old(blocks) then Some(old(blocks)[id]) else None
      ensures blocks == old(blocks) - {id}
    {
      LookUp(stripes, n, blocks, id);
      var i := id % n;
      if id !in stripes[i].blocks {
        assert blocks - {id} == blocks;
        return None;
      }
      DeleteStripe(stripes, n, blocks, id);
      e := Some(stripes[i].blocks[id]);
      stripes := stripes[i := Stripe(stripes[i].blocks - {id}, stripes[i].usedBytes - |e.value.data|)];
      blocks := blocks - {id};
    }

    /** The entry goes only while it still points at the block. */
    method DropKey(key: string, id: nat)
      requires Shape()
      modifies this`keys, this`latest
      ensures Shape()
      ensures latest == if key in old(latest) && old(latest)[key] == id then old(latest) - {key} else old(latest)
    {
      LookUpKey(keys, hash, n, latest, key);
      BindKey(keys, hash, n, latest, key, id);
      var i := hash(key) % n;
      if key in keys[i] && keys[i][key] == id {
        keys := keys[i := keys[i] - {key}];
        latest := latest - {key};
      }
    }

    method FreeBlock(id: nat) returns (ok: bool)
      requires Valid()
      modifies this
      ensures Valid()
      ensures (View(), ok) == Free(old(View()), id)
    {
      RemoveInv(View(), {id});
      if id in blocks { OneEntryIsScan(blocks, latest, id); SumRemove(blocks, id, Size); }
      var e := PopBlock(id);
      if e.None? {
        assert blocks == old(blocks);
        return false;
      }
      ReleaseBytes(|e.value.data|);
      if e.value.key.Some? {
        DropKey(e.value.key.value, id);
      }
      return true;
    }

    method FreeKey(key: string) returns (ok: bool)
      requires Valid()
      modifies this
      ensures Valid()
      ensures (View(), ok) == FreeByKey(old(View()), key)
    {
      LookUpKey(keys, hash, n, latest, key);
      var i := hash(key) % n;
      if key !in keys[i] {
        return false;
      }
      ok := FreeBlock(keys[i][key]);
    }

    method LoadKey(key: string) returns (data: Option<Bytes>)
      requires Valid()
      ensures data == LoadByKey(View(), key)
    {
      LookUpKey(keys, hash, n, latest, key);
      var i := hash(key) % n;
      if key !in keys[i] {
        return None;
      }
      data := LoadBlock(keys[i][key]);
    }

    method LoadBlock(id: nat) returns (data: Option<Bytes>)
      requires Valid()
      ensures data == if id in blocks then Some(blocks[id].data) else None
    {
      LookUp(stripes, n, blocks, id);
      if id !in stripes[id % n].blocks {
        return None;
      }
      return Some(stripes[id % n].blocks[id].data);
    }

    method TakeVictim(id: nat) returns (v: Victim)
      requires Shape() && id in blocks
      modifies this`stripes, this`blocks
      ensures Shape() && v == VictimOf(old(blocks), id) && blocks == old(blocks) - {id}
    {
      var e := PopBlock(id);
      v := Victim(id, |e.value.data|, e.value.key);
    }

    /** The inner loop of eviction: pops candidates of one stripe until the stop test holds. */
    method TakeVictims(cands: Ids, needed: nat, freedBefore: nat, ghost size: nat -> nat)
      returns (freed: nat, victims: seq<Victim>)
      requires Shape() && Untaken(blocks, cands, size)
      modifies this`stripes, this`blocks
      ensures Shape()
      ensures IdList(victims) == Take(size, cands, reserved - freedBefore + needed - max)
      ensures freed == freedBefore + VictimBytes(victims)
      ensures blocks == old(blocks) - Elements(IdList(victims))
      ensures Faithful(victims, old(blocks)) && Measured(victims, size)
    {
      freed, victims := freedBefore, [];
      ghost var was := blocks;
      ghost var all := Take(size, cands, reserved - freedBefore + needed - max);
      var rest, stop := cands, false;
      assert was - {} == was;
      while rest.Cons? && !stop
        invariant Shape() && Taking(was, blocks, victims, rest, size, all, reserved - freed + needed - max, stop)
        invariant freed == freedBefore + VictimBytes(victims)
        decreases rest, !stop
      {
        TakingStep(was, blocks, victims, rest, size, all, reserved - freed + needed - max);
        var v := TakeVictim(rest.id);
        freed := freed + v.size;
        victims := victims + [v];
        rest := rest.rest;
        stop := reserved - freed + needed <= max;
      }
      AppendNil(IdList(victims));
    }

    method SettleVictim(v: Victim, ghost was: map<nat, Entry>, ghost before: map<string, nat>, ghost gone: set<nat>)
      requires Shape() && Bijective(was, before) && latest == Scan(before, gone)
      requires v.id in was && v.key == was[v.id].key && v.size <= reserved
      modifies this`reserved, this`keys, this`latest
      ensures Shape()
      ensures reserved == old(reserved) - v.size
      ensures latest == Scan(before, gone + {v.id})
    {
      ScanOneMore(was, before, gone, v.id);
      ReleaseBytes(v.size);
      if v.key.Some? {
        DropKey(v.key.value, v.id);
      }
    }

    /** Gives the victims' bytes back and drops their keys. */
    method ReleaseVictims(victims: seq<Victim>, ghost was: map<nat, Entry>)
      requires Shape() && Bijective(was, latest) && Faithful(victims, was) && VictimBytes(victims) <= reserved
      modifies this`reserved, this`keys, this`latest
      ensures Shape()
      ensures reserved == old(reserved) - VictimBytes(victims)
      ensures latest == Scan(old(latest), Elements(IdList(victims)))
    {
      ghost var before := latest;
      assert Scan(latest, {}) == latest;
      for i := 0 to |victims|
        invariant Shape()
        invariant reserved == old(reserved) - VictimBytes(victims[..i])
        invariant latest == Scan(before, Elements(IdList(victims[..i])))
      {
        var v := victims[i];
        assert victims[..i + 1] == victims[..i] + [v];
        BytesGrow(victims, i + 1);
        IdListSnoc(victims[..i], v);
        SettleVictim(v, was, before, Elements(IdList(victims[..i])));
      }
      assert victims[..|victims|] == victims;
    }

    /** One stripe's turn: victims are popped first and settled afterwards. */
    method EvictStripe(cands: Ids, needed: nat, freedBefore: nat, ghost size: nat -> nat)
      returns (freed: nat, ghost taken: Ids)
      requires Valid() && Untaken(blocks, cands, size)
      modifies this
      ensures Valid()
      ensures taken == Take(size, cands, old(reserved) - freedBefore + needed - max)
      ensures View() == Remove(old(View()), Elements(taken))
      ensures freed == freedBefore + Total(size, taken)
      ensures reserved == old(reserved) - Total(size, taken)
    {
      ghost var s := View();
      taken := Take(size, cands, reserved - freedBefore + needed - max);
      TakingFrees(s, cands, reserved - freedBefore + needed - max, size);
      freed := SweepStripe(cands, needed, freedBefore, size);
      assert View() == Remove(s, Elements(taken));
    }

    method SweepStripe(cands: Ids, needed: nat, freedBefore: nat, ghost size: nat -> nat) returns (freed: nat)
      requires Shape() && Bijective(blocks, latest) && Untaken(blocks, cands, size)
      requires Total(size, Take(size, cands, reserved - freedBefore + needed - max)) <= reserved
      modifies this
      ensures Shape() && nextId == old(nextId)
      ensures var taken := Take(size, cands, old(reserved) - freedBefore + needed - max);
              && blocks == old(blocks) - Elements(taken) && latest == Scan(old(latest), Elements(taken))
              && freed == freedBefore + Total(size, taken) && reserved == old(reserved) - Total(size, taken)
    {
      ghost var was := blocks;
      var victims;
      freed, victims := TakeVictims(cands, needed, freedBefore, size);
      VictimTotals(victims, size);
      ReleaseVictims(victims, was);
    }

    /** One pass of the outer loop, which leaves `next`. */
    method VisitStripe(cands: Ids, needed: nat, freedBefore: nat, ghost size: nat -> nat, ghost more: Ids,
                       ghost next: State)
      returns (freed: nat, enough: bool)
      requires Valid() && Untaken(blocks, cands, size) && next == Remove(View(), Elements(more))
      requires more == Take(size, cands, reserved - freedBefore + needed - max)
      modifies this
      ensures Valid() && View() == next
      ensures freed == freedBefore + Total(size, more) && reserved == old(reserved) - Total(size, more)
      ensures enough == (reserved + needed <= max)
    {
      ghost var same;
      freed, same := EvictStripe(cands, needed, freedBefore, size);
      enough := reserved + needed <= max;
    }

    method VisitNext(rest: Plan, needed: nat, freedBefore: nat, ghost s: State, ghost size: nat -> nat,
                     ghost plan: Plan, ghost short: int, ghost takenBefore: Ids)
      returns (freed: nat, enough: bool, ghost taken: Ids)
      requires rest.Visit? && Valid() && View() == Remove(s, Elements(takenBefore))
      requires forall id <- s.blocks :: size(id) == |s.blocks[id].data|
      requires reserved - freedBefore + needed - max == short - freedBefore - freedBefore
      requires Progress(s, size, plan, short, rest, freedBefore, false, takenBefore)
      modifies this
      ensures Valid() && View() == Remove(s, Elements(taken))
      ensures freed - freedBefore == old(reserved) - reserved >= 0
      ensures enough == (reserved + needed <= max)
      ensures Progress(s, size, plan, short, rest.rest, freed, enough, taken)
    {
      ghost var more := Take(size, rest.cands, short - freedBefore - freedBefore);
      taken := Append(takenBefore, more);
      ProgressStep(s, size, plan, short, rest, freedBefore, takenBefore);
      VisitFinds(s, size, rest.cands, takenBefore, more);
      freed, enough := VisitStripe(rest.cands, needed, freedBefore, size, more, Remove(s, Elements(taken)));
    }

    /** Eviction in the order of the plan, until there is room. */
    method EvictToFree(needed: nat, plan: Plan) returns (freed: nat)
      requires Valid() && PlanOk(blocks, plan) && Shuffled(plan, n) && reserved + needed > max
      modifies this
      ensures Valid()
      ensures View() == MakeRoom(old(View()), needed, plan)
      ensures freed == old(reserved) - reserved
    {
      ghost var s, short, taken := View(), reserved + needed - max, Nil;
      ghost var size := SizeIn(blocks);
      freed := 0;
      var rest, enough := plan, false;
      assert Remove(s, {}) == s;
      while rest.Visit? && !enough
        invariant Valid() && View() == Remove(s, Elements(taken))
        invariant reserved == old(reserved) - freed
        invariant Progress(s, size, plan, short, rest, freed, enough, taken)
        decreases rest, !enough
      {
        freed, enough, taken := VisitNext(rest, needed, freed, s, size, plan, short, taken);
        rest := rest.rest;
      }
      ProgressEnds(s, size, plan, short, rest, freed, enough, taken);
    }

    method StoreBlock(e: Entry, plan: Plan) returns (r: Result)
      requires Valid() && PlanOk(blocks, plan) && Shuffled(plan, n)
      modifies this
      ensures Valid()
      ensures (View(), r) == Store(old(View()), e, plan)
    {
      var size := |e.data|;
      if size > MAX_BLOCK_SIZE {
        return TooLarge;
      }
      var ok := Reserve(size);
      if !ok {
        var freed := EvictToFree(size, plan);
        ok := Reserve(size);
        if !ok {
          return OutOfMemory;
        }
      }
      r := Stored(nextId);
      InsertBlock(e);
    }

    /** The part of `store` after its bytes are reserved. */
    method InsertBlock(e: Entry)
      requires Shape() && Inv(View()) && reserved == Used(View()) + |e.data| <= max
      modifies this
      ensures Valid()
      ensures View() == Insert(old(View()), e)
    {
      InsertBijective(View(), e);
      InsertUsed(View(), e);
      var id := nextId;
      nextId := nextId + 1;
      PutBlock(id, e);
      if e.key.Some? {
        var previous := Bind(e.key.value, id);
        if previous.Some? && previous.value != id {
          var old' := PopBlock(previous.value);
          if old'.Some? {
            ReleaseBytes(|old'.value.data|);
          }
        } else {
          assert blocks - {} == blocks;
        }
      }
    }

    method PutBlock(id: nat, e: Entry)
      requires Shape() && id !in blocks
      modifies this`stripes, this`blocks
      ensures Shape() && blocks == old(blocks)[id := e]
    {
      InsertStripe(stripes, n, blocks, id, e);
      var st := stripes[id % n];
      stripes := stripes[id % n := Stripe(st.blocks[id := e], st.usedBytes + |e.data|)];
      blocks := blocks[id := e];
    }

    method Bind(key: string, id: nat) returns (previous: Option<nat>)
      requires Shape()
      modifies this`keys, this`latest
      ensures Shape()
      ensures previous == if key in old(latest) then Some(old(latest)[key]) else None
      ensures latest == old(latest)[key := id]
    {
      LookUpKey(keys, hash, n, latest, key);
      BindKey(keys, hash, n, latest, key, id);
      var i := hash(key) % n;
      previous := if key in keys[i] then Some(keys[i][key]) else None;
      keys := keys[i := Bound(keys[i], key, id)];
      latest := latest[key := id];
    }
  }

  lemma {:induction false} SameTotals(f: nat -> nat, g: nat -> nat, ids: Ids)
    requires forall id <- Elements(ids) :: f(id) == g(id)
    ensures Total(f, ids) == Total(g, ids)
    decreases ids
  {
    if ids.Cons? { SameTotals(f, g, ids.rest); }
  }

  lemma {:induction false} VictimTotals(victims: seq<Victim>, size: nat -> nat)
    requires Measured(victims, size)
    ensures VictimBytes(victims) == Total(size, IdList(victims))
    decreases |victims|
  {
    if victims != [] {
      var k := |victims| - 1;
      VictimTotals(victims[..k], size);
      TotalAppend(size, IdList(victims[..k]), Cons(victims[k].id, Nil));
    }
  }

  lemma RemoveTwice(s: State, a: set<nat>, b: set<nat>)
    ensures Remove(Remove(s, a), b) == Remove(s, a + b)
  {
    assert s.blocks - a - b == s.blocks - (a + b);
  }

  /** What taking candidates does to the plain store. */
  lemma {:induction false} TakingFrees(s: State, cands: Ids, view: int, size: nat -> nat)
    requires Inv(s) && Untaken(s.blocks, cands, size)
    ensures var vs := Take(size, cands, view);
            && Elements(vs) <= Elements(cands)
            && Inv(Remove(s, Elements(vs)))
            && Used(Remove(s, Elements(vs))) == Used(s) - Total(size, vs)
  {
    var vs := Take(size, cands, view);
    TakeSome(size, cands, view);
    RemoveInv(s, Elements(vs));
    RemoveFrees(s.blocks, vs);
    SameTotals(size, SizeIn(s.blocks), vs);
  }

  /** The outer loop has taken `taken` and has `rest` of the plan before it. */
  ghost predicate Progress(s: State, size: nat -> nat, plan: Plan, short: int,
                           rest: Plan, freed: nat, enough: bool, taken: Ids) {
    && Append(taken, if enough then Nil else Evict(size, rest, short - freed, freed)) == Evict(size, plan, short, 0)
    && Distinct(Flat(rest))
    && Elements(Flat(rest)) <= s.blocks.Keys - Elements(taken)
  }

  /** Blocks that were not taken are there, with the sizes they had. */
  lemma StillThere(blocks: map<nat, Entry>, gone: set<nat>, cands: Ids, size: nat -> nat)
    requires Elements(cands) <= blocks.Keys - gone && forall id <- blocks :: size(id) == |blocks[id].data|
    ensures Elements(cands) <= (blocks - gone).Keys
    ensures forall id <- Elements(cands) :: size(id) == |(blocks - gone)[id].data|
  {
  }

  lemma ProgressEnds(s: State, size: nat -> nat, plan: Plan, short: int, rest: Plan, freed: nat, enough: bool,
                     taken: Ids)
    requires Progress(s, size, plan, short, rest, freed, enough, taken) && (rest.End? || enough)
    ensures taken == Evict(size, plan, short, 0)
  {
    AppendNil(taken);
  }

  lemma {:induction false} ProgressStep(s: State, size: nat -> nat, plan: Plan, short: int,
                                        rest: Plan, freed: nat, taken: Ids)
    requires rest.Visit? && Progress(s, size, plan, short, rest, freed, false, taken)
    ensures Distinct(rest.cands) && Elements(rest.cands) <= s.blocks.Keys - Elements(taken)
    ensures var vs := Take(size, rest.cands, short - freed - freed);
            var f := Total(size, vs);
            && Elements(Append(taken, vs)) == Elements(taken) + Elements(vs)
            && Progress(s, size, plan, short, rest.rest, freed + f, short - freed - f <= 0, Append(taken, vs))
  {
    var vs := Take(size, rest.cands, short - freed - freed);
    var f := Total(size, vs);
    TakeSome(size, rest.cands, short - freed - freed);
    ElementsAppend(rest.cands, Flat(rest.rest));
    ElementsAppend(taken, vs);
    AppendAssoc(taken, vs,
                if short - freed - f <= 0 then Nil else Evict(size, rest.rest, short - freed - f, freed + f));
  }

  /** What one pass of the outer loop finds and leaves. */
  lemma VisitFinds(s: State, size: nat -> nat, cands: Ids, taken: Ids, more: Ids)
    requires Distinct(cands) && Elements(cands) <= s.blocks.Keys - Elements(taken)
    requires (forall id <- s.blocks :: size(id) == |s.blocks[id].data|)
    ensures Untaken(s.blocks - Elements(taken), cands, size)
    ensures Remove(Remove(s, Elements(taken)), Elements(more)) == Remove(s, Elements(Append(taken, more)))
  {
    StillThere(s.blocks, Elements(taken), cands, size);
    ElementsAppend(taken, more);
    RemoveTwice(s, Elements(taken), Elements(more));
  }

  lemma {:induction false} BytesGrow(victims: seq<Victim>, i: nat)
    requires i <= |victims|
    ensures VictimBytes(victims[..i]) <= VictimBytes(victims)
    decreases |victims|
  {
    if i == |victims| {
      assert victims[..i] == victims;
    } else {
      BytesGrow(victims[..|victims| - 1], i);
      assert victims[..|victims| - 1][..i] == victims[..i];
    }
  }
}
