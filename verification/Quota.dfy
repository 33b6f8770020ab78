/** The block store at the grain of its locks: every lock-guarded section is one step, and the
    sections of concurrent stores, frees and evictions interleave in any order. */
module Quota {
  import opened Common
  import opened Config
  import opened Sums
  import opened Eviction
  import opened Blocks
  import opened Stripes
  import opened BlockTheorems

  /** A block taken by eviction whose bytes are not yet given back. */
  datatype Victims = None' | More(id: nat, size: nat, key: Option<string>, rest: Victims)

  /** Where a coroutine stands, between two lock-guarded sections. */
  datatype Task =
    | Reserving(e: Entry, again: bool)
    | Sweeping(e: Entry, order: seq<nat>, freed: nat)
    | Settling(e: Entry, order: seq<nat>, freed: nat, victims: Victims)
    | Forgetting(e: Entry, order: seq<nat>, freed: nat, victims: Victims, id: nat, key: string)
    | Inserting(e: Entry)
    | BindingKey(id: nat, key: string)
    | FreeingKey(key: string)
    | Freeing(id: nat, dropKey: bool)
    | Releasing(id: nat, size: nat, ownKey: Option<string>)
    | Unbinding(id: nat, key: string)
    | Finished

  datatype World = World(max: nat, reserved: nat, stripes: seq<Stripe>, index: map<string, nat>,
                         nextId: nat, tasks: seq<Task>)

  // --- steps ------------------------------------------------------------------------------

  /** `max(0, reserved - size)` */
  function Release(reserved: nat, size: nat): nat {
    if reserved - size < 0 then 0 else reserved - size
  }

  function Drop(index: map<string, nat>, key: string, id: nat): map<string, nat> {
    if key in index && index[key] == id then index - {key} else index
  }

  function Collect(blocks: map<nat, Entry>, ids: Ids): Victims {
    match ids
    case Nil => None'
    case Cons(id, rest) =>
      if id in blocks then More(id, |blocks[id].data|, blocks[id].key, Collect(blocks, rest)) else Collect(blocks, rest)
  }

  function Owed(victims: Victims): nat {
    match victims
    case None' => 0
    case More(_, size, _, rest) => size + Owed(rest)
  }

  /** After a stripe's victims are settled: reserve again, or go on to the next stripe. */
  function NextStripe(w: World, e: Entry, order: seq<nat>, freed: nat): Task {
    if order == [] || w.reserved + |e.data| <= w.max then Reserving(e, true) else Sweeping(e, order, freed)
  }

  /** The coroutine after a victim was handled. */
  function AfterVictim(w: World, e: Entry, order: seq<nat>, freed: nat, victims: Victims): Task {
    if victims.None'? then NextStripe(w, e, order, freed) else Settling(e, order, freed, victims)
  }

  /** What the oracle of one step decides: the order in which eviction visits the stripes, or
      the order in which it takes a stripe's candidates. */
  datatype Choice = Choice(order: seq<nat>, cands: Ids)

  predicate Enabled(w: World, i: nat, c: Choice) {
    && i < |w.tasks|
    && match w.tasks[i]
       case Reserving(_, _) => forall s <- c.order :: s < |w.stripes|
       case Sweeping(_, order, _) =>
         && order != [] && order[0] < |w.stripes|
         && Distinct(c.cands) && Elements(c.cands) == CacheIds(w.stripes[order[0]].blocks)
       case Settling(_, _, _, victims) => victims.More?
       case Finished => false
       case _ => |w.stripes| > 0
  }

  function SetTask(w: World, i: nat, t: Task): World
    requires i < |w.tasks|
  {
    w.(tasks := w.tasks[i := t])
  }

  /** One stripe's section of eviction. */
  ghost function Sweep(w: World, i: nat, e: Entry, order: seq<nat>, freed: nat, cands: Ids): World
    requires i < |w.tasks| && order != [] && order[0] < |w.stripes|
  {
    var st := w.stripes[order[0]];
    var vs := Take(SizeIn(st.blocks), cands, w.reserved - freed + |e.data| - w.max);
    var victims := Collect(st.blocks, vs);
    var w' := w.(stripes := w.stripes[order[0] := Stripe(st.blocks - Elements(vs), st.usedBytes - Owed(victims))]);
    SetTask(w', i, AfterVictim(w', e, order[1..], freed + Owed(victims), victims))
  }

  function Put(w: World, i: nat, e: Entry): World
    requires i < |w.tasks| && |w.stripes| > 0
  {
    var id := w.nextId;
    var k := id % |w.stripes|;
    var st := w.stripes[k];
    SetTask(w.(nextId := id + 1, stripes := w.stripes[k := Stripe(st.blocks[id := e], st.usedBytes + |e.data|)]),
            i, if e.key.Some? then BindingKey(id, e.key.value) else Finished)
  }

  function Pop(w: World, i: nat, id: nat, dropKey: bool): World
    requires i < |w.tasks| && |w.stripes| > 0
  {
    var k := id % |w.stripes|;
    var st := w.stripes[k];
    if id !in st.blocks then SetTask(w, i, Finished)
    else
      var e := st.blocks[id];
      SetTask(w.(stripes := w.stripes[k := Stripe(st.blocks - {id}, st.usedBytes - |e.data|)]),
              i, Releasing(id, |e.data|, if dropKey then e.key else None))
  }

  ghost function Step(w: World, i: nat, c: Choice): World
    requires Enabled(w, i, c)
  {
    match w.tasks[i]
    case Reserving(e, again) =>
      if w.reserved + |e.data| <= w.max then SetTask(w.(reserved := w.reserved + |e.data|), i, Inserting(e))
      else if again then SetTask(w, i, Finished)
      else SetTask(w, i, NextStripe(w, e, c.order, 0))
    case Sweeping(e, order, freed) => Sweep(w, i, e, order, freed, c.cands)
    case Settling(e, order, freed, victims) =>
      var w' := w.(reserved := Release(w.reserved, victims.size));
      SetTask(w', i, if victims.key.Some? then Forgetting(e, order, freed, victims.rest, victims.id, victims.key.value)
                     else AfterVictim(w', e, order, freed, victims.rest))
    case Forgetting(e, order, freed, victims, id, key) =>
      var w' := w.(index := Drop(w.index, key, id));
      SetTask(w', i, AfterVictim(w', e, order, freed, victims))
    case Inserting(e) => Put(w, i, e)
    case BindingKey(id, key) =>
      SetTask(w.(index := w.index[key := id]), i,
              if key in w.index && w.index[key] != id then Freeing(w.index[key], false) else Finished)
    case FreeingKey(key) => SetTask(w, i, if key in w.index then Freeing(w.index[key], true) else Finished)
    case Freeing(id, dropKey) => Pop(w, i, id, dropKey)
    case Releasing(id, size, key) =>
      SetTask(w.(reserved := Release(w.reserved, size)), i, if key.Some? then Unbinding(id, key.value) else Finished)
    case Unbinding(id, key) => SetTask(w.(index := Drop(w.index, key, id)), i, Finished)
  }

  /** A call that starts: a store small enough, a free, or a free by key. */
  predicate Starts(t: Task) {
    match t
    case Reserving(e, again) => |e.data| <= MAX_BLOCK_SIZE && !again
    case Freeing(_, dropKey) => dropKey
    case FreeingKey(_) => true
    case _ => false
  }

  datatype Schedule = Begin | Call(before: Schedule, t: Task) | Go(before: Schedule, i: nat, c: Choice)

  ghost predicate Legal(w: World, run: Schedule)
    decreases run, 0
  {
    match run
    case Begin => true
    case Call(before, t) => Legal(w, before) && Starts(t)
    case Go(before, i, c) => Legal(w, before) && Enabled(Run(w, before), i, c)
  }

  ghost function Run(w: World, run: Schedule): World
    requires Legal(w, run)
    decreases run, 1
  {
    match run
    case Begin => w
    case Call(before, t) => var v := Run(w, before); v.(tasks := v.tasks + [t])
    case Go(before, i, c) => Step(Run(w, before), i, c)
  }

  // --- conservation -----------------------------------------------------------------------

  /** Bytes a coroutine has reserved and not inserted, or removed and not given back. */
  function Claim(t: Task): nat {
    match t
    case Inserting(e) => |e.data|
    case Settling(_, _, _, victims) => Owed(victims)
    case Forgetting(_, _, _, victims, _, _) => Owed(victims)
    case Releasing(_, size, _) => size
    case _ => 0
  }

  function Claims(tasks: seq<Task>): nat {
    if tasks == [] then 0 else Claim(tasks[0]) + Claims(tasks[1..])
  }

  ghost function Live(stripes: seq<Stripe>): nat {
    if stripes == [] then 0 else SumOf(stripes[0].blocks, Size) + Live(stripes[1..])
  }

  ghost predicate StripesSound(w: World) {
    forall k | 0 <= k < |w.stripes| ::
      && w.stripes[k].usedBytes == SumOf(w.stripes[k].blocks, Size)
      && forall id <- w.stripes[k].blocks :: id < w.nextId
  }

  /** Every reserved byte is live, about to be inserted, or about to be given back. */
  ghost predicate Conserved(w: World) {
    && w.reserved == Live(w.stripes) + Claims(w.tasks)
    && w.reserved <= w.max
    && StripesSound(w)
  }

  lemma {:induction false} ClaimsUpdate(tasks: seq<Task>, i: nat, t: Task)
    requires i < |tasks|
    ensures Claims(tasks[i := t]) + Claim(tasks[i]) == Claims(tasks) + Claim(t)
    ensures Claim(tasks[i]) <= Claims(tasks)
    decreases |tasks|
  {
    if i == 0 {
      assert tasks[i := t][1..] == tasks[1..];
    } else {
      assert tasks[i := t][1..] == tasks[1..][i - 1 := t];
      ClaimsUpdate(tasks[1..], i - 1, t);
    }
  }

  lemma {:induction false} ClaimsSnoc(tasks: seq<Task>, t: Task)
    ensures Claims(tasks + [t]) == Claims(tasks) + Claim(t)
    decreases |tasks|
  {
    if tasks == [] {
      assert [t][1..] == [] && tasks + [t] == [t];
    } else {
      assert (tasks + [t])[1..] == tasks[1..] + [t];
      ClaimsSnoc(tasks[1..], t);
    }
  }

  lemma {:induction false} LiveUpdate(stripes: seq<Stripe>, k: nat, st: Stripe)
    requires k < |stripes|
    ensures Live(stripes[k := st]) + SumOf(stripes[k].blocks, Size) == Live(stripes) + SumOf(st.blocks, Size)
    decreases |stripes|
  {
    if k == 0 {
      assert stripes[k := st][1..] == stripes[1..];
    } else {
      assert stripes[k := st][1..] == stripes[1..][k - 1 := st];
      LiveUpdate(stripes[1..], k - 1, st);
    }
  }

  /** A coroutine moves on without touching the stripes: the books balance if the reserved bytes
      move with its claim. */
  lemma TaskMoves(w: World, w': World, i: nat)
    requires Conserved(w) && OnlyTask(w, w', i)
    requires w'.stripes == w.stripes && w'.nextId == w.nextId && w'.max == w.max
    requires w'.reserved + Claim(w.tasks[i]) == w.reserved + Claim(w'.tasks[i]) && w'.reserved <= w.max
    ensures Conserved(w')
  {
    ClaimsUpdate(w.tasks, i, w'.tasks[i]);
    assert w'.tasks == w.tasks[i := w'.tasks[i]];
  }

  /** No coroutine but the i-th differs. */
  ghost predicate OnlyTask(w: World, w': World, i: nat) {
    i < |w.tasks| == |w'.tasks| && forall j | 0 <= j < |w.tasks| && j != i :: w'.tasks[j] == w.tasks[j]
  }

  /** A stripe changes by what the coroutine's claim changes. */
  lemma StripeMoves(w: World, w': World, i: nat, k: nat)
    requires Conserved(w) && OnlyTask(w, w', i) && k < |w.stripes| == |w'.stripes| && w'.max == w.max
    requires w'.stripes == w.stripes[k := w'.stripes[k]]
    requires w'.reserved == w.reserved && w'.nextId >= w.nextId
    requires SumOf(w.stripes[k].blocks, Size) + Claim(w.tasks[i]) ==
             SumOf(w'.stripes[k].blocks, Size) + Claim(w'.tasks[i])
    requires w'.stripes[k].usedBytes == SumOf(w'.stripes[k].blocks, Size)
    requires forall id <- w'.stripes[k].blocks :: id < w'.nextId
    ensures Conserved(w')
  {
    ClaimsUpdate(w.tasks, i, w'.tasks[i]);
    assert w'.tasks == w.tasks[i := w'.tasks[i]];
    LiveUpdate(w.stripes, k, w'.stripes[k]);
  }

  lemma {:induction false} CollectOwes(blocks: map<nat, Entry>, ids: Ids)
    requires Elements(ids) <= blocks.Keys
    ensures Owed(Collect(blocks, ids)) == Total(SizeIn(blocks), ids)
    decreases ids
  {
    if ids.Cons? { CollectOwes(blocks, ids.rest); }
  }

  /** What a stripe gives up is owed by the coroutine that took it. */
  lemma SweepOwes(blocks: map<nat, Entry>, cands: Ids, view: int)
    requires Distinct(cands) && Elements(cands) == CacheIds(blocks)
    ensures var vs := Take(SizeIn(blocks), cands, view);
            && SumOf(blocks, Size) == SumOf(blocks - Elements(vs), Size) + Owed(Collect(blocks, vs))
  {
    var vs := Take(SizeIn(blocks), cands, view);
    TakeSome(SizeIn(blocks), cands, view);
    CollectOwes(blocks, vs);
    RemoveFrees(blocks, vs);
  }

  lemma AfterVictimClaims(w: World, e: Entry, order: seq<nat>, freed: nat, victims: Victims)
    ensures Claim(AfterVictim(w, e, order, freed, victims)) == Owed(victims)
  {
  }

  lemma SweepConserves(w: World, i: nat, c: Choice)
    requires Conserved(w) && Enabled(w, i, c) && w.tasks[i].Sweeping?
    ensures Conserved(Step(w, i, c))
  {
    var t := w.tasks[i];
    var k := t.order[0];
    var st, view := w.stripes[k], w.reserved - t.freed + |t.e.data| - w.max;
    SweepOwes(st.blocks, c.cands, view);
    SweepMoves(w, i, t.e, t.order, t.freed, c.cands);
  }

  lemma SweepMoves(w: World, i: nat, e: Entry, order: seq<nat>, freed: nat, cands: Ids)
    requires Conserved(w) && i < |w.tasks| && order != [] && order[0] < |w.stripes| && Claim(w.tasks[i]) == 0
    requires var st := w.stripes[order[0]];
             var vs := Take(SizeIn(st.blocks), cands, w.reserved - freed + |e.data| - w.max);
             SumOf(st.blocks, Size) == SumOf(st.blocks - Elements(vs), Size) + Owed(Collect(st.blocks, vs))
    ensures Conserved(Sweep(w, i, e, order, freed, cands))
  {
    var w', st := Sweep(w, i, e, order, freed, cands), w.stripes[order[0]];
    var vs := Take(SizeIn(st.blocks), cands, w.reserved - freed + |e.data| - w.max);
    var victims := Collect(st.blocks, vs);
    assert w'.stripes[order[0]] == Stripe(st.blocks - Elements(vs), st.usedBytes - Owed(victims));
    AfterVictimClaims(w.(stripes := w'.stripes), e, order[1..], freed + Owed(victims), victims);
    StripeMoves(w, w', i, order[0]);
  }

  lemma PutConserves(w: World, i: nat, c: Choice)
    requires Conserved(w) && Enabled(w, i, c) && w.tasks[i].Inserting?
    ensures Conserved(Step(w, i, c))
  {
    var e, k := w.tasks[i].e, w.nextId % |w.stripes|;
    assert w.nextId !in w.stripes[k].blocks;
    SumUpdate(w.stripes[k].blocks, w.nextId, e, Size);
    StripeMoves(w, Step(w, i, c), i, k);
  }

  lemma PopConserves(w: World, i: nat, c: Choice)
    requires Conserved(w) && Enabled(w, i, c) && w.tasks[i].Freeing?
    ensures Conserved(Step(w, i, c))
  {
    var id: nat := w.tasks[i].id;
    var k := id % |w.stripes|;
    if id in w.stripes[k].blocks {
      var e := w.stripes[k].blocks[id];
      SumRemove(w.stripes[k].blocks, id, Size);
      assert Step(w, i, c).tasks[i] == Releasing(id, |e.data|, if w.tasks[i].dropKey then e.key else None);
      StripeMoves(w, Step(w, i, c), i, k);
    } else {
      TaskMoves(w, Step(w, i, c), i);
    }
  }

  /** Giving bytes back never meets the clamp at zero. */
  lemma NeverClamped(w: World, i: nat, c: Choice)
    requires Conserved(w) && Enabled(w, i, c)
    ensures w.tasks[i].Releasing? ==> w.tasks[i].size <= w.reserved
    ensures w.tasks[i].Settling? ==> w.tasks[i].victims.size <= w.reserved
  {
    ClaimsUpdate(w.tasks, i, Finished);
  }

  lemma SettleConserves(w: World, i: nat, c: Choice)
    requires Conserved(w) && Enabled(w, i, c) && (w.tasks[i].Settling? || w.tasks[i].Forgetting?)
    ensures Conserved(Step(w, i, c))
  {
    var t := w.tasks[i];
    NeverClamped(w, i, c);
    assert t.Settling? ==> Owed(t.victims) == t.victims.size + Owed(t.victims.rest);
    TaskMoves(w, Step(w, i, c), i);
  }

  lemma ReleaseConserves(w: World, i: nat, c: Choice)
    requires Conserved(w) && Enabled(w, i, c) && w.tasks[i].Releasing?
    ensures Conserved(Step(w, i, c))
  {
    NeverClamped(w, i, c);
    TaskMoves(w, Step(w, i, c), i);
  }

  lemma StepConserves(w: World, i: nat, c: Choice)
    requires Conserved(w) && Enabled(w, i, c)
    ensures Conserved(Step(w, i, c))
  {
    var t := w.tasks[i];
    if t.Sweeping? {
      SweepConserves(w, i, c);
    } else if t.Inserting? {
      PutConserves(w, i, c);
    } else if t.Freeing? {
      PopConserves(w, i, c);
    } else if t.Settling? || t.Forgetting? {
      SettleConserves(w, i, c);
    } else if t.Releasing? {
      ReleaseConserves(w, i, c);
    } else {
      TaskMoves(w, Step(w, i, c), i);
    }
  }

  /** Quota safety under every interleaving: reserved bytes are exactly the live bytes plus
      those reserved but not inserted and those removed but not given back, they never exceed
      the quota, and each stripe's counter is the sum of its blocks. */
  lemma {:induction false} QuotaSafe(w: World, run: Schedule)
    requires Conserved(w) && Legal(w, run)
    ensures Conserved(Run(w, run))
    decreases run
  {
    match run
    case Begin =>
    case Call(before, t) =>
      QuotaSafe(w, before);
      ClaimsSnoc(Run(w, before).tasks, t);
    case Go(before, i, c) =>
      QuotaSafe(w, before);
      StepConserves(Run(w, before), i, c);
  }

  /** An empty store with n stripes and no call under way. */
  function Fresh(max: nat, n: nat): World {
    World(max, 0, seq(n, _ => Stripe(map[], 0)), map[], 1, [])
  }

  lemma {:induction false} NothingLive(stripes: seq<Stripe>)
    requires forall k | 0 <= k < |stripes| :: stripes[k] == Stripe(map[], 0)
    ensures Live(stripes) == 0
    decreases |stripes|
  {
    if stripes != [] { NothingLive(stripes[1..]); }
  }

  /** So the books balance in every state that an empty store can reach. */
  lemma FromEmpty(max: nat, n: nat, run: Schedule)
    requires Legal(Fresh(max, n), run)
    ensures Conserved(Run(Fresh(max, n), run))
  {
    NothingLive(Fresh(max, n).stripes);
    QuotaSafe(Fresh(max, n), run);
  }

  /** Once every call has finished, the reserved bytes are the live bytes: nothing leaks. */
  lemma QuietWhenFinished(w: World)
    requires Conserved(w) && forall i | 0 <= i < |w.tasks| :: w.tasks[i].Finished?
    ensures w.reserved == Live(w.stripes)
  {
    NoClaims(w.tasks);
  }

  lemma {:induction false} NoClaims(tasks: seq<Task>)
    requires forall i | 0 <= i < |tasks| :: tasks[i].Finished?
    ensures Claims(tasks) == 0
    decreases |tasks|
  {
    if tasks != [] { NoClaims(tasks[1..]); }
  }
}
