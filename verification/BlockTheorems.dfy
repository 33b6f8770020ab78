/** What callers of the block store can rely on. */
module BlockTheorems {
  import opened Common
  import opened Config
  import opened Sums
  import opened Eviction
  import opened Blocks

  // --- reading by key ---------------------------------------------------------------------

  datatype Binding = Binding(id: nat, data: Bytes)

  /** What eviction removes during a store. */
  ghost function Evicted(s: State, e: Entry, plan: Plan): set<nat> {
    if |e.data| > MAX_BLOCK_SIZE || Short(s, |e.data|) <= 0 then {}
    else Elements(Evict(SizeIn(s.blocks), plan, Short(s, |e.data|), 0))
  }

  function Forget(b: map<string, Binding>, gone: set<nat>): map<string, Binding> {
    map k | k in b && b[k].id !in gone :: b[k]
  }

  /** The plain map: the latest data stored under each key, less what was freed or evicted.
      It never looks at the key index. */
  ghost function Bindings(max: nat, h: History): map<string, Binding> {
    match h
    case Nothing => map[]
    case After(before, DoStore(e, plan)) =>
      var s := Run(max, before);
      var left := Forget(Bindings(max, before), Evicted(s, e, plan));
      var result := Store(s, e, plan).1;
      if result.Stored? && e.key.Some? then left[e.key.value := Binding(result.id, e.data)] else left
    case After(before, DoFree(id)) => Forget(Bindings(max, before), {id})
    case After(before, DoFreeByKey(key)) => Bindings(max, before) - {key}
  }

  ghost predicate Agrees(s: State, b: map<string, Binding>) {
    && b.Keys == s.latest.Keys
    && forall k <- b :: s.latest[k] in s.blocks && b[k] == Binding(s.latest[k], s.blocks[s.latest[k]].data)
  }

  lemma ForgetAgrees(s: State, b: map<string, Binding>, gone: set<nat>)
    requires Agrees(s, b)
    ensures Agrees(Remove(s, gone), Forget(b, gone))
  {
  }

  lemma InsertAgrees(s: State, b: map<string, Binding>, e: Entry)
    requires Inv(s) && Agrees(s, b)
    ensures Agrees(Insert(s, e), if e.key.Some? then b[e.key.value := Binding(s.nextId, e.data)] else b)
  {
  }

  lemma StoreAgrees(s: State, b: map<string, Binding>, e: Entry, plan: Plan)
    requires Inv(s) && Agrees(s, b)
    ensures var (t, result) := Store(s, e, plan);
            var left := Forget(b, Evicted(s, e, plan));
            Agrees(t, if result.Stored? && e.key.Some? then left[e.key.value := Binding(result.id, e.data)] else left)
  {
    var gone := Evicted(s, e, plan);
    ForgetAgrees(s, b, gone);
    assert Forget(b, {}) == b;
    if |e.data| <= MAX_BLOCK_SIZE {
      var t := MakeRoom(s, |e.data|, plan);
      RemoveInv(s, gone);
      assert Agrees(t, Forget(b, gone));
      if Short(t, |e.data|) <= 0 { InsertAgrees(t, Forget(b, gone), e); }
    }
  }

  lemma FreeByKeyAgrees(s: State, b: map<string, Binding>, key: string)
    requires Inv(s) && Agrees(s, b)
    ensures Agrees(FreeByKey(s, key).0, b - {key})
  {
    if key in s.latest {
      ForgetAgrees(s, b, {s.latest[key]});
      assert Forget(b, {s.latest[key]}) == b - {key};
    } else {
      assert b - {key} == b;
    }
  }

  /** Over any run, loading by key returns exactly the plain map's data. */
  lemma {:induction false} LoadsLatest(max: nat, h: History, key: string)
    ensures Agrees(Run(max, h), Bindings(max, h))
    ensures LoadByKey(Run(max, h), key) ==
            if key in Bindings(max, h) then Some(Bindings(max, h)[key].data) else None
    decreases h
  {
    if h.After? {
      RunInv(max, h.before);
      LoadsLatest(max, h.before, key);
      var s, b := Run(max, h.before), Bindings(max, h.before);
      match h.op
      case DoStore(e, plan) => StoreAgrees(s, b, e, plan);
      case DoFree(id) => FreeAgrees(s, b, id);
      case DoFreeByKey(k) => FreeByKeyAgrees(s, b, k);
    }
  }

  lemma FreeAgrees(s: State, b: map<string, Binding>, id: nat)
    requires Agrees(s, b)
    ensures Agrees(Free(s, id).0, Forget(b, {id}))
  {
    ForgetAgrees(s, b, {id});
    if id !in s.blocks { assert Forget(b, {id}) == b; }
  }

  // --- eviction ---------------------------------------------------------------------------

  lemma {:induction false} ElementsAppend(a: Ids, b: Ids)
    ensures Elements(Append(a, b)) == Elements(a) + Elements(b)
    ensures Distinct(Append(a, b)) <==> Distinct(a) && Distinct(b) && Elements(a) !! Elements(b)
    decreases a
  {
    if a.Cons? { ElementsAppend(a.rest, b); }
  }

  lemma {:induction false} TakeSome(size: nat -> nat, cands: Ids, view: int)
    ensures Elements(Take(size, cands, view)) <= Elements(cands)
    ensures Distinct(cands) ==> Distinct(Take(size, cands, view))
    decreases cands
  {
    if cands.Cons? { TakeSome(size, cands.rest, view - size(cands.id)); }
  }

  /** Victims are candidates, each taken once. */
  lemma {:induction false} EvictSome(size: nat -> nat, plan: Plan, short: int, freed: nat)
    requires Distinct(Flat(plan))
    ensures Elements(Evict(size, plan, short, freed)) <= Elements(Flat(plan))
    ensures Distinct(Evict(size, plan, short, freed))
    decreases plan
  {
    if plan.Visit? {
      var vs := Take(size, plan.cands, short - freed);
      var f := Total(size, vs);
      TakeSome(size, plan.cands, short - freed);
      ElementsAppend(plan.cands, Flat(plan.rest));
      var rest := if short - f <= 0 then Nil else Evict(size, plan.rest, short - f, freed + f);
      if short - f > 0 { EvictSome(size, plan.rest, short - f, freed + f); }
      ElementsAppend(vs, rest);
    }
  }

  /** Removing a list of blocks frees the bytes of the list. */
  lemma {:induction false} RemoveFrees(blocks: map<nat, Entry>, ids: Ids)
    requires Distinct(ids) && Elements(ids) <= blocks.Keys
    ensures SumOf(blocks, Size) == SumOf(blocks - Elements(ids), Size) + Total(SizeIn(blocks), ids)
    decreases ids
  {
    match ids
    case Nil => assert blocks - {} == blocks;
    case Cons(id, rest) =>
      RemoveFrees(blocks, rest);
      SumRemove(blocks - Elements(rest), id, Size);
      assert blocks - Elements(rest) - {id} == blocks - Elements(ids);
  }

  /** Eviction takes CACHE blocks only, never one after there was room, and its bytes are what
      the store gains. */
  lemma EvictionSound(s: State, size: nat, plan: Plan)
    requires PlanOk(s.blocks, plan) && Short(s, size) > 0
    ensures var vs := Evict(SizeIn(s.blocks), plan, Short(s, size), 0);
            var t := MakeRoom(s, size, plan);
            && Elements(vs) <= CacheIds(s.blocks)
            && t.blocks == s.blocks - Elements(vs)
            && Used(t) == Used(s) - Total(SizeIn(s.blocks), vs)
            && (vs.Cons? ==> Total(SizeIn(s.blocks), vs) - SizeIn(s.blocks)(Last(vs)) < Short(s, size))
  {
    var vs := Evict(SizeIn(s.blocks), plan, Short(s, size), 0);
    EvictSome(SizeIn(s.blocks), plan, Short(s, size), 0);
    RemoveFrees(s.blocks, vs);
    NeverOverEvicts(SizeIn(s.blocks), plan, Short(s, size), 0);
  }

  /** Taking every candidate leaves the pinned bytes. */
  lemma AllTaken(s: State, size: nat, plan: Plan)
    requires PlanOk(s.blocks, plan) && Short(s, size) > 0
    requires Evict(SizeIn(s.blocks), plan, Short(s, size), 0) == Flat(plan)
    ensures Used(MakeRoom(s, size, plan)) == PinnedBytes(s)
  {
  }

  lemma PinnedUsed(s: State)
    ensures PinnedBytes(s) <= Used(s)
  {
    SumSplit(s.blocks, CacheIds(s.blocks), Size);
  }

  /** Eviction leaves every pinned block where it is. */
  lemma PinnedStay(s: State, size: nat, plan: Plan)
    requires PlanOk(s.blocks, plan)
    ensures var t := MakeRoom(s, size, plan);
            && t.blocks - CacheIds(t.blocks) == s.blocks - CacheIds(s.blocks)
            && t.max == s.max
            && PinnedBytes(s) == PinnedBytes(t) <= Used(t)
  {
    if Short(s, size) > 0 { EvictionSound(s, size, plan); }
    PinnedUsed(MakeRoom(s, size, plan));
  }

  /** A store that cannot fit beside the pinned blocks fails, with any number of stripes. */
  lemma OverPinnedFails(s: State, e: Entry, plan: Plan)
    requires PlanOk(s.blocks, plan)
    requires PinnedBytes(s) + |e.data| > s.max && |e.data| <= MAX_BLOCK_SIZE
    ensures Store(s, e, plan).1 == OutOfMemory
  {
    PinnedStay(s, |e.data|, plan);
  }

  /** With the CACHE blocks in at most one stripe, a store fails exactly when it cannot fit
      beside the pinned blocks. */
  lemma OneStripeFailsExactly(s: State, e: Entry, plan: Plan)
    requires PlanOk(s.blocks, plan) && OneStripe(plan) && |e.data| <= MAX_BLOCK_SIZE
    ensures Store(s, e, plan).1 == OutOfMemory <==> PinnedBytes(s) + |e.data| > s.max
  {
    var size := |e.data|;
    PinnedStay(s, size, plan);
    if Short(s, size) > 0 {
      EvictionSound(s, size, plan);
      OneStripeExact(SizeIn(s.blocks), plan, Short(s, size));
      if Evict(SizeIn(s.blocks), plan, Short(s, size), 0) == Flat(plan) { AllTaken(s, size, plan); }
    }
  }

  /** With several stripes a store that would fit may fail, but then eviction has at least
      halved what was missing, so repeating it succeeds after finitely many tries. */
  lemma FailureHalvesShortage(s: State, e: Entry, plan: Plan)
    requires PlanOk(s.blocks, plan)
    requires Store(s, e, plan).1 == OutOfMemory && PinnedBytes(s) + |e.data| <= s.max
    ensures var t := Store(s, e, plan).0;
            0 < 2 * Short(t, |e.data|) <= Short(s, |e.data|)
  {
    var size := |e.data|;
    if Short(s, size) > 0 {
      EvictionSound(s, size, plan);
      FreesHalf(SizeIn(s.blocks), plan, Short(s, size), 0);
      if Evict(SizeIn(s.blocks), plan, Short(s, size), 0) == Flat(plan) { AllTaken(s, size, plan); }
    }
  }

  // --- repeating a failed store -----------------------------------------------------------

  datatype Tries = NoMore | Try(plan: Plan, rest: Tries)

  function Count(tries: Tries): nat {
    if tries.NoMore? then 0 else 1 + Count(tries.rest)
  }

  /** Each try starts where the one before left the store, and each one fails. */
  ghost predicate AllFail(s: State, e: Entry, tries: Tries)
    decreases tries
  {
    tries.Try? ==>
      && PlanOk(s.blocks, tries.plan)
      && Store(s, e, tries.plan).1 == OutOfMemory
      && AllFail(Store(s, e, tries.plan).0, e, tries.rest)
  }

  function Pow2(n: nat): nat {
    if n == 0 then 1 else 2 * Pow2(n - 1)
  }

  /** A store that fits beside the pinned blocks can fail only about log2(missing bytes)
      times in a row, whatever the shuffles. */
  lemma {:induction false} RetriesSucceed(s: State, e: Entry, tries: Tries)
    requires AllFail(s, e, tries) && tries.Try? && PinnedBytes(s) + |e.data| <= s.max
    ensures Pow2(Count(tries)) <= Short(s, |e.data|)
    decreases tries
  {
    FailureHalvesShortage(s, e, tries.plan);
    PinnedStay(s, |e.data|, tries.plan);
    if tries.rest.Try? {
      RetriesSucceed(Store(s, e, tries.plan).0, e, tries.rest);
    }
  }

  /** A store fails exactly when eviction frees less than is missing. */
  lemma FailsWhenShort(s: State, e: Entry, plan: Plan)
    requires PlanOk(s.blocks, plan) && Short(s, |e.data|) > 0 && |e.data| <= MAX_BLOCK_SIZE
    ensures var (t, result) := Store(s, e, plan);
            var freed := Total(SizeIn(s.blocks), Evict(SizeIn(s.blocks), plan, Short(s, |e.data|), 0));
            && (result == OutOfMemory <==> freed < Short(s, |e.data|))
            && (result == OutOfMemory ==> Used(t) == Used(s) - freed)
  {
    EvictionSound(s, |e.data|, plan);
  }

  /** With any stripes and in any visiting order, a store that needs room fails exactly when the
      whole stripes, the part of one and the first candidates of the rest fall short. */
  lemma FailsExactly(s: State, e: Entry, plan: Plan)
    requires PlanOk(s.blocks, plan) && Short(s, |e.data|) > 0 && |e.data| <= MAX_BLOCK_SIZE
    ensures Store(s, e, plan).1 == OutOfMemory <==>
            Reach(SizeIn(s.blocks), plan, Short(s, |e.data|), 0) < Short(s, |e.data|)
  {
    FailsWhenShort(s, e, plan);
    ReachExactly(SizeIn(s.blocks), plan, Short(s, |e.data|), 0);
  }

  lemma AllCacheUsed(s: State, plan: Plan)
    requires PlanOk(s.blocks, plan) && CacheIds(s.blocks) == s.blocks.Keys
    ensures PinnedBytes(s) == 0 && Used(s) == Total(SizeIn(s.blocks), Flat(plan))
  {
    assert s.blocks - CacheIds(s.blocks) == map[];
    RemoveFrees(s.blocks, Flat(plan));
  }

  /** A store that would fit fails: two stripes hold equally many CACHE bytes and nothing else,
      a block of the whole quota is stored, and what the second stripe holds beyond its first
      victim is still there afterwards. */
  lemma TwoStripesFail(s: State, e: Entry, plan: Plan, a: Ids, b: Ids, bytes: nat)
    requires plan == Visit(0, a, Visit(1, b, End)) && PlanOk(s.blocks, plan) && CacheIds(s.blocks) == s.blocks.Keys
    requires b.Cons? && Total(SizeIn(s.blocks), a) == Total(SizeIn(s.blocks), b) == bytes > SizeIn(s.blocks)(b.id)
    requires s.max == |e.data| == 2 * bytes <= MAX_BLOCK_SIZE
    ensures PinnedBytes(s) == 0
    ensures Store(s, e, plan).1 == OutOfMemory
    ensures Used(Store(s, e, plan).0) == bytes - SizeIn(s.blocks)(b.id)
  {
    TwoStripesStopEarly(SizeIn(s.blocks), a, b, bytes);
    AllCacheUsed(s, plan);
    assert Short(s, |e.data|) == 2 * bytes;
    FailsWhenShort(s, e, plan);
  }
}
