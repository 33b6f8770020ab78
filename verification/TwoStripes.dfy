/** A run of the block store after which a block that would fit is refused. */
module TwoStripes {
  import opened Config
  import opened Sums
  import opened Eviction
  import opened Blocks
  import opened BlockTheorems
  import opened BlockManagers

  /** Blocks 1 to k, all alike. */
  function Alike(e: Entry, k: nat): (m: map<nat, Entry>)
    ensures forall id :: id in m <==> 1 <= id <= k
    ensures forall id <- m :: m[id] == e
  {
    if k == 0 then map[] else Alike(e, k - 1)[k := e]
  }

  function Fill(e: Entry, k: nat): History {
    if k == 0 then Nothing else After(Fill(e, k - 1), DoStore(e, End))
  }

  lemma AlikeMore(e: Entry, k: nat)
    requires k >= 1
    ensures SumOf(Alike(e, k), Size) == SumOf(Alike(e, k - 1), Size) + |e.data|
  {
    SumUpdate(Alike(e, k - 1), k, e, Size);
  }

  lemma OneMoreTimes(k: nat, b: nat)
    requires k >= 1
    ensures k * b == (k - 1) * b + b
  {
  }

  lemma {:induction false} AlikeBytes(e: Entry, k: nat)
    ensures SumOf(Alike(e, k), Size) == k * |e.data|
  {
    if k > 0 {
      AlikeBytes(e, k - 1);
      AlikeMore(e, k);
      OneMoreTimes(k, |e.data|);
    }
  }

  lemma StoresAlike(s: State, e: Entry, k: nat)
    requires k >= 1 && s.blocks == Alike(e, k - 1) && s.nextId == k && e.key.None?
    requires SumOf(s.blocks, Size) + |e.data| <= s.max && |e.data| <= MAX_BLOCK_SIZE
    ensures Apply(s, DoStore(e, End)) == s.(blocks := Alike(e, k), nextId := k + 1)
  {
    assert Short(s, |e.data|) <= 0;
  }

  lemma {:induction false} FillRun(max: nat, e: Entry, k: nat, h: History)
    requires e.key.None? && SumOf(Alike(e, k), Size) <= max && |e.data| <= MAX_BLOCK_SIZE && h == Fill(e, k)
    ensures Run(max, h) == State(max, Alike(e, k), map[], k + 1)
    decreases k
  {
    if k > 0 {
      AlikeMore(e, k);
      FillRun(max, e, k - 1, h.before);
      StoresAlike(Run(max, h.before), e, k);
    }
  }

  /** The first n numbers of one parity: 2n - odd, ..., 2 - odd. */
  function Line(n: nat, odd: nat): Ids
    requires odd <= 1
  {
    if n == 0 then Nil else Cons(2 * n - odd, Line(n - 1, odd))
  }

  lemma {:induction false} LineIs(n: nat, odd: nat)
    requires odd <= 1
    ensures forall id :: id in Elements(Line(n, odd)) <==> 1 <= id <= 2 * n && id % 2 == odd
    ensures Distinct(Line(n, odd))
    decreases n
  {
    if n > 0 { LineIs(n - 1, odd); }
  }

  lemma {:induction false} LineBytes(blocks: map<nat, Entry>, e: Entry, k: nat, n: nat, odd: nat)
    requires odd <= 1 && blocks == Alike(e, k) && 2 * n <= k
    ensures Total(SizeIn(blocks), Line(n, odd)) == n * |e.data|
    decreases n
  {
    if n > 0 {
      LineBytes(blocks, e, k, n - 1, odd);
      OneMoreTimes(n, |e.data|);
    }
  }

  /** The stripe of the even ids is visited first. */
  function EvensFirst(n: nat): Plan {
    Visit(0, Line(n, 0), Visit(1, Line(n, 1), End))
  }

  lemma EvensFirstOk(e: Entry, n: nat)
    requires e.durability.Cache?
    ensures PlanOk(Alike(e, 2 * n), EvensFirst(n)) && Shuffled(EvensFirst(n), 2)
    ensures CacheIds(Alike(e, 2 * n)) == Alike(e, 2 * n).Keys
  {
    var a, b := Line(n, 0), Line(n, 1);
    LineIs(n, 0);
    LineIs(n, 1);
    AppendNil(b);
    ElementsAppend(a, b);
    var second := Visit(1, b, End);
    assert Flat(second) == b && Flat(EvensFirst(n)) == Append(a, b);
    assert Shuffled(second, 2) && !Visits(second, 0);
  }

  /** A store with two stripes and room for 2n blocks of equal size holds 2n CACHE blocks and
      nothing pinned.  A block of the whole quota is refused, in one of the orders that the
      shuffles can give, and n - 1 of the blocks are still there. */
  lemma ReachesFailure(e: Entry, n: nat, big: Entry)
    requires e.key.None? && e.durability.Cache? && n >= 2 && |e.data| >= 1
    requires |big.data| == 2 * n * |e.data| <= MAX_BLOCK_SIZE
    ensures var s := Run(|big.data|, Fill(e, 2 * n));
            && PlanOk(s.blocks, EvensFirst(n)) && Shuffled(EvensFirst(n), 2) && PinnedBytes(s) == 0
            && Store(s, big, EvensFirst(n)).1 == OutOfMemory
            && Used(Store(s, big, EvensFirst(n)).0) == (n - 1) * |e.data|
  {
    var b := |e.data|;
    var bytes := n * b;
    assert 2 * n * b == 2 * bytes && (n - 1) * b == bytes - b && bytes > b by { Arithmetic(n, b); }
    AlikeBytes(e, 2 * n);
    FillRun(|big.data|, e, 2 * n, Fill(e, 2 * n));
    EvensFirstOk(e, n);
    var s := Run(|big.data|, Fill(e, 2 * n));
    LineBytes(s.blocks, e, 2 * n, n, 0);
    LineBytes(s.blocks, e, 2 * n, n, 1);
    TwoStripesFail(s, big, EvensFirst(n), Line(n, 0), Line(n, 1), bytes);
  }

  lemma Arithmetic(n: nat, b: nat)
    requires n >= 2 && b >= 1
    ensures 2 * n * b == 2 * (n * b) && (n - 1) * b == n * b - b && n * b > b
  {
  }
}
