/** The arithmetic of `_evict_to_free`. */
module Eviction {

  datatype Ids = Nil | Cons(id: nat, rest: Ids)

  /** The outcome of the two shuffles: the stripes in visiting order, each with its
      evictable blocks in the order they are taken. */
  datatype Plan = End | Visit(stripe: nat, cands: Ids, rest: Plan)

  function Append(a: Ids, b: Ids): Ids {
    match a
    case Nil => b
    case Cons(id, rest) => Cons(id, Append(rest, b))
  }

  function Flat(plan: Plan): Ids {
    match plan
    case End => Nil
    case Visit(_, cands, rest) => Append(cands, Flat(rest))
  }

  /** The bytes of a list of blocks. */
  function Total(size: nat -> nat, ids: Ids): nat {
    match ids
    case Nil => 0
    case Cons(id, rest) => size(id) + Total(size, rest)
  }

  function Last(ids: Ids): nat
    requires ids.Cons?
  {
    if ids.rest.Nil? then ids.id else Last(ids.rest)
  }

  /** The inner loop over one stripe.  `view` is what the stop test takes for the bytes still
      missing; a candidate is removed before the test is made. */
  function Take(size: nat -> nat, cands: Ids, view: int): Ids {
    match cands
    case Nil => Nil
    case Cons(id, rest) => Cons(id, if view - size(id) <= 0 then Nil else Take(size, rest, view - size(id)))
  }

  /** The outer loop.  `short` is the number of bytes truly missing and `freed` those freed so
      far; the stop test of a stripe subtracts `freed` a second time. */
  function Evict(size: nat -> nat, plan: Plan, short: int, freed: nat): Ids {
    match plan
    case End => Nil
    case Visit(_, cands, rest) =>
      var vs := Take(size, cands, short - freed);
      var f := Total(size, vs);
      Append(vs, if short - f <= 0 then Nil else Evict(size, rest, short - f, freed + f))
  }

  lemma {:induction false} TotalAppend(size: nat -> nat, a: Ids, b: Ids)
    ensures Total(size, Append(a, b)) == Total(size, a) + Total(size, b)
    decreases a
  {
    if a.Cons? { TotalAppend(size, a.rest, b); }
  }

  lemma {:induction false} AppendNil(a: Ids)
    ensures Append(a, Nil) == a
  {
    if a.Cons? { AppendNil(a.rest); }
  }

  lemma {:induction false} LastAppend(a: Ids, b: Ids)
    requires b.Cons?
    ensures Append(a, b).Cons? && Last(Append(a, b)) == Last(b)
    decreases a
  {
    if a.Cons? { LastAppend(a.rest, b); }
  }

  /** One stripe stops early only once its view is satisfied. */
  lemma {:induction false} TakeStops(size: nat -> nat, cands: Ids, view: int)
    ensures Take(size, cands, view) != cands ==> Total(size, Take(size, cands, view)) >= view
    decreases cands
  {
    if cands.Cons? { TakeStops(size, cands.rest, view - size(cands.id)); }
  }

  /** Every victim but the first is taken while the view is still short. */
  lemma {:induction false} TakeShort(size: nat -> nat, cands: Ids, view: int, short: int)
    requires view <= short && short > 0
    ensures var vs := Take(size, cands, view);
            vs.Cons? ==> Total(size, vs) - size(Last(vs)) < short
    decreases cands
  {
    if cands.Cons? && view - size(cands.id) > 0 {
      TakeShort(size, cands.rest, view - size(cands.id), short - size(cands.id));
    }
  }

  /** What one stripe gives up, and what the stripes after it do. */
  lemma EvictSplit(size: nat -> nat, plan: Plan, short: int, freed: nat, vs: Ids, f: nat)
    requires plan.Visit? && vs == Take(size, plan.cands, short - freed) && f == Total(size, vs)
    ensures Evict(size, plan, short, freed) ==
            if short - f <= 0 then vs else Append(vs, Evict(size, plan.rest, short - f, freed + f))
  {
    AppendNil(vs);
  }

  /** Without its last block the list falls short. */
  predicate JustEnough(size: nat -> nat, vs: Ids, short: int) {
    vs.Cons? ==> Total(size, vs) - size(Last(vs)) < short
  }

  lemma JustEnoughAppend(size: nat -> nat, a: Ids, b: Ids, short: int)
    requires JustEnough(size, a, short) && JustEnough(size, b, short - Total(size, a)) && short > Total(size, a)
    ensures JustEnough(size, Append(a, b), short)
  {
    TotalAppend(size, a, b);
    AppendNil(a);
    if b.Cons? { LastAppend(a, b); }
  }

  /** Eviction never goes on once there is room: without its last victim it is still short,
      for any number of stripes and any order. */
  lemma {:induction false} NeverOverEvicts(size: nat -> nat, plan: Plan, short: int, freed: nat)
    requires short > 0
    ensures JustEnough(size, Evict(size, plan, short, freed), short)
    decreases plan
  {
    if plan.Visit? {
      var vs := Take(size, plan.cands, short - freed);
      var f := Total(size, vs);
      TakeShort(size, plan.cands, short - freed, short);
      EvictSplit(size, plan, short, freed, vs, f);
      if short - f > 0 {
        NeverOverEvicts(size, plan.rest, short - f, freed + f);
        JustEnoughAppend(size, vs, Evict(size, plan.rest, short - f, freed + f), short);
      }
    }
  }

  /** What eviction leaves undone: it frees all that is missing, or takes every candidate, or
      has at least freed half of what was missing at the start. */
  lemma {:induction false} FreesHalf(size: nat -> nat, plan: Plan, short: int, freed: nat)
    ensures var vs := Evict(size, plan, short, freed);
            || Total(size, vs) >= short
            || vs == Flat(plan)
            || 2 * (freed + Total(size, vs)) >= freed + short
    decreases plan
  {
    if plan.Visit? {
      var vs := Take(size, plan.cands, short - freed);
      var f := Total(size, vs);
      AppendNil(vs);
      if short - f <= 0 {
        assert Evict(size, plan, short, freed) == vs;
        return;
      }
      var rest := Evict(size, plan.rest, short - f, freed + f);
      TotalAppend(size, vs, rest);
      assert Total(size, Evict(size, plan, short, freed)) == f + Total(size, rest);
      if vs == plan.cands {
        FreesHalf(size, plan.rest, short - f, freed + f);
      } else {
        TakeStops(size, plan.cands, short - freed);
      }
    }
  }

  predicate AllEmpty(plan: Plan) {
    plan.Visit? ==> plan.cands.Nil? && AllEmpty(plan.rest)
  }

  /** At most one stripe has candidates. */
  predicate OneStripe(plan: Plan) {
    plan.Visit? ==> AllEmpty(plan.rest) || (plan.cands.Nil? && OneStripe(plan.rest))
  }

  lemma {:induction false} EmptyFrees(size: nat -> nat, plan: Plan, short: int, freed: nat)
    requires AllEmpty(plan)
    ensures Evict(size, plan, short, freed) == Nil == Flat(plan)
    decreases plan
  {
    if plan.Visit? { EmptyFrees(size, plan.rest, short, freed); }
  }

  /** With all candidates in one stripe eviction stops early only with room. */
  lemma {:induction false} OneStripeExact(size: nat -> nat, plan: Plan, short: int)
    requires OneStripe(plan)
    ensures var vs := Evict(size, plan, short, 0);
            Total(size, vs) >= short || vs == Flat(plan)
    decreases plan
  {
    if plan.Visit? {
      var vs := Take(size, plan.cands, short);
      TakeStops(size, plan.cands, short);
      AppendNil(vs);
      if AllEmpty(plan.rest) {
        EmptyFrees(size, plan.rest, short - Total(size, vs), Total(size, vs));
        AppendNil(plan.cands);
      } else {
        OneStripeExact(size, plan.rest, short);
      }
    }
  }

  /** The bytes that eviction frees. */
  function Freed(size: nat -> nat, plan: Plan, short: int, freed: nat): nat {
    match plan
    case End => 0
    case Visit(_, cands, rest) =>
      var f := Total(size, Take(size, cands, short - freed));
      f + if short - f <= 0 then 0 else Freed(size, rest, short - f, freed + f)
  }

  lemma {:induction false} FreedBytes(size: nat -> nat, plan: Plan, short: int, freed: nat)
    ensures Freed(size, plan, short, freed) == Total(size, Evict(size, plan, short, freed))
    decreases plan
  {
    if plan.Visit? {
      var vs := Take(size, plan.cands, short - freed);
      var f := Total(size, vs);
      EvictSplit(size, plan, short, freed, vs, f);
      if short - f > 0 {
        FreedBytes(size, plan.rest, short - f, freed + f);
        TotalAppend(size, vs, Evict(size, plan.rest, short - f, freed + f));
      }
    }
  }

  /** The first candidate of every stripe that has one. */
  function Heads(plan: Plan): Ids {
    match plan
    case End => Nil
    case Visit(_, cands, rest) => if cands.Nil? then Heads(rest) else Cons(cands.id, Heads(rest))
  }

  /** Once what was freed covers what is missing, the stop test holds from the start, and every
      later stripe gives up its first candidate only. */
  lemma {:induction false} LateStripes(size: nat -> nat, plan: Plan, short: int, freed: nat)
    requires 0 < short <= freed
    ensures Freed(size, plan, short, freed) >= short <==> Total(size, Heads(plan)) >= short
    decreases plan
  {
    if plan.Visit? {
      var f := Total(size, Take(size, plan.cands, short - freed));
      if plan.cands.Cons? {
        assert Take(size, plan.cands, short - freed) == Cons(plan.cands.id, Nil);
        assert f == size(plan.cands.id) + Total(size, Nil);
      }
      if short - f > 0 { LateStripes(size, plan.rest, short - f, freed + f); }
    }
  }

  /** What a sweep can yield in a given visiting order: whole stripes while they do not cover
      the stop test's view of what is missing, then enough of one stripe to do so, then the
      first candidate of each later one. */
  function Reach(size: nat -> nat, plan: Plan, short: int, freed: nat): nat {
    match plan
    case End => 0
    case Visit(_, cands, rest) =>
      var f := Total(size, cands);
      if f < short - freed then f + Reach(size, rest, short - f, freed + f)
      else Total(size, Take(size, cands, short - freed)) + Total(size, Heads(rest))
  }

  /** A stripe that gives up all it has and does not cover the view. */
  lemma ReachWhole(size: nat -> nat, plan: Plan, short: int, freed: nat, f: nat)
    requires plan.Visit? && f == Total(size, plan.cands) < short - freed
    ensures Freed(size, plan, short, freed) == f + Freed(size, plan.rest, short - f, freed + f)
    ensures Reach(size, plan, short, freed) == f + Reach(size, plan.rest, short - f, freed + f)
  {
    TakeAll(size, plan.cands, short - freed);
  }

  /** A stripe with enough for the view covers it. */
  lemma TakeCovers(size: nat -> nat, cands: Ids, view: int)
    requires Total(size, cands) >= view
    ensures Total(size, Take(size, cands, view)) >= view
  {
    TakeStops(size, cands, view);
  }

  lemma ReachAcross(size: nat -> nat, plan: Plan, short: int, freed: nat, f: nat)
    requires plan.Visit? && Total(size, plan.cands) >= short - freed
    requires f == Total(size, Take(size, plan.cands, short - freed))
    ensures Reach(size, plan, short, freed) == f + Total(size, Heads(plan.rest))
  {
  }

  /** The stripe that covers it, and what comes after. */
  lemma ReachCrossing(size: nat -> nat, plan: Plan, short: int, freed: nat, f: nat)
    requires short > 0 && plan.Visit? && Total(size, plan.cands) >= short - freed
    requires f == Total(size, Take(size, plan.cands, short - freed))
    ensures Freed(size, plan, short, freed) >= short <==> Reach(size, plan, short, freed) >= short
  {
    TakeCovers(size, plan.cands, short - freed);
    ReachAcross(size, plan, short, freed, f);
    if short - f > 0 {
      LateStripes(size, plan.rest, short - f, freed + f);
      assert Freed(size, plan, short, freed) == f + Freed(size, plan.rest, short - f, freed + f);
    } else {
      assert Freed(size, plan, short, freed) == f;
    }
  }

  lemma {:induction false} ReachFreed(size: nat -> nat, plan: Plan, short: int, freed: nat)
    requires short > 0
    ensures Freed(size, plan, short, freed) >= short <==> Reach(size, plan, short, freed) >= short
    decreases plan
  {
    if plan.Visit? {
      var all := Total(size, plan.cands);
      if all < short - freed {
        ReachWhole(size, plan, short, freed, all);
        ReachFreed(size, plan.rest, short - all, freed + all);
      } else {
        ReachCrossing(size, plan, short, freed, Total(size, Take(size, plan.cands, short - freed)));
      }
    }
  }

  /** Eviction frees enough exactly when that does. */
  lemma ReachExactly(size: nat -> nat, plan: Plan, short: int, freed: nat)
    requires short > 0
    ensures Total(size, Evict(size, plan, short, freed)) >= short <==> Reach(size, plan, short, freed) >= short
  {
    FreedBytes(size, plan, short, freed);
    ReachFreed(size, plan, short, freed);
  }

  /** Two stripes with equally many bytes, all of which are needed: the second stripe gives up
      only its first block. */
  lemma TwoStripesStopEarly(size: nat -> nat, a: Ids, b: Ids, bytes: nat)
    requires b.Cons? && Total(size, a) == Total(size, b) == bytes > size(b.id)
    ensures var plan := Visit(0, a, Visit(1, b, End));
            && Total(size, Flat(plan)) == 2 * bytes
            && Total(size, Evict(size, plan, 2 * bytes, 0)) == bytes + size(b.id)
  {
    var plan, second := Visit(0, a, Visit(1, b, End)), Visit(1, b, End);
    AppendNil(b);
    TotalAppend(size, a, b);
    assert Flat(second) == b && Flat(plan) == Append(a, b);
    TakeAll(size, a, 2 * bytes);
    LaterStripe(size, 1, b, bytes);
    FreedBytes(size, plan, 2 * bytes, 0);
  }

  lemma LaterStripe(size: nat -> nat, stripe: nat, b: Ids, bytes: nat)
    requires b.Cons? && bytes > size(b.id)
    ensures Freed(size, Visit(stripe, b, End), bytes, bytes) == size(b.id)
  {
    assert Take(size, b, bytes - bytes) == Cons(b.id, Nil);
    assert Total(size, Cons(b.id, Nil)) == size(b.id) + Total(size, Nil);
    assert Freed(size, End, bytes - size(b.id), bytes + size(b.id)) == 0;
  }

  lemma {:induction false} TakeAll(size: nat -> nat, cands: Ids, view: int)
    requires view > Total(size, cands)
    ensures Take(size, cands, view) == cands
    decreases cands
  {
    if cands.Cons? { TakeAll(size, cands.rest, view - size(cands.id)); }
  }
}
