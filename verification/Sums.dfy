/** Sums over the values of a finite map, and counting of duplicate-free sequences. */
module Sums {

  ghost function SumOf<K(!new), V(!new)>(m: map<K, V>, f: V -> nat): nat
    decreases |m|
  {
    if m == map[] then 0
    else
      var k :| k in m;
      f(m[k]) + SumOf(m - {k}, f)
  }

  lemma {:induction false} SumRemove<K(!new), V(!new)>(m: map<K, V>, k: K, f: V -> nat)
    requires k in m
    ensures SumOf(m, f) == f(m[k]) + SumOf(m - {k}, f)
    decreases |m|
  {
    var c :| c in m && SumOf(m, f) == f(m[c]) + SumOf(m - {c}, f);
    if c != k {
      SumRemove(m - {c}, k, f);
      SumRemove(m - {k}, c, f);
      assert m - {c} - {k} == m - {k} - {c};
    }
  }

  lemma SumUpdate<K(!new), V(!new)>(m: map<K, V>, k: K, v: V, f: V -> nat)
    ensures SumOf(m[k := v], f) + (if k in m then f(m[k]) else 0) == SumOf(m, f) + f(v)
  {
    SumRemove(m[k := v], k, f);
    assert m[k := v] - {k} == m - {k};
    if k in m { SumRemove(m, k, f); } else { assert m - {k} == m; }
  }

  lemma SomeKey<K, V>(m: map<K, V>) returns (k: K)
    requires |m| > 0
    ensures k in m
  {
    k :| k in m.Keys;
  }

  lemma AddCount<K, V>(m: map<K, V>, k: K, v: V)
    ensures |m[k := v]| == |m| + if k in m then 0 else 1
  {
    assert m[k := v].Keys == m.Keys + {k};
  }

  lemma SubsetSize<T>(a: set<T>, b: set<T>)
    requires a <= b
    ensures |a| <= |b|
  {
    assert b == (b - a) + a;
  }

  lemma RemoveSetCount<K, V>(m: map<K, V>, gone: set<K>)
    requires gone <= m.Keys
    ensures |m - gone| == |m| - |gone|
  {
    assert (m - gone).Keys == m.Keys - gone;
  }

  lemma RemoveCount<K, V>(m: map<K, V>, k: K)
    requires k in m
    ensures |m - {k}| == |m| - 1
  {
    assert (m - {k}).Keys == m.Keys - {k};
  }

  lemma {:induction false} SumAtLeastCount<K(!new), V(!new)>(m: map<K, V>, f: V -> nat)
    requires forall k <- m :: f(m[k]) >= 1
    ensures SumOf(m, f) >= |m|
    decreases |m|
  {
    if |m| > 0 {
      var k :| k in m.Keys;
      SumRemove(m, k, f);
      RemoveCount(m, k);
      SumAtLeastCount(m - {k}, f);
    }
  }

  lemma {:induction false} SumAtMost<K(!new), V(!new)>(m: map<K, V>, f: V -> nat, most: nat)
    requires forall k <- m :: f(m[k]) <= most
    ensures SumOf(m, f) <= |m| * most
    decreases |m|
  {
    if |m| > 0 {
      var k :| k in m.Keys;
      SumRemove(m, k, f);
      RemoveCount(m, k);
      SumAtMost(m - {k}, f, most);
      assert |m| * most == (|m| - 1) * most + most;
    }
  }

  /** Removing a set of keys splits the sum. */
  lemma {:induction false} SumSplit<K(!new), V(!new)>(m: map<K, V>, ks: set<K>, f: V -> nat)
    requires ks <= m.Keys
    ensures SumOf(m, f) == SumOf(m - ks, f) + SumOf(map k | k in ks :: m[k], f)
    decreases ks
  {
    var part := map k | k in ks :: m[k];
    if ks == {} {
      assert m - ks == m && part == map[];
    } else {
      var k :| k in ks;
      SumSplit(m, ks - {k}, f);
      SumRemove(part, k, f);
      assert part - {k} == map j | j in ks - {k} :: m[j];
      SumRemove(m - (ks - {k}), k, f);
      assert m - (ks - {k}) - {k} == m - ks;
    }
  }

  ghost predicate NoDup<T>(s: seq<T>) {
    forall i, j | 0 <= i < j < |s| :: s[i] != s[j]
  }

  lemma {:induction false} NoDupCount<T>(s: seq<T>, all: set<T>)
    requires NoDup(s)
    requires forall x :: x in s <==> x in all
    ensures |s| == |all|
  {
    if s == [] {
      assert all == {};
    } else {
      var n := |s| - 1;
      var rest := all - {s[n]};
      assert s == s[..n] + [s[n]];
      NoDupCount(s[..n], rest);
      assert all == rest + {s[n]};
    }
  }

  /** The n numbers from lo on. */
  ghost function Range(lo: nat, n: nat): (r: set<nat>)
    ensures |r| == n
    ensures forall i :: i in r <==> lo <= i < lo + n
  {
    if n == 0 then {} else Range(lo, n - 1) + {lo + n - 1}
  }
}
