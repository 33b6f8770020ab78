/** Bitwise operations on unbounded integers, as Python's `<<`, `|` and `&`
    compute them, and what each does to every single bit. */
module Bits {

  predicate Bit(n: nat, i: nat)
    decreases i
  {
    if i == 0 then n % 2 == 1 else Bit(n / 2, i - 1)
  }

  function ShiftLeft(n: nat, s: nat): (r: nat)
    ensures n > 0 ==> r > 0
  {
    if s == 0 then n else 2 * ShiftLeft(n, s - 1)
  }

  function Or(a: nat, b: nat): nat
    decreases a + b
  {
    if a == 0 && b == 0 then 0
    else 2 * Or(a / 2, b / 2) + if a % 2 == 1 || b % 2 == 1 then 1 else 0
  }

  function And(a: nat, b: nat): nat
    decreases a + b
  {
    if a == 0 && b == 0 then 0
    else 2 * And(a / 2, b / 2) + if a % 2 == 1 && b % 2 == 1 then 1 else 0
  }

  lemma {:induction false} ZeroBit(i: nat)
    ensures !Bit(0, i)
  {
    if i > 0 { ZeroBit(i - 1); }
  }

  lemma OrHalves(a: nat, b: nat)
    ensures Or(a, b) / 2 == Or(a / 2, b / 2)
    ensures Bit(Or(a, b), 0) == (Bit(a, 0) || Bit(b, 0))
  {
  }

  lemma {:induction false} OrBit(a: nat, b: nat, i: nat)
    ensures Bit(Or(a, b), i) == (Bit(a, i) || Bit(b, i))
    decreases i
  {
    OrHalves(a, b);
    if i > 0 { OrBit(a / 2, b / 2, i - 1); }
  }

  lemma AndHalves(a: nat, b: nat)
    ensures And(a, b) / 2 == And(a / 2, b / 2)
    ensures Bit(And(a, b), 0) == (Bit(a, 0) && Bit(b, 0))
  {
  }

  lemma {:induction false} AndBit(a: nat, b: nat, i: nat)
    ensures Bit(And(a, b), i) == (Bit(a, i) && Bit(b, i))
    decreases i
  {
    AndHalves(a, b);
    if i > 0 { AndBit(a / 2, b / 2, i - 1); }
  }

  lemma {:induction false} ShiftBit(n: nat, s: nat, i: nat)
    ensures Bit(ShiftLeft(n, s), i) == (i >= s && Bit(n, i - s))
    decreases s
  {
    if s > 0 {
      assert ShiftLeft(n, s) / 2 == ShiftLeft(n, s - 1);
      if i > 0 { ShiftBit(n, s - 1, i - 1); }
    }
  }

  /** `1 << s` has bit s and no other. */
  lemma {:induction false} OneBit(s: nat, i: nat)
    ensures Bit(ShiftLeft(1, s), i) == (i == s)
  {
    ShiftBit(1, s, i);
    if i > s {
      assert 1 / 2 == 0;
      ZeroBit(i - s - 1);
    }
  }

  /** `(1 << s) - 1` has exactly the bits below s. */
  lemma {:induction false} LowMaskBit(s: nat, i: nat)
    ensures Bit(ShiftLeft(1, s) - 1, i) == (i < s)
    decreases s
  {
    if s == 0 {
      ZeroBit(i);
    } else {
      assert (ShiftLeft(1, s) - 1) / 2 == ShiftLeft(1, s - 1) - 1;
      if i > 0 { LowMaskBit(s - 1, i - 1); }
    }
  }

  lemma {:induction false} SomeBit(n: nat) returns (i: nat)
    requires n > 0
    ensures Bit(n, i)
  {
    if n % 2 == 1 {
      i := 0;
    } else {
      i := SomeBit(n / 2);
      i := i + 1;
    }
  }

  /** The test `n & (1 << i)` reads bit i. */
  lemma {:induction false} MaskTest(n: nat, i: nat)
    ensures And(n, ShiftLeft(1, i)) != 0 <==> Bit(n, i)
  {
    var hit := And(n, ShiftLeft(1, i));
    if hit != 0 {
      var j := SomeBit(hit);
      AndBit(n, ShiftLeft(1, i), j);
      OneBit(i, j);
    } else {
      ZeroBit(i);
      AndBit(n, ShiftLeft(1, i), i);
      OneBit(i, i);
    }
  }
}
