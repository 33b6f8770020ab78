/** The anti-replay window of memnode/security.py.

    `SetWindow` is the reference: it remembers every accepted number.  The class
    `ReplayWindow` is the code's form, a bitmap shifted under the highest number,
    and is proved to be that reference. */
module ReplayWindows {
  import opened Config
  import opened Bits

  /** `highest` is -1 until a number has been accepted. */
  datatype SetWindow = SetWindow(size: nat, accepted: set<nat>, highest: int)

  ghost predicate WellFormed(w: SetWindow) {
    && w.size >= 1
    && w.highest >= -1
    && (w.highest == -1 <==> w.accepted == {})
    && (w.highest >= 0 ==> w.highest in w.accepted)
    && forall x <- w.accepted :: x <= w.highest
  }

  function Empty(size: nat): SetWindow {
    SetWindow(size, {}, -1)
  }

  predicate Fresh(w: SetWindow, seqNo: int) {
    && 0 <= seqNo <= MAX_SEQ
    && seqNo !in w.accepted
    && (w.accepted == {} || seqNo > w.highest - w.size)
  }

  function Record(w: SetWindow, seqNo: int): SetWindow {
    if Fresh(w, seqNo) then
      w.(accepted := w.accepted + {seqNo}, highest := if seqNo > w.highest then seqNo else w.highest)
    else w
  }

  /** The window after a whole history of calls. */
  function After(size: nat, history: seq<int>): SetWindow {
    if history == [] then Empty(size)
    else Record(After(size, history[..|history| - 1]), history[|history| - 1])
  }

  /** Whether the i-th call of a history returned True. */
  predicate Verdict(size: nat, history: seq<int>, i: nat)
    requires i < |history|
  {
    Fresh(After(size, history[..i]), history[i])
  }

  lemma {:induction false} AfterInv(size: nat, history: seq<int>)
    requires size >= 1
    ensures WellFormed(After(size, history))
    ensures After(size, history).size == size
    decreases |history|
  {
    if history != [] { AfterInv(size, history[..|history| - 1]); }
  }

  /** The window remembers exactly the numbers its own verdicts let through. */
  lemma {:induction false} AfterAccepted(size: nat, history: seq<int>, x: nat)
    ensures x in After(size, history).accepted <==>
            exists i :: 0 <= i < |history| && history[i] == x && Verdict(size, history, i)
    decreases |history|
  {
    if history != [] {
      var n := |history| - 1;
      var front := history[..n];
      AfterAccepted(size, front, x);
      assert forall i | 0 <= i < n :: front[..i] == history[..i] && front[i] == history[i];
      assert forall i | 0 <= i < n :: Verdict(size, front, i) == Verdict(size, history, i);
      if x in After(size, history).accepted && x !in After(size, front).accepted {
        assert history[n] == x && Verdict(size, history, n);
      }
    }
  }

  /** No number is let through twice, whatever the calls in between. */
  lemma AcceptedAtMostOnce(size: nat, history: seq<int>, i: nat, j: nat)
    requires size >= 1
    requires i < j < |history| && history[i] == history[j]
    ensures !(Verdict(size, history, i) && Verdict(size, history, j))
  {
    if Verdict(size, history, i) && Verdict(size, history, j) {
      var front := history[..j];
      assert front[..i] == history[..i];
      assert Verdict(size, front, i);
      AfterAccepted(size, front, history[i]);
    }
  }

  class ReplayWindow {
    const size: nat
    var highest: nat
    var bitmap: nat
    var seenAny: bool
    /** Every number accepted so far; the code does not keep it. */
    ghost var accepted: set<nat>

    ghost function View(): SetWindow
      reads this
    {
      SetWindow(size, accepted, if seenAny then highest else -1)
    }

    /** Bit i of the bitmap is set exactly when `highest - i` was accepted and is
        still inside the window. */
    ghost predicate Valid()
      reads this
    {
      && WellFormed(View())
      && (seenAny ==> forall i: nat :: Bit(bitmap, i) <==> i < size && highest - i in accepted)
    }

    constructor (size: nat)
      requires size >= 1
      ensures Valid() && View() == Empty(size)
    {
      this.size := size;
      highest, bitmap, seenAny := 0, 0, false;
      accepted := {};
    }

    method CheckAndUpdate(seqNo: int) returns (ok: bool)
      requires Valid()
      modifies this
      ensures Valid()
      ensures ok == Fresh(old(View()), seqNo)
      ensures View() == Record(old(View()), seqNo)
    {
      if seqNo < 0 || seqNo > MAX_SEQ {
        return false;
      }
      if !seenAny {
        seenAny, highest, bitmap := true, seqNo, 1;
        accepted := {seqNo};
        forall i: nat ensures Bit(1, i) <==> i == 0 { OneBit(0, i); }
        return true;
      }
      if seqNo > highest {
        var shift := seqNo - highest;
        if shift >= size {
          bitmap := 1;
          forall i: nat ensures Bit(1, i) <==> i == 0 { OneBit(0, i); }
        } else {
          ghost var was := bitmap;
          bitmap := And(Or(ShiftLeft(bitmap, shift), 1), ShiftLeft(1, size) - 1);
          forall i: nat ensures Bit(bitmap, i) <==> i < size && (i == 0 || (i >= shift && Bit(was, i - shift))) {
            AndBit(Or(ShiftLeft(was, shift), 1), ShiftLeft(1, size) - 1, i);
            OrBit(ShiftLeft(was, shift), 1, i);
            ShiftBit(was, shift, i);
            LowMaskBit(size, i);
            OneBit(0, i);
          }
        }
        highest := seqNo;
        accepted := accepted + {seqNo};
        return true;
      }
      var offset := highest - seqNo;
      if offset >= size {
        return false;
      }
      var mask := ShiftLeft(1, offset);
      MaskTest(bitmap, offset);
      if And(bitmap, mask) != 0 {
        return false;
      }
      forall i: nat ensures Bit(Or(bitmap, mask), i) <==> Bit(bitmap, i) || i == offset {
        OrBit(bitmap, mask, i);
        OneBit(offset, i);
      }
      bitmap := Or(bitmap, mask);
      accepted := accepted + {seqNo};
      return true;
    }
  }
}
