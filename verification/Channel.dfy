/** Integer facts behind "the epoch is a function of the sequence number". */
module Epochs {

  function Epoch(seqNo: nat, interval: nat): nat
    requires interval >= 1
  {
    seqNo / interval
  }

  lemma MulMono(a: nat, b: nat, k: nat)
    requires a <= b
    ensures a * k <= b * k
  {
    assert b * k == a * k + (b - a) * k;
  }

  lemma EpochBounds(seqNo: nat, interval: nat)
    requires interval >= 1
    ensures Epoch(seqNo, interval) * interval <= seqNo < (Epoch(seqNo, interval) + 1) * interval
  {
    assert seqNo == (seqNo / interval) * interval + seqNo % interval;
  }

  lemma EpochIs(seqNo: nat, interval: nat, e: nat)
    requires interval >= 1
    requires e * interval <= seqNo < (e + 1) * interval
    ensures Epoch(seqNo, interval) == e
  {
    EpochBounds(seqNo, interval);
    var f := Epoch(seqNo, interval);
    if f < e { MulMono(f + 1, e, interval); }
    if e < f { MulMono(e + 1, f, interval); }
  }

  lemma EpochMono(a: nat, b: nat, interval: nat)
    requires interval >= 1 && a <= b
    ensures Epoch(a, interval) <= Epoch(b, interval)
  {
    EpochBounds(a, interval);
    EpochBounds(b, interval);
    if Epoch(b, interval) < Epoch(a, interval) {
      MulMono(Epoch(b, interval) + 1, Epoch(a, interval), interval);
    }
  }
}

/** Traffic keys as symbolic terms: the handshake's two halves, and one HKDF step
    per epoch.  Both ends use the same rekey label, so only the base key tells the
    two directions apart. */
module KeySchedule {

  /** The side that sends under a key: the initiator takes the first half. */
  datatype Side = Initiator | Responder

  datatype Key = Base(sender: Side) | Next(prev: Key, epoch: nat)

  function Other(s: Side): Side {
    if s.Initiator? then Responder else Initiator
  }

  /** The key that `sender` encrypts with in epoch `e`. */
  function ChainKey(sender: Side, e: nat): Key {
    if e == 0 then Base(sender) else Next(ChainKey(sender, e - 1), e)
  }

  /** The rekey loop: one step for each epoch after `done` up to `goal`. */
  function AdvanceKey(key: Key, done: nat, goal: nat): Key
    decreases if done < goal then goal - done else 0
  {
    if done >= goal then key else AdvanceKey(Next(key, done + 1), done + 1, goal)
  }

  lemma {:induction false} AdvanceFollowsChain(sender: Side, done: nat, goal: nat)
    requires done <= goal
    ensures AdvanceKey(ChainKey(sender, done), done, goal) == ChainKey(sender, goal)
    decreases goal - done
  {
    if done < goal { AdvanceFollowsChain(sender, done + 1, goal); }
  }

  /** Distinct epochs and distinct directions never share a key. */
  lemma {:induction false} ChainInjective(s1: Side, e1: nat, s2: Side, e2: nat)
    requires ChainKey(s1, e1) == ChainKey(s2, e2)
    ensures s1 == s2 && e1 == e2
    decreases e1
  {
    if e1 > 0 && e2 > 0 { ChainInjective(s1, e1 - 1, s2, e2 - 1); }
  }
}

/** Frames of the secure channel with symbolic authenticated encryption. */
module Frames {
  import opened Common
  import opened KeySchedule

  const OVERHEAD: nat := 24   // 8 bytes of sequence number and a 16-byte tag

  datatype Body =
    | Cipher(key: Key, nonce: nat, ad: nat, plaintext: Bytes)
    | Junk(raw: Bytes)

  /** What the reader hands over; `Truncated` is a frame below the minimum size. */
  datatype Frame = Truncated | Frame(seqNo: nat, body: Body)

  function Seal(key: Key, seqNo: nat, plaintext: Bytes): Frame {
    Frame(seqNo, Cipher(key, seqNo, seqNo, plaintext))
  }

  /** Decryption succeeds only on the exact key, nonce and associated data. */
  predicate Opens(key: Key, seqNo: nat, body: Body) {
    body.Cipher? && body.key == key && body.nonce == seqNo && body.ad == seqNo
  }
}

/** The sending half of memnode/security.py's SecureChannel. */
module Senders {
  import opened Common
  import opened Config
  import opened Epochs
  import opened KeySchedule
  import opened Frames

  datatype Sender = Sender(side: Side, interval: nat, seqNo: nat, epoch: nat, key: Key)

  /** One call of `send`.  `timer` says that the rekey period has elapsed,
      `writeOk` that the write completed. */
  datatype Attempt = Attempt(plaintext: Bytes, timer: bool, writeOk: bool)

  /** `Aborted` encrypted a frame but did not finish the send; `Overflow` failed to
      pack the sequence number and encrypted nothing. */
  datatype Outcome = Sent(frame: Frame) | Aborted(frame: Frame) | Overflow

  function Start(side: Side, interval: nat): Sender {
    Sender(side, interval, 0, 0, Base(side))
  }

  ghost predicate SenderInv(s: Sender) {
    && s.interval >= 1
    && s.key == ChainKey(s.side, s.epoch)
    && s.epoch * s.interval <= s.seqNo <= (s.epoch + 1) * s.interval
  }

  function TimeRekey(s: Sender, timer: bool): Sender {
    var boundary := (s.epoch + 1) * s.interval;
    if timer && s.seqNo < boundary then s.(seqNo := boundary) else s
  }

  function AdvanceTo(s: Sender, epoch: nat): Sender {
    s.(epoch := if s.epoch < epoch then epoch else s.epoch,
       key := AdvanceKey(s.key, s.epoch, epoch))
  }

  /** The state in which `send` encrypts. */
  function Prepare(s: Sender, timer: bool): Sender
    requires s.interval >= 1
  {
    var t := TimeRekey(s, timer);
    AdvanceTo(t, Epoch(t.seqNo, t.interval))
  }

  predicate Writes(a: Attempt) {
    a.writeOk && |a.plaintext| + OVERHEAD <= MAX_FRAME_SIZE
  }

  function SendStep(s: Sender, a: Attempt): (Sender, Outcome)
    requires s.interval >= 1
  {
    var t := Prepare(s, a.timer);
    if t.seqNo > MAX_SEQ then (t, Overflow)
    else
      var frame := Seal(t.key, t.seqNo, a.plaintext);
      if Writes(a) then (t.(seqNo := t.seqNo + 1), Sent(frame)) else (t, Aborted(frame))
  }

  /** The sender after a history of calls. */
  function After(s: Sender, history: seq<Attempt>): (r: Sender)
    requires s.interval >= 1
    ensures r.interval == s.interval && r.side == s.side
  {
    if history == [] then s
    else SendStep(After(s, history[..|history| - 1]), history[|history| - 1]).0
  }

  function OutcomeAt(s: Sender, history: seq<Attempt>, i: nat): Outcome
    requires s.interval >= 1 && i < |history|
  {
    SendStep(After(s, history[..i]), history[i]).1
  }

  /** The frames of the completed sends, in order. */
  function Completed(s: Sender, history: seq<Attempt>): seq<Frame>
    requires s.interval >= 1
  {
    if history == [] then []
    else
      var n := |history| - 1;
      var out := OutcomeAt(s, history, n);
      Completed(s, history[..n]) + if out.Sent? then [out.frame] else []
  }

  /** A number from the start of epoch e to the start of the next one. */
  lemma EpochNear(q: nat, interval: nat, e: nat)
    requires interval >= 1 && e * interval <= q <= (e + 1) * interval
    ensures Epoch(q, interval) == if q < (e + 1) * interval then e else e + 1
  {
    assert (e + 2) * interval == (e + 1) * interval + interval;
    if q < (e + 1) * interval { EpochIs(q, interval, e); } else { EpochIs(q, interval, e + 1); }
  }

  /** The encryption state is on the chain, at the epoch of the number it uses, and
      at most one epoch past the last one. */
  lemma PrepareInv(s: Sender, timer: bool)
    requires SenderInv(s)
    ensures var t := Prepare(s, timer);
            && SenderInv(t) && t.seqNo < (t.epoch + 1) * t.interval
            && t.epoch == Epoch(t.seqNo, t.interval)
            && s.epoch <= t.epoch <= s.epoch + 1
            && s.seqNo <= t.seqNo
            && (timer && s.seqNo < (s.epoch + 1) * s.interval ==> s.seqNo < t.seqNo)
            && (!timer ==> t.seqNo == s.seqNo)
  {
    var t := TimeRekey(s, timer);
    EpochBounds(t.seqNo, t.interval);
    EpochNear(t.seqNo, t.interval, s.epoch);
    AdvanceFollowsChain(s.side, s.epoch, Epoch(t.seqNo, t.interval));
  }

  lemma StepInv(s: Sender, a: Attempt)
    requires SenderInv(s)
    ensures SenderInv(SendStep(s, a).0)
  {
    PrepareInv(s, a.timer);
  }

  lemma {:induction false} AfterInv(s: Sender, history: seq<Attempt>)
    requires SenderInv(s)
    ensures SenderInv(After(s, history))
    decreases |history|
  {
    if history != [] {
      var n := |history| - 1;
      AfterInv(s, history[..n]);
      StepInv(After(s, history[..n]), history[n]);
    }
  }

  /** The number that call i encrypts under. */
  function NumberAt(s: Sender, history: seq<Attempt>, i: nat): nat
    requires s.interval >= 1 && i < |history|
  {
    Prepare(After(s, history[..i]), history[i].timer).seqNo
  }

  lemma AfterSnoc(s: Sender, history: seq<Attempt>, i: nat)
    requires s.interval >= 1 && i < |history|
    ensures After(s, history[..i + 1]) == SendStep(After(s, history[..i]), history[i]).0
  {
    assert history[..i + 1][..i] == history[..i];
  }

  /** Every frame ever encrypted is sealed under this side's chain key for the epoch
      of its number, and the sender's epoch is then that epoch. */
  lemma FrameAt(s: Sender, history: seq<Attempt>, i: nat)
    requires SenderInv(s) && i < |history|
    ensures var out := OutcomeAt(s, history, i);
            var q := NumberAt(s, history, i);
            && (out.Overflow? <==> q > MAX_SEQ)
            && (!out.Overflow? ==>
                  out.frame == Seal(ChainKey(s.side, Epoch(q, s.interval)), q, history[i].plaintext))
            && After(s, history[..i + 1]).epoch == Epoch(q, s.interval)
  {
    AfterInv(s, history[..i]);
    PrepareInv(After(s, history[..i]), history[i].timer);
    AfterSnoc(s, history, i);
  }

  /** Between call k and the next one, a send completed or the timer fired. */
  predicate Moved(s: Sender, history: seq<Attempt>, k: nat)
    requires s.interval >= 1 && k + 1 < |history|
  {
    OutcomeAt(s, history, k).Sent? || history[k + 1].timer
  }

  lemma NextNumber(s: Sender, history: seq<Attempt>, k: nat)
    requires SenderInv(s) && k + 1 < |history|
    ensures NumberAt(s, history, k) <= NumberAt(s, history, k + 1)
    ensures Moved(s, history, k) <==> NumberAt(s, history, k) < NumberAt(s, history, k + 1)
  {
    var before := After(s, history[..k]);
    AfterInv(s, history[..k]);
    PrepareInv(before, history[k].timer);
    AfterSnoc(s, history, k);
    StepInv(before, history[k]);
    PrepareInv(After(s, history[..k + 1]), history[k + 1].timer);
  }

  /** Numbers never go back, and they grow exactly past a completed send or a timer. */
  lemma {:induction false} NumbersGrow(s: Sender, history: seq<Attempt>, i: nat, j: nat)
    requires SenderInv(s) && i < j < |history|
    ensures NumberAt(s, history, i) <= NumberAt(s, history, j)
    ensures NumberAt(s, history, i) < NumberAt(s, history, j) <==>
            exists k :: i <= k < j && Moved(s, history, k)
    decreases j - i
  {
    NextNumber(s, history, j - 1);
    if i < j - 1 { NumbersGrow(s, history, i, j - 1); }
  }

  /** Two encryptions of one sender share a (key, nonce) pair exactly when no send
      completed and no timer fired from the first to the second. */
  lemma NonceReuseExactly(s: Sender, history: seq<Attempt>, i: nat, j: nat)
    requires SenderInv(s) && i < j < |history|
    requires !OutcomeAt(s, history, i).Overflow? && !OutcomeAt(s, history, j).Overflow?
    ensures var f, g := OutcomeAt(s, history, i).frame.body, OutcomeAt(s, history, j).frame.body;
            (f.key, f.nonce) == (g.key, g.nonce) <==>
            forall k :: i <= k < j ==> !Moved(s, history, k)
  {
    FrameAt(s, history, i);
    FrameAt(s, history, j);
    NumbersGrow(s, history, i, j);
  }

  /** So a caller that sends again after a failed write encrypts two texts under one pair. */
  lemma FailedSendReuses(s: Sender, timer: bool, first: Bytes, second: Bytes, ok: bool)
    requires SenderInv(s) && Prepare(s, timer).seqNo <= MAX_SEQ
    ensures var history := [Attempt(first, timer, false), Attempt(second, false, ok)];
            var a, b := OutcomeAt(s, history, 0), OutcomeAt(s, history, 1);
            && a.Aborted? && !b.Overflow?
            && (a.frame.body.key, a.frame.body.nonce) == (b.frame.body.key, b.frame.body.nonce)
            && a.frame.body.plaintext == first && b.frame.body.plaintext == second
  {
    var history := [Attempt(first, timer, false), Attempt(second, false, ok)];
    FrameAt(s, history, 0);
    FrameAt(s, history, 1);
    assert !Moved(s, history, 0);
    NextNumber(s, history, 0);
    assert history[..0] == [] && After(s, history[..0]) == s;
    assert NumberAt(s, history, 0) == Prepare(s, timer).seqNo;
  }

  /** No pair is shared by two completed sends, of one side or of the two sides. */
  lemma NonceUnique(s: Sender, history: seq<Attempt>, i: nat, t: Sender, other: seq<Attempt>, j: nat)
    requires SenderInv(s) && SenderInv(t)
    requires i < |history| && j < |other|
    requires OutcomeAt(s, history, i).Sent? && OutcomeAt(t, other, j).Sent?
    requires t.side != s.side || (t == s && other == history && i != j)
    ensures var f, g := OutcomeAt(s, history, i).frame.body, OutcomeAt(t, other, j).frame.body;
            (f.key, f.nonce) != (g.key, g.nonce)
  {
    FrameAt(s, history, i);
    FrameAt(t, other, j);
    if t.side != s.side {
      var e1 := Epoch(NumberAt(s, history, i), s.interval);
      var e2 := Epoch(NumberAt(t, other, j), t.interval);
      if ChainKey(s.side, e1) == ChainKey(t.side, e2) { ChainInjective(s.side, e1, t.side, e2); }
    } else {
      var lo, hi := if i < j then i else j, if i < j then j else i;
      NumbersGrow(s, history, lo, hi);
      assert Moved(s, history, lo);
    }
  }
}
