/** The receiving half of memnode/security.py's SecureChannel, and what the two
    halves guarantee together. */
module Receivers {
  import opened Common
  import opened Epochs
  import opened KeySchedule
  import opened Frames
  import opened ReplayWindows

  /** `peer` is the side whose frames this receiver opens.  Any exception ends the
      connection: `live` is then false for good. */
  datatype Receiver = Receiver(peer: Side, interval: nat, maxSkip: int,
                               window: SetWindow, epoch: nat, key: Key, live: bool)

  datatype Outcome = Delivered(plaintext: Bytes) | Dropped | Raised | Closed

  function Start(peer: Side, interval: nat, maxSkip: int, windowSize: nat): Receiver {
    Receiver(peer, interval, maxSkip, Empty(windowSize), 0, Base(peer), true)
  }

  ghost predicate ReceiverInv(r: Receiver) {
    && r.interval >= 1
    && WellFormed(r.window)
    && (r.live ==> r.epoch == if r.window.highest < 0 then 0 else Epoch(r.window.highest, r.interval))
    && (r.live ==> r.key == ChainKey(r.peer, r.epoch))
  }

  /** The window is updated first, then the epoch is judged, then the frame opened. */
  function RecvStep(r: Receiver, f: Frame): (Receiver, Outcome)
    requires r.interval >= 1
  {
    if !r.live then (r, Closed)
    else if f.Truncated? then (r.(live := false), Raised)
    else if !Fresh(r.window, f.seqNo) then (r, Dropped)
    else
      var s := r.(window := Record(r.window, f.seqNo));
      var e := Epoch(f.seqNo, r.interval);
      if e < r.epoch || e - r.epoch > r.maxSkip then (s.(live := false), Raised)
      else
        var t := s.(epoch := e, key := AdvanceKey(r.key, r.epoch, e));
        if Opens(t.key, f.seqNo, f.body) then (t, Delivered(f.body.plaintext))
        else (t.(live := false), Raised)
  }

  /** The receiver after a history of arrivals. */
  function After(r: Receiver, arrivals: seq<Frame>): (s: Receiver)
    requires r.interval >= 1
    ensures s.interval == r.interval && s.peer == r.peer && s.maxSkip == r.maxSkip
  {
    if arrivals == [] then r
    else RecvStep(After(r, arrivals[..|arrivals| - 1]), arrivals[|arrivals| - 1]).0
  }

  function OutcomeAt(r: Receiver, arrivals: seq<Frame>, i: nat): Outcome
    requires r.interval >= 1 && i < |arrivals|
  {
    RecvStep(After(r, arrivals[..i]), arrivals[i]).1
  }

  lemma StepInv(r: Receiver, f: Frame)
    requires ReceiverInv(r)
    ensures ReceiverInv(RecvStep(r, f).0)
    ensures r.window.accepted <= RecvStep(r, f).0.window.accepted
  {
    if r.live && f.Frame? && Fresh(r.window, f.seqNo) {
      var e := Epoch(f.seqNo, r.interval);
      if r.window.highest >= 0 {
        if f.seqNo > r.window.highest {
          EpochMono(r.window.highest, f.seqNo, r.interval);
        } else {
          EpochMono(f.seqNo, r.window.highest, r.interval);
        }
      }
      if r.epoch <= e { AdvanceFollowsChain(r.peer, r.epoch, e); }
    }
  }

  /** In every live state the key is the peer's chain key and the epoch that of the
      highest number accepted. */
  lemma {:induction false} AfterInv(r: Receiver, arrivals: seq<Frame>)
    requires ReceiverInv(r)
    ensures ReceiverInv(After(r, arrivals))
    decreases |arrivals|
  {
    if arrivals != [] {
      var n := |arrivals| - 1;
      AfterInv(r, arrivals[..n]);
      StepInv(After(r, arrivals[..n]), arrivals[n]);
    }
  }

  /** A delivered frame's number stays remembered. */
  lemma {:induction false} DeliveredIsRemembered(r: Receiver, arrivals: seq<Frame>, i: nat, j: nat)
    requires ReceiverInv(r) && i < j <= |arrivals|
    requires OutcomeAt(r, arrivals, i).Delivered?
    ensures arrivals[i].seqNo in After(r, arrivals[..j]).window.accepted
    decreases j
  {
    var front := arrivals[..j - 1];
    assert arrivals[..j][..j - 1] == front;
    AfterInv(r, front);
    StepInv(After(r, front), arrivals[j - 1]);
    if i < j - 1 { DeliveredIsRemembered(r, arrivals, i, j - 1); }
  }

  /** No sequence number is delivered twice, whatever arrives. */
  lemma DeliveredAtMostOnce(r: Receiver, arrivals: seq<Frame>, i: nat, j: nat)
    requires ReceiverInv(r) && i < j < |arrivals|
    requires OutcomeAt(r, arrivals, i).Delivered? && OutcomeAt(r, arrivals, j).Delivered?
    ensures arrivals[i].seqNo != arrivals[j].seqNo
  {
    DeliveredIsRemembered(r, arrivals, i, j);
  }

  /** What a delivery says about the frame it came from. */
  lemma DeliveredOpens(r: Receiver, arrivals: seq<Frame>, i: nat)
    requires ReceiverInv(r) && i < |arrivals|
    requires OutcomeAt(r, arrivals, i).Delivered?
    ensures arrivals[i] == Seal(ChainKey(r.peer, Epoch(arrivals[i].seqNo, r.interval)),
                                arrivals[i].seqNo, OutcomeAt(r, arrivals, i).plaintext)
  {
    AfterInv(r, arrivals[..i]);
    StepInv(After(r, arrivals[..i]), arrivals[i]);
  }
}

/** Both halves of one direction of the channel. */
module ChannelTheorems {
  import opened Common
  import opened Config
  import opened Epochs
  import opened KeySchedule
  import opened Frames
  import opened ReplayWindows
  import S = Senders
  import R = Receivers

  // --- authenticity against arbitrary arrivals ---------------------------------

  /** Call k of this sender encrypted `body`. */
  predicate MadeAt(s: S.Sender, history: seq<S.Attempt>, k: nat, body: Body)
    requires s.interval >= 1
  {
    k < |history| && !S.OutcomeAt(s, history, k).Overflow? && S.OutcomeAt(s, history, k).frame.body == body
  }

  ghost predicate SessionKey(key: Key) {
    exists side, e :: key == ChainKey(side, e)
  }

  /** The network's power: it may reorder, repeat, drop, truncate, invent and change
      number prefixes at will, and hand a side its own frames back; what it cannot do
      is encrypt under a session key. */
  ghost predicate Possible(arrivals: seq<Frame>, peer: S.Sender, peerHistory: seq<S.Attempt>,
                           self: S.Sender, selfHistory: seq<S.Attempt>)
    requires peer.interval >= 1 && self.interval >= 1
  {
    forall f <- arrivals :: f.Frame? && f.body.Cipher? && SessionKey(f.body.key) ==>
      exists k :: MadeAt(peer, peerHistory, k, f.body) || MadeAt(self, selfHistory, k, f.body)
  }

  /** Every plaintext delivered was encrypted by the peer under the number it was
      delivered with. */
  lemma Authentic(r: R.Receiver, arrivals: seq<Frame>, i: nat,
                  peer: S.Sender, peerHistory: seq<S.Attempt>,
                  self: S.Sender, selfHistory: seq<S.Attempt>) returns (k: nat)
    requires R.ReceiverInv(r) && S.SenderInv(peer) && S.SenderInv(self)
    requires peer.side == r.peer && self.side == Other(r.peer)
    requires Possible(arrivals, peer, peerHistory, self, selfHistory)
    requires i < |arrivals| && R.OutcomeAt(r, arrivals, i).Delivered?
    ensures k < |peerHistory|
    ensures peerHistory[k].plaintext == R.OutcomeAt(r, arrivals, i).plaintext
    ensures S.NumberAt(peer, peerHistory, k) == arrivals[i].seqNo
  {
    R.DeliveredOpens(r, arrivals, i);
    var f := arrivals[i];
    var e := Epoch(f.seqNo, r.interval);
    assert f.body.key == ChainKey(r.peer, e);
    assert f in arrivals;
    k :| MadeAt(peer, peerHistory, k, f.body) || MadeAt(self, selfHistory, k, f.body);
    if MadeAt(peer, peerHistory, k, f.body) {
      S.FrameAt(peer, peerHistory, k);
    } else {
      S.FrameAt(self, selfHistory, k);
      ChainInjective(r.peer, e, self.side, Epoch(S.NumberAt(self, selfHistory, k), self.interval));
    }
  }

  /** Delivery i came from call k of the peer: one with its text, under its number. */
  ghost predicate CameFrom(r: R.Receiver, arrivals: seq<Frame>, i: nat,
                           peer: S.Sender, peerHistory: seq<S.Attempt>, k: nat)
    requires r.interval >= 1 && peer.interval >= 1 && i < |arrivals|
  {
    && R.OutcomeAt(r, arrivals, i).Delivered? && k < |peerHistory|
    && peerHistory[k].plaintext == R.OutcomeAt(r, arrivals, i).plaintext
    && S.NumberAt(peer, peerHistory, k) == arrivals[i].seqNo
  }

  /** `source` names the call that each delivery among the first n arrivals came from. */
  ghost predicate Sourced(r: R.Receiver, arrivals: seq<Frame>, n: nat,
                          peer: S.Sender, peerHistory: seq<S.Attempt>, source: map<nat, nat>)
    requires r.interval >= 1 && peer.interval >= 1 && n <= |arrivals|
  {
    && (forall i: nat | i < n :: R.OutcomeAt(r, arrivals, i).Delivered? ==> i in source)
    && (forall i <- source :: i < n && CameFrom(r, arrivals, i, peer, peerHistory, source[i]))
  }

  lemma {:induction false} FindSources(r: R.Receiver, arrivals: seq<Frame>, n: nat,
                                       peer: S.Sender, peerHistory: seq<S.Attempt>,
                                       self: S.Sender, selfHistory: seq<S.Attempt>) returns (source: map<nat, nat>)
    requires R.ReceiverInv(r) && S.SenderInv(peer) && S.SenderInv(self) && n <= |arrivals|
    requires peer.side == r.peer && self.side == Other(r.peer)
    requires Possible(arrivals, peer, peerHistory, self, selfHistory)
    ensures Sourced(r, arrivals, n, peer, peerHistory, source)
    decreases n
  {
    if n == 0 {
      return map[];
    }
    source := FindSources(r, arrivals, n - 1, peer, peerHistory, self, selfHistory);
    if R.OutcomeAt(r, arrivals, n - 1).Delivered? {
      var k := Authentic(r, arrivals, n - 1, peer, peerHistory, self, selfHistory);
      OneMoreSource(r, arrivals, n, peer, peerHistory, source, k);
      source := source[n - 1 := k];
    }
  }

  lemma OneMoreSource(r: R.Receiver, arrivals: seq<Frame>, n: nat,
                      peer: S.Sender, peerHistory: seq<S.Attempt>, source: map<nat, nat>, k: nat)
    requires r.interval >= 1 && peer.interval >= 1 && 0 < n <= |arrivals|
    requires Sourced(r, arrivals, n - 1, peer, peerHistory, source)
             && CameFrom(r, arrivals, n - 1, peer, peerHistory, k)
    ensures Sourced(r, arrivals, n, peer, peerHistory, source[n - 1 := k])
  {
  }

  lemma SourcesDiffer(r: R.Receiver, arrivals: seq<Frame>, i: nat, j: nat,
                      peer: S.Sender, peerHistory: seq<S.Attempt>, k: nat, l: nat)
    requires R.ReceiverInv(r) && peer.interval >= 1 && i < |arrivals| && j < |arrivals| && i != j
    requires CameFrom(r, arrivals, i, peer, peerHistory, k) && CameFrom(r, arrivals, j, peer, peerHistory, l)
    ensures S.NumberAt(peer, peerHistory, k) != S.NumberAt(peer, peerHistory, l)
  {
    if i < j { R.DeliveredAtMostOnce(r, arrivals, i, j); } else { R.DeliveredAtMostOnce(r, arrivals, j, i); }
  }

  /** Each call of the peer is delivered at most once: two deliveries come from two calls under
      two numbers.  So of several calls that were made under one number, because all but the
      last failed, at most one is delivered. */
  lemma EachSendDeliveredOnce(r: R.Receiver, arrivals: seq<Frame>,
                              peer: S.Sender, peerHistory: seq<S.Attempt>,
                              self: S.Sender, selfHistory: seq<S.Attempt>) returns (source: map<nat, nat>)
    requires R.ReceiverInv(r) && S.SenderInv(peer) && S.SenderInv(self)
    requires peer.side == r.peer && self.side == Other(r.peer)
    requires Possible(arrivals, peer, peerHistory, self, selfHistory)
    ensures Sourced(r, arrivals, |arrivals|, peer, peerHistory, source)
    ensures forall i, j | i in source && j in source && i != j ::
              S.NumberAt(peer, peerHistory, source[i]) != S.NumberAt(peer, peerHistory, source[j])
  {
    source := FindSources(r, arrivals, |arrivals|, peer, peerHistory, self, selfHistory);
    forall i, j | i in source && j in source && i != j
      ensures S.NumberAt(peer, peerHistory, source[i]) != S.NumberAt(peer, peerHistory, source[j])
    {
      SourcesDiffer(r, arrivals, i, j, peer, peerHistory, source[i], source[j]);
    }
  }

  // --- completeness for in-order arrivals ---------------------------------------

  ghost predicate Sealed(frames: seq<Frame>) {
    forall i | 0 <= i < |frames| :: frames[i].Frame? && frames[i].body.Cipher?
  }

  /** Frames of one side in strictly growing number order. */
  ghost predicate Genuine(frames: seq<Frame>, side: Side, interval: nat)
    requires interval >= 1
  {
    && Sealed(frames)
    && (forall i | 0 <= i < |frames| ::
          && frames[i].seqNo <= MAX_SEQ
          && frames[i] == Seal(ChainKey(side, Epoch(frames[i].seqNo, interval)),
                               frames[i].seqNo, frames[i].body.plaintext))
    && (forall i, j | 0 <= i < j < |frames| :: frames[i].seqNo < frames[j].seqNo)
  }

  /** Arrivals in order with repetitions: `Next` is the next genuine frame, and
      `Again(k, body)` puts the number of the already arrived frame k before any body. */
  datatype Arrival = Next | Again(k: nat, body: Body)

  function NextCount(script: seq<Arrival>): nat {
    if script == [] then 0
    else NextCount(script[..|script| - 1]) + if script[|script| - 1].Next? then 1 else 0
  }

  /** Arrival `a` is possible once c genuine frames have arrived. */
  ghost predicate FitsAt(a: Arrival, frames: seq<Frame>, c: nat) {
    match a
    case Next => c < |frames|
    case Again(k, _) => k < c <= |frames|
  }

  ghost function FrameOf(a: Arrival, frames: seq<Frame>, c: nat): Frame
    requires Sealed(frames) && FitsAt(a, frames, c)
  {
    match a
    case Next => frames[c]
    case Again(k, body) => Frame(frames[k].seqNo, body)
  }

  ghost predicate Fits(script: seq<Arrival>, frames: seq<Frame>) {
    script != [] ==>
      var n := |script| - 1;
      Fits(script[..n], frames) && FitsAt(script[n], frames, NextCount(script[..n]))
  }

  ghost function Arrivals(script: seq<Arrival>, frames: seq<Frame>): (a: seq<Frame>)
    requires Sealed(frames) && Fits(script, frames)
    ensures |a| == |script|
  {
    if script == [] then []
    else
      var n := |script| - 1;
      Arrivals(script[..n], frames) + [FrameOf(script[n], frames, NextCount(script[..n]))]
  }

  /** The plaintexts delivered over a history, in order. */
  function Delivered(r: R.Receiver, arrivals: seq<Frame>): seq<Bytes>
    requires r.interval >= 1
  {
    if arrivals == [] then []
    else
      var n := |arrivals| - 1;
      var out := R.OutcomeAt(r, arrivals, n);
      Delivered(r, arrivals[..n]) + if out.Delivered? then [out.plaintext] else []
  }

  ghost function Texts(frames: seq<Frame>): seq<Bytes>
    requires Sealed(frames)
  {
    seq(|frames|, i requires 0 <= i < |frames| => frames[i].body.plaintext)
  }

  /** How many epochs frame i lies past the frame before it. */
  ghost function Gap(frames: seq<Frame>, i: nat, interval: nat): int
    requires interval >= 1 && i < |frames| && Sealed(frames)
  {
    Epoch(frames[i].seqNo, interval) - if i == 0 then 0 else Epoch(frames[i - 1].seqNo, interval)
  }

  ghost predicate GapsWithin(frames: seq<Frame>, n: nat, interval: nat, maxSkip: int)
    requires interval >= 1 && n <= |frames| && Sealed(frames)
  {
    forall i | 0 <= i < n :: Gap(frames, i, interval) <= maxSkip
  }

  /** The receiver that has taken exactly the first n genuine frames. */
  ghost predicate CaughtUp(r: R.Receiver, frames: seq<Frame>, n: nat)
    requires n <= |frames| && Sealed(frames)
  {
    && R.ReceiverInv(r) && r.live
    && (forall i | 0 <= i < n :: frames[i].seqNo in r.window.accepted)
    && r.window.highest == if n == 0 then -1 else frames[n - 1].seqNo
  }

  lemma TakeNext(r: R.Receiver, frames: seq<Frame>, n: nat)
    requires r.interval >= 1 && Genuine(frames, r.peer, r.interval)
    requires n < |frames| && CaughtUp(r, frames, n)
    ensures var (s, out) := R.RecvStep(r, frames[n]);
            if Gap(frames, n, r.interval) <= r.maxSkip
            then CaughtUp(s, frames, n + 1) && out == R.Delivered(frames[n].body.plaintext)
            else !s.live && out == R.Raised
  {
    var f := frames[n];
    assert Fresh(r.window, f.seqNo);
    R.StepInv(r, f);
    if n > 0 { EpochMono(frames[n - 1].seqNo, f.seqNo, r.interval); }
    AdvanceFollowsChain(r.peer, r.epoch, Epoch(f.seqNo, r.interval));
  }

  lemma {:induction false} FitsCount(script: seq<Arrival>, frames: seq<Frame>)
    requires Fits(script, frames)
    ensures NextCount(script) <= |frames|
    decreases |script|
  {
    if script != [] { FitsCount(script[..|script| - 1], frames); }
  }

  ghost predicate Exact(r: R.Receiver, frames: seq<Frame>, script: seq<Arrival>)
    requires r.interval >= 1 && Sealed(frames) && Fits(script, frames) && NextCount(script) <= |frames|
  {
    var arrivals, n := Arrivals(script, frames), NextCount(script);
    var s := R.After(r, arrivals);
    if GapsWithin(frames, n, r.interval, r.maxSkip)
    then CaughtUp(s, frames, n) && Delivered(r, arrivals) == Texts(frames[..n])
    else !s.live
  }

  lemma DeliveredSnoc(r: R.Receiver, front: seq<Frame>, f: Frame)
    requires r.interval >= 1
    ensures var (s, out) := R.RecvStep(R.After(r, front), f);
            && R.After(r, front + [f]) == s
            && Delivered(r, front + [f]) == Delivered(r, front) + if out.Delivered? then [out.plaintext] else []
  {
    assert (front + [f])[..|front|] == front;
  }

  lemma ExactStep(r: R.Receiver, frames: seq<Frame>, script: seq<Arrival>)
    requires r.interval >= 1 && Genuine(frames, r.peer, r.interval)
    requires script != [] && Fits(script, frames) && NextCount(script) <= |frames|
    requires Exact(r, frames, script[..|script| - 1])
    ensures Exact(r, frames, script)
  {
    var n := |script| - 1;
    var front, c := Arrivals(script[..n], frames), NextCount(script[..n]);
    match script[n]
    case Next => ExactNext(r, frames, front, c);
    case Again(k, body) => ExactAgain(r, frames, front, c, k, body);
  }

  lemma ExactAgain(r: R.Receiver, frames: seq<Frame>, front: seq<Frame>, c: nat, k: nat, body: Body)
    requires r.interval >= 1 && Sealed(frames) && k < c <= |frames|
    ensures var all := front + [Frame(frames[k].seqNo, body)];
            && (CaughtUp(R.After(r, front), frames, c) ==>
                  CaughtUp(R.After(r, all), frames, c) && Delivered(r, all) == Delivered(r, front))
            && (!R.After(r, front).live ==> !R.After(r, all).live)
  {
    DeliveredSnoc(r, front, Frame(frames[k].seqNo, body));
  }

  lemma ExactNext(r: R.Receiver, frames: seq<Frame>, front: seq<Frame>, c: nat)
    requires r.interval >= 1 && Genuine(frames, r.peer, r.interval) && c < |frames|
    requires GapsWithin(frames, c, r.interval, r.maxSkip) ==>
               CaughtUp(R.After(r, front), frames, c) && Delivered(r, front) == Texts(frames[..c])
    requires !GapsWithin(frames, c, r.interval, r.maxSkip) ==> !R.After(r, front).live
    ensures var all := front + [frames[c]];
            if GapsWithin(frames, c + 1, r.interval, r.maxSkip)
            then CaughtUp(R.After(r, all), frames, c + 1) && Delivered(r, all) == Texts(frames[..c + 1])
            else !R.After(r, all).live
  {
    DeliveredSnoc(r, front, frames[c]);
    if GapsWithin(frames, c, r.interval, r.maxSkip) {
      TakeNext(R.After(r, front), frames, c);
    }
    TextsSnoc(frames, c);
    GapsSnoc(frames, c, r.interval, r.maxSkip);
  }

  lemma TextsSnoc(frames: seq<Frame>, c: nat)
    requires Sealed(frames) && c < |frames|
    ensures Texts(frames[..c + 1]) == Texts(frames[..c]) + [frames[c].body.plaintext]
  {
  }

  lemma GapsSnoc(frames: seq<Frame>, c: nat, interval: nat, maxSkip: int)
    requires interval >= 1 && Sealed(frames) && c < |frames|
    ensures GapsWithin(frames, c + 1, interval, maxSkip) <==>
            GapsWithin(frames, c, interval, maxSkip) && Gap(frames, c, interval) <= maxSkip
  {
  }

  /** Genuine frames in order, with repetitions anywhere: the receiver survives if and
      only if no frame jumps more epochs than it tolerates, and then it delivers exactly
      the texts sent, in order. */
  lemma {:induction false} InOrderExactly(r: R.Receiver, frames: seq<Frame>, script: seq<Arrival>)
    requires r.interval >= 1 && Genuine(frames, r.peer, r.interval) && CaughtUp(r, frames, 0)
    requires Fits(script, frames)
    ensures NextCount(script) <= |frames| && Exact(r, frames, script)
    decreases |script|
  {
    FitsCount(script, frames);
    if script != [] {
      InOrderExactly(r, frames, script[..|script| - 1]);
      ExactStep(r, frames, script);
    }
  }

  // --- the two halves together ---------------------------------------------------

  ghost predicate AllComplete(s: S.Sender, history: seq<S.Attempt>)
    requires s.interval >= 1
  {
    forall i | 0 <= i < |history| :: S.OutcomeAt(s, history, i).Sent?
  }

  lemma {:induction false} CompletedAll(s: S.Sender, history: seq<S.Attempt>)
    requires S.SenderInv(s) && AllComplete(s, history)
    ensures |S.Completed(s, history)| == |history|
    ensures forall i | 0 <= i < |history| :: S.Completed(s, history)[i] == S.OutcomeAt(s, history, i).frame
    decreases |history|
  {
    if history != [] {
      var n := |history| - 1;
      assert forall i | 0 <= i < n :: history[..n][..i] == history[..i];
      assert forall i | 0 <= i < n :: S.OutcomeAt(s, history[..n], i) == S.OutcomeAt(s, history, i);
      CompletedAll(s, history[..n]);
    }
  }

  function Plaintexts(history: seq<S.Attempt>): seq<Bytes> {
    seq(|history|, i requires 0 <= i < |history| => history[i].plaintext)
  }

  /** Completed sends form a genuine stream, whatever sends failed in between. */
  lemma {:induction false} CompletedGenuine(s: S.Sender, history: seq<S.Attempt>)
    requires S.SenderInv(s)
    ensures var frames := S.Completed(s, history);
            && Genuine(frames, s.side, s.interval)
            && forall i | 0 <= i < |frames| :: frames[i].seqNo < S.After(s, history).seqNo
    decreases |history|
  {
    if history != [] {
      var n := |history| - 1;
      CompletedGenuine(s, history[..n]);
      S.FrameAt(s, history, n);
      S.AfterInv(s, history[..n]);
      S.PrepareInv(S.After(s, history[..n]), history[n].timer);
    }
  }

  /** If every send completes, epochs grow by at most one a send, whatever the timer does. */
  lemma CompletedGaps(s: S.Sender, history: seq<S.Attempt>)
    requires S.SenderInv(s) && AllComplete(s, history) && s.epoch == 0
    ensures var frames := S.Completed(s, history);
            && |frames| == |history| && Sealed(frames)
            && GapsWithin(frames, |frames|, s.interval, 1)
            && Texts(frames) == Plaintexts(history)
  {
    CompletedGenuine(s, history);
    CompletedAll(s, history);
    var frames := S.Completed(s, history);
    forall i | 0 <= i < |history|
      ensures frames[i].seqNo == S.NumberAt(s, history, i)
      ensures frames[i].body.plaintext == history[i].plaintext
    {
      S.FrameAt(s, history, i);
    }
    forall i | 0 <= i < |history| ensures Gap(frames, i, s.interval) <= 1 {
      GapAtMostOne(s, history, i);
    }
  }

  lemma GapAtMostOne(s: S.Sender, history: seq<S.Attempt>, i: nat)
    requires S.SenderInv(s) && i < |history|
    ensures Epoch(S.NumberAt(s, history, i), s.interval) <= 1 +
            if i == 0 then s.epoch else Epoch(S.NumberAt(s, history, i - 1), s.interval)
  {
    var before := S.After(s, history[..i]);
    S.AfterInv(s, history[..i]);
    S.PrepareInv(before, history[i].timer);
    if i > 0 { S.FrameAt(s, history, i - 1); }
  }

  /** A peer whose sends all complete is heard word for word: with a tolerance of at
      least one epoch the channel never fails, and repetitions change nothing. */
  lemma ReliableInOrder(side: Side, interval: nat, history: seq<S.Attempt>,
                        maxSkip: int, windowSize: nat, script: seq<Arrival>)
    requires interval >= 1 && maxSkip >= 1 && windowSize >= 1
    requires AllComplete(S.Start(side, interval), history)
    requires Fits(script, S.Completed(S.Start(side, interval), history))
    ensures var frames := S.Completed(S.Start(side, interval), history);
            var r := R.Start(side, interval, maxSkip, windowSize);
            && Sealed(frames)
            && NextCount(script) <= |history|
            && R.After(r, Arrivals(script, frames)).live
            && Delivered(r, Arrivals(script, frames)) == Plaintexts(history[..NextCount(script)])
  {
    var s := S.Start(side, interval);
    var frames, n := S.Completed(s, history), NextCount(script);
    CompletedGenuine(s, history);
    CompletedGaps(s, history);
    InOrderExactly(R.Start(side, interval, maxSkip, windowSize), frames, script);
    assert Texts(frames[..n]) == Texts(frames)[..n];
  }
}
