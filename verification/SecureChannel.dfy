/** The code's form of the secure channel: one object whose methods move the send and
    receive halves in place, proved to take the steps of `Senders` and `Receivers`. */
module SecureChannels {
  import opened Config
  import opened Epochs
  import opened KeySchedule
  import opened Frames
  import opened ReplayWindows
  import S = Senders
  import R = Receivers

  class SecureChannel {
    const side: Side
    const interval: nat
    const maxSkip: int
    const replay: ReplayWindow
    var sendKey: Key
    var recvKey: Key
    var sendSeq: nat
    var sendEpoch: nat
    var recvEpoch: nat
    var live: bool
    var rekeysSent: nat
    var rekeysReceived: nat
    var replaysDropped: nat

    ghost predicate Valid()
      reads this, replay
    {
      && interval >= 1
      && replay.Valid()
      && rekeysSent == sendEpoch
      && rekeysReceived == recvEpoch
    }

    ghost function SendView(): S.Sender
      reads this
    {
      S.Sender(side, interval, sendSeq, sendEpoch, sendKey)
    }

    ghost function RecvView(): R.Receiver
      reads this, replay
    {
      R.Receiver(Other(side), interval, maxSkip, replay.View(), recvEpoch, recvKey, live)
    }

    /** The two ends take the two base keys crosswise, so each one's receiving half
        starts on the other's sending key. */
    constructor (isInitiator: bool, windowSize: nat, interval: nat, maxSkip: int)
      requires windowSize >= 1 && interval >= 1
      ensures Valid() && fresh(replay)
      ensures side == if isInitiator then Initiator else Responder
      ensures SendView() == S.Start(side, interval)
      ensures RecvView() == R.Start(Other(side), interval, maxSkip, windowSize)
    {
      var keyA, keyB := Base(Initiator), Base(Responder);
      side := if isInitiator then Initiator else Responder;
      sendKey, recvKey := if isInitiator then keyA else keyB, if isInitiator then keyB else keyA;
      this.interval, this.maxSkip := interval, maxSkip;
      replay := new ReplayWindow(windowSize);
      sendSeq, sendEpoch, recvEpoch := 0, 0, 0;
      live := true;
      rekeysSent, rekeysReceived, replaysDropped := 0, 0, 0;
    }

    method AdvanceSendTo(epoch: nat)
      requires Valid()
      modifies this`sendEpoch, this`sendKey, this`rekeysSent
      ensures Valid()
      ensures SendView() == S.AdvanceTo(old(SendView()), epoch)
    {
      while sendEpoch < epoch
        invariant rekeysSent == sendEpoch
        invariant old(sendEpoch) <= sendEpoch && (sendEpoch <= epoch || sendEpoch == old(sendEpoch))
        invariant AdvanceKey(sendKey, sendEpoch, epoch) == AdvanceKey(old(sendKey), old(sendEpoch), epoch)
      {
        sendEpoch := sendEpoch + 1;
        sendKey := Next(sendKey, sendEpoch);
        rekeysSent := rekeysSent + 1;
      }
    }

    /** False stands for the exception, which leaves key and epoch as they were. */
    method AdvanceRecvTo(epoch: nat) returns (ok: bool)
      requires Valid()
      modifies this`recvEpoch, this`recvKey, this`rekeysReceived
      ensures Valid()
      ensures ok == (old(recvEpoch) <= epoch && epoch - old(recvEpoch) <= maxSkip)
      ensures ok ==> recvEpoch == epoch && recvKey == AdvanceKey(old(recvKey), old(recvEpoch), epoch)
      ensures !ok ==> recvEpoch == old(recvEpoch) && recvKey == old(recvKey)
    {
      if epoch < recvEpoch {
        return false;
      }
      if epoch - recvEpoch > maxSkip {
        return false;
      }
      while recvEpoch < epoch
        invariant rekeysReceived == recvEpoch <= epoch
        invariant AdvanceKey(recvKey, recvEpoch, epoch) == AdvanceKey(old(recvKey), old(recvEpoch), epoch)
      {
        recvEpoch := recvEpoch + 1;
        recvKey := Next(recvKey, recvEpoch);
        rekeysReceived := rekeysReceived + 1;
      }
      return true;
    }

    method MaybeTimeRekey(timer: bool)
      requires Valid()
      modifies this`sendSeq
      ensures Valid()
      ensures SendView() == S.TimeRekey(old(SendView()), timer)
    {
      if !timer {
        return;
      }
      var boundary := (sendEpoch + 1) * interval;
      if sendSeq < boundary {
        sendSeq := boundary;
      }
    }

    method Send(a: S.Attempt) returns (out: S.Outcome)
      requires Valid()
      modifies this`sendSeq, this`sendEpoch, this`sendKey, this`rekeysSent
      ensures Valid()
      ensures (SendView(), out) == S.SendStep(old(SendView()), a)
    {
      MaybeTimeRekey(a.timer);
      var seqNo := sendSeq;
      var epoch := Epoch(seqNo, interval);
      if epoch != sendEpoch {
        AdvanceSendTo(epoch);
      }
      if seqNo > MAX_SEQ {
        return S.Overflow;
      }
      var frame := Seal(sendKey, seqNo, a.plaintext);
      if !S.Writes(a) {
        return S.Aborted(frame);
      }
      sendSeq := seqNo + 1;
      return S.Sent(frame);
    }

    /** Reads incoming frames until one is delivered or an exception is raised; `n` is how
        many it took.  `Dropped` with all frames taken means it is still waiting. */
    method Recv(incoming: seq<Frame>) returns (n: nat, out: R.Outcome)
      requires Valid()
      modifies this`recvEpoch, this`recvKey, this`rekeysReceived, this`replaysDropped, this`live, replay
      ensures Valid()
      ensures n <= |incoming|
      ensures RecvView() == R.After(old(RecvView()), incoming[..n])
      ensures forall i | 0 <= i < n - 1 :: R.OutcomeAt(old(RecvView()), incoming, i) == R.Dropped
      ensures n > 0 ==> out == R.OutcomeAt(old(RecvView()), incoming, n - 1)
      ensures out.Dropped? ==> n == |incoming|
      ensures out.Closed? <==> !old(live)
      ensures replaysDropped == old(replaysDropped) + if out.Dropped? || n == 0 then n else n - 1
    {
      if !live {
        return 0, R.Closed;
      }
      n, out := 0, R.Dropped;
      while n < |incoming|
        invariant n <= |incoming| && live && Valid()
        invariant RecvView() == R.After(old(RecvView()), incoming[..n])
        invariant forall i | 0 <= i < n :: R.OutcomeAt(old(RecvView()), incoming, i) == R.Dropped
        invariant out == R.Dropped && replaysDropped == old(replaysDropped) + n
      {
        assert incoming[..n + 1][..n] == incoming[..n];
        var frame := incoming[n];
        n := n + 1;
        out := RecvFrame(frame);
        if out != R.Dropped {
          return;
        }
      }
    }

    method RecvFrame(frame: Frame) returns (out: R.Outcome)
      requires Valid() && live
      modifies this`recvEpoch, this`recvKey, this`rekeysReceived, this`replaysDropped, this`live, replay
      ensures Valid()
      ensures (RecvView(), out) == R.RecvStep(old(RecvView()), frame)
      ensures replaysDropped == old(replaysDropped) + if out.Dropped? then 1 else 0
    {
      if frame.Truncated? {
        live := false;
        return R.Raised;
      }
      var fresh' := replay.CheckAndUpdate(frame.seqNo);
      if !fresh' {
        replaysDropped := replaysDropped + 1;
        return R.Dropped;
      }
      var ok := AdvanceRecvTo(Epoch(frame.seqNo, interval));
      if !ok {
        live := false;
        return R.Raised;
      }
      if !Opens(recvKey, frame.seqNo, frame.body) {
        live := false;
        return R.Raised;
      }
      return R.Delivered(frame.body.plaintext);
    }
  }
}
