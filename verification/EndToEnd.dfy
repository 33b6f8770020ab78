/** The whole path of a transfer: producers, round-robin writer, secure channel, a network that
    repeats frames, receiver and coordinator.  It is simulated by `Network`, which takes the
    channel for granted. */
module EndToEnd {
  import opened Common
  import opened Config
  import opened Messages
  import opened Epochs
  import opened KeySchedule
  import opened Frames
  import opened ReplayWindows
  import S = Senders
  import R = Receivers
  import T = ChannelTheorems
  import X = Muxes
  import C = Replication
  import N = Network

  /** The planned transfers and the message codec. */
  datatype Ends = Ends(u: N.Setup, encode: Message -> Bytes, decode: Bytes -> Option<Message>)

  ghost predicate EndsOk(e: Ends) {
    N.SetupOk(e.u) && forall msg :: e.decode(e.encode(msg)) == Some(msg)
  }

  /** `wire` holds the frames given to the network, of which the first `arrived` have arrived;
      `leaked` says that the last of them belongs to the write that failed.  `calls` are the
      sends tried so far and `heard` the messages handed to the coordinator. */
  datatype Link = Link(mux: X.Mux, sender: S.Sender, calls: seq<S.Attempt>, wire: seq<Frame>, leaked: bool,
                       receiver: R.Receiver, arrived: nat, heard: seq<Message>,
                       coord: C.Coord, progress: map<string, nat>)

  /** `Write` is the send of the message in flight.  One that fails may still have reached the
      network whole. */
  datatype Step =
    | Produce(id: string)
    | Chatter(stream: int, msg: Message)
    | Pick
    | Write(timer: bool, ok: bool, leaks: bool)
    | Close
    | Arrive(a: T.Arrival, env: C.Env)
    | Elsewhere(event: C.Event)

  ghost predicate Enabled(e: Ends, l: Link, step: Step)
    requires e.u.size >= 1
  {
    match step
    case Produce(id) => N.Enabled(e.u, Abs(l), N.Produce(id))
    case Chatter(stream, msg) => N.Enabled(e.u, Abs(l), N.Chatter(stream, msg))
    case Pick => X.Enabled(l.mux, X.Take)
    case Write(_, _, _) => l.mux.inflight.Some? && l.sender.interval >= 1
    case Close => true
    case Arrive(a, _) => l.receiver.interval >= 1 && T.Sealed(l.wire) && T.FitsAt(a, l.wire, l.arrived)
    case Elsewhere(ev) => N.Enabled(e.u, Abs(l), N.Elsewhere(ev))
  }

  ghost function Attempt(e: Ends, l: Link, timer: bool, ok: bool): S.Attempt
    requires l.mux.inflight.Some?
  {
    S.Attempt(e.encode(l.mux.inflight.value.msg), timer, ok)
  }

  /** A frame above the size limit is refused before any of it is written. */
  predicate Fitting(plaintext: Bytes) {
    |plaintext| + OVERHEAD <= MAX_FRAME_SIZE
  }

  ghost function WriteStep(e: Ends, l: Link, timer: bool, ok: bool, leaks: bool): Link
    requires l.mux.inflight.Some? && l.sender.interval >= 1
  {
    var a := Attempt(e, l, timer, ok);
    var (sender, out) := S.SendStep(l.sender, a);
    var called := l.(sender := sender, calls := l.calls + [a]);
    match out
    case Sent(frame) => called.(wire := l.wire + [frame], mux := X.Apply(l.mux, X.Done))
    case Aborted(frame) =>
      if leaks && Fitting(a.plaintext)
      then called.(wire := l.wire + [frame], leaked := true, mux := X.Apply(l.mux, X.Fail))
      else called.(mux := X.Apply(l.mux, X.Fail))
    case Overflow => called.(mux := X.Apply(l.mux, X.Fail))
  }

  /** A delivered text is decoded and handled; one that does not decode ends the connection. */
  ghost function ArriveStep(e: Ends, l: Link, a: T.Arrival, env: C.Env): Link
    requires l.receiver.interval >= 1 && T.Sealed(l.wire) && T.FitsAt(a, l.wire, l.arrived)
  {
    var (r, out) := R.RecvStep(l.receiver, T.FrameOf(a, l.wire, l.arrived));
    var next := l.(receiver := r, arrived := l.arrived + if a.Next? then 1 else 0);
    if !out.Delivered? then next
    else
      match e.decode(out.plaintext)
      case None => next.(receiver := r.(live := false))
      case Some(msg) => Hear(next, e.u.peer, msg, env)
  }

  ghost function Hear(l: Link, peer: string, msg: Message, env: C.Env): Link {
    l.(coord := C.Handle(l.coord, peer, msg, env), heard := l.heard + [msg])
  }

  ghost function Apply(e: Ends, l: Link, step: Step): Link
    requires e.u.size >= 1 && Enabled(e, l, step)
  {
    match step
    case Produce(id) =>
      var k := l.progress[id];
      l.(mux := X.EnqueueStep(l.mux, e.u.plan[id].stream, N.ScriptOf(e.u, id)[k]), progress := l.progress[id := k + 1])
    case Chatter(stream, msg) => l.(mux := X.EnqueueStep(l.mux, stream, msg))
    case Pick => l.(mux := X.TakeStep(l.mux))
    case Write(timer, ok, leaks) => WriteStep(e, l, timer, ok, leaks)
    case Close => l.(mux := X.Apply(l.mux, X.Close))
    case Arrive(a, env) => ArriveStep(e, l, a, env)
    case Elsewhere(ev) => l.(coord := C.Apply(l.coord, ev))
  }

  // --- the network that takes the channel for granted -----------------------------------

  /** A message whose failed write reached the network whole counts as sent there. */
  function Mux(l: Link): X.Mux {
    if l.leaked then l.mux.(sent := l.mux.sent + l.mux.lost, lost := []) else l.mux
  }

  function Abs(l: Link): N.Net {
    N.Net(Mux(l), l.arrived, l.coord, l.progress)
  }

  datatype Shadow = Stays | One(s: N.Step) | Two(s: N.Step, t: N.Step)

  /** The steps of `Network` that one step of the whole path amounts to. */
  ghost function ShadowOf(e: Ends, l: Link, step: Step): Shadow
    requires e.u.size >= 1 && Enabled(e, l, step)
  {
    match step
    case Produce(id) => One(N.Produce(id))
    case Chatter(stream, msg) => One(N.Chatter(stream, msg))
    case Pick => One(N.Writer(X.Take))
    case Write(timer, ok, leaks) =>
      var a := Attempt(e, l, timer, ok);
      var out := S.SendStep(l.sender, a).1;
      if out.Sent? then One(N.Writer(X.Done))
      else if out.Aborted? && leaks && Fitting(a.plaintext) then Two(N.Writer(X.Done), N.Writer(X.Close))
      else One(N.Writer(X.Fail))
    case Close => One(N.Writer(X.Close))
    case Arrive(a, env) => if a.Next? then One(N.Deliver(env)) else Stays
    case Elsewhere(ev) => One(N.Elsewhere(ev))
  }

  ghost predicate Leads(u: N.Setup, a: N.Net, shadow: Shadow, b: N.Net)
    requires u.size >= 1
  {
    match shadow
    case Stays => b == a
    case One(s) => N.Enabled(u, a, s) && N.Apply(u, a, s) == b
    case Two(s, t) => N.Enabled(u, a, s) && N.Enabled(u, N.Apply(u, a, s), t)
                      && N.Apply(u, N.Apply(u, a, s), t) == b
  }

  // --- what links the two ---------------------------------------------------------------

  /** The frames on the wire are the encoded messages of the mux, in order. */
  ghost predicate Carries(e: Ends, wire: seq<Frame>, sent: seq<X.Item>)
    requires T.Sealed(wire)
  {
    |wire| == |sent| && forall i | 0 <= i < |wire| :: wire[i].body.plaintext == e.encode(sent[i].msg)
  }

  /** Until a write fails, the sender is just past the last frame on the wire. */
  ghost predicate UpToDate(s: S.Sender, wire: seq<Frame>)
    requires T.Sealed(wire)
  {
    && s.interval >= 1
    && s.epoch == (if wire == [] then 0 else Epoch(wire[|wire| - 1].seqNo, s.interval))
    && forall i | 0 <= i < |wire| :: wire[i].seqNo < s.seqNo
  }

  ghost predicate SendSide(e: Ends, l: Link) {
    && S.SenderInv(l.sender)
    && T.Genuine(l.wire, l.sender.side, l.sender.interval)
    && T.GapsWithin(l.wire, |l.wire|, l.sender.interval, 1)
    && Carries(e, l.wire, Mux(l).sent)
    && (l.mux.lost == [] ==> UpToDate(l.sender, l.wire) && !l.leaked)
    && (l.mux.lost != [] ==> l.mux.closed && l.mux.inflight.None?)
  }

  ghost predicate RecvSide(l: Link) {
    && T.Sealed(l.wire) && l.arrived <= |l.wire|
    && l.receiver.peer == l.sender.side && l.receiver.interval == l.sender.interval && l.receiver.maxSkip >= 1
    && T.CaughtUp(l.receiver, l.wire, l.arrived)
  }

  /** The coordinator has handled exactly a beginning of what the mux sent. */
  ghost predicate Heard(heard: seq<Message>, sent: seq<X.Item>, n: nat) {
    |heard| == n <= |sent| && forall i | 0 <= i < n :: heard[i] == sent[i].msg
  }

  ghost predicate Linked(e: Ends, l: Link) {
    EndsOk(e) && SendSide(e, l) && RecvSide(l) && Heard(l.heard, Mux(l).sent, l.arrived)
  }

  // --- one step -------------------------------------------------------------------------

  /** A write of which the frame gets through. */
  lemma FrameGoesOut(e: Ends, l: Link, timer: bool, ok: bool, s: S.Sender, f: Frame)
    requires SendSide(e, l) && l.mux.inflight.Some?
    requires var (t, out) := S.SendStep(l.sender, Attempt(e, l, timer, ok));
             s == t && (out == S.Sent(f) || out == S.Aborted(f))
    ensures var wire := l.wire + [f];
            && T.Genuine(wire, l.sender.side, l.sender.interval)
            && T.GapsWithin(wire, |wire|, l.sender.interval, 1)
            && Carries(e, wire, l.mux.sent + [l.mux.inflight.value])
            && S.SenderInv(s) && s.side == l.sender.side && s.interval == l.sender.interval
            && (S.SendStep(l.sender, Attempt(e, l, timer, ok)).1.Sent? ==> UpToDate(s, wire))
  {
    var a, wire := Attempt(e, l, timer, ok), l.wire + [f];
    S.PrepareInv(l.sender, timer);
    S.StepInv(l.sender, a);
    var t := S.Prepare(l.sender, timer);
    assert f == Seal(ChainKey(t.side, Epoch(t.seqNo, t.interval)), t.seqNo, a.plaintext);
    assert T.Genuine(wire, l.sender.side, l.sender.interval);
    forall i | 0 <= i < |wire| ensures T.Gap(wire, i, l.sender.interval) <= 1 {
      if i < |l.wire| { assert T.Gap(wire, i, l.sender.interval) == T.Gap(l.wire, i, l.sender.interval); }
    }
  }

  /** More frames on the wire change nothing for the receiver. */
  lemma WireGrows(r: R.Receiver, wire: seq<Frame>, f: Frame, n: nat)
    requires T.Sealed(wire) && T.Sealed(wire + [f]) && n <= |wire| && T.CaughtUp(r, wire, n)
    ensures T.CaughtUp(r, wire + [f], n)
  {
    assert forall i | 0 <= i < n :: (wire + [f])[i] == wire[i];
  }

  lemma WriteCompletes(e: Ends, l: Link, timer: bool, ok: bool, s: S.Sender, f: Frame, h: Link)
    requires Linked(e, l) && l.mux.inflight.Some? && S.SendStep(l.sender, Attempt(e, l, timer, ok)) == (s, S.Sent(f))
    requires h == l.(sender := s, calls := h.calls, wire := l.wire + [f], mux := X.Apply(l.mux, X.Done))
    ensures Linked(e, h)
  {
    FrameGoesOut(e, l, timer, ok, s, f);
    WireGrows(l.receiver, l.wire, f, l.arrived);
  }

  lemma WriteLeaks(e: Ends, l: Link, timer: bool, ok: bool, s: S.Sender, f: Frame, h: Link)
    requires Linked(e, l) && l.mux.inflight.Some? && S.SendStep(l.sender, Attempt(e, l, timer, ok)) == (s, S.Aborted(f))
    requires h == l.(sender := s, calls := h.calls, wire := l.wire + [f], leaked := true, mux := X.Apply(l.mux, X.Fail))
    ensures Linked(e, h) && Mux(h).sent == l.mux.sent + [l.mux.inflight.value]
  {
    FrameGoesOut(e, l, timer, ok, s, f);
    WireGrows(l.receiver, l.wire, f, l.arrived);
    assert l.mux.lost == [] && h.mux.lost == [l.mux.inflight.value];
  }

  lemma WriteFails(e: Ends, l: Link, s: S.Sender, h: Link)
    requires Linked(e, l) && l.mux.inflight.Some?
    requires S.SenderInv(s) && s.side == l.sender.side && s.interval == l.sender.interval
    requires h == l.(sender := s, calls := h.calls, mux := X.Apply(l.mux, X.Fail))
    ensures Linked(e, h)
  {
  }

  lemma WriteLinked(e: Ends, l: Link, timer: bool, ok: bool, leaks: bool, h: Link)
    requires Linked(e, l) && l.mux.inflight.Some? && h == WriteStep(e, l, timer, ok, leaks)
    ensures Linked(e, h)
  {
    var a := Attempt(e, l, timer, ok);
    var (s, out) := S.SendStep(l.sender, a);
    S.StepInv(l.sender, a);
    if out.Sent? {
      WriteCompletes(e, l, timer, ok, s, out.frame, h);
    } else if out.Aborted? && leaks && Fitting(a.plaintext) {
      WriteLeaks(e, l, timer, ok, s, out.frame, h);
    } else {
      WriteFails(e, l, s, h);
    }
  }

  lemma WriteLeads(e: Ends, l: Link, timer: bool, ok: bool, leaks: bool, h: Link)
    requires Linked(e, l) && l.mux.inflight.Some? && h == WriteStep(e, l, timer, ok, leaks)
    ensures Leads(e.u, Abs(l), ShadowOf(e, l, Write(timer, ok, leaks)), Abs(h))
  {
    assert l.mux.lost == [] && !l.leaked;
    assert Abs(l).mux == l.mux;
    assert [] + [l.mux.inflight.value] == [l.mux.inflight.value];
  }

  /** The next genuine frame is delivered and decodes to the next message of the mux. */
  lemma NextIs(e: Ends, l: Link)
    requires Linked(e, l) && l.arrived < |l.wire|
    ensures var (s, out) := R.RecvStep(l.receiver, l.wire[l.arrived]);
            && T.CaughtUp(s, l.wire, l.arrived + 1) && s.peer == l.receiver.peer && s.interval == l.receiver.interval
            && s.maxSkip == l.receiver.maxSkip && out.Delivered?
            && e.decode(out.plaintext) == Some(Mux(l).sent[l.arrived].msg)
  {
    T.TakeNext(l.receiver, l.wire, l.arrived);
    assert T.Gap(l.wire, l.arrived, l.receiver.interval) <= 1;
  }

  lemma NextLinked(e: Ends, l: Link, env: C.Env, h: Link)
    requires Linked(e, l) && l.arrived < |l.wire| && h == ArriveStep(e, l, T.Next, env)
    ensures Linked(e, h) && h.mux == l.mux && h.leaked == l.leaked && h.progress == l.progress
    ensures h.arrived == l.arrived + 1
    ensures h.coord == C.Handle(l.coord, e.u.peer, Mux(l).sent[l.arrived].msg, env)
  {
    NextIs(e, l);
    var msg, s := Mux(l).sent[l.arrived].msg, R.RecvStep(l.receiver, l.wire[l.arrived]).0;
    assert h == Hear(l.(receiver := s, arrived := l.arrived + 1), e.u.peer, msg, env);
    HeardMore(e, l, s, msg, h);
  }

  lemma HeardMore(e: Ends, l: Link, s: R.Receiver, msg: Message, h: Link)
    requires Linked(e, l) && l.arrived < |l.wire| && msg == Mux(l).sent[l.arrived].msg
    requires T.CaughtUp(s, l.wire, l.arrived + 1) && s.peer == l.receiver.peer && s.interval == l.receiver.interval
    requires s.maxSkip == l.receiver.maxSkip
    requires h == l.(receiver := s, arrived := l.arrived + 1, coord := h.coord, heard := l.heard + [msg])
    ensures Linked(e, h)
  {
  }

  lemma AgainLinked(e: Ends, l: Link, k: nat, body: Body, env: C.Env, h: Link)
    requires Linked(e, l) && k < l.arrived && h == ArriveStep(e, l, T.Again(k, body), env)
    ensures h == l
  {
    assert !Fresh(l.receiver.window, l.wire[k].seqNo);
  }

  lemma ArriveLinked(e: Ends, l: Link, a: T.Arrival, env: C.Env, h: Link)
    requires Linked(e, l) && T.FitsAt(a, l.wire, l.arrived) && h == ArriveStep(e, l, a, env)
    ensures Linked(e, h)
    ensures Leads(e.u, Abs(l), if a.Next? then One(N.Deliver(env)) else Stays, Abs(h))
  {
    match a
    case Next => NextLinked(e, l, env, h);
    case Again(k, body) => AgainLinked(e, l, k, body, env, h);
  }

  /** A step of the mux that writes nothing, or of the coordinator elsewhere. */
  lemma AsideLinked(e: Ends, l: Link, h: Link)
    requires Linked(e, l)
    requires h == l.(mux := h.mux, coord := h.coord, progress := h.progress)
    requires h.mux.sent == l.mux.sent && h.mux.lost == l.mux.lost
    requires h.mux.lost != [] ==> h.mux.closed && h.mux.inflight.None?
    ensures Linked(e, h)
  {
  }

  lemma QueueLeads(e: Ends, l: Link, step: Step)
    requires Linked(e, l) && Enabled(e, l, step) && (step.Produce? || step.Chatter?)
    ensures Leads(e.u, Abs(l), ShadowOf(e, l, step), Abs(Apply(e, l, step)))
  {
  }

  lemma AsideLeads(e: Ends, l: Link, step: Step)
    requires Linked(e, l) && Enabled(e, l, step) && !step.Write? && !step.Arrive?
    ensures Leads(e.u, Abs(l), ShadowOf(e, l, step), Abs(Apply(e, l, step)))
  {
    if step.Produce? || step.Chatter? { QueueLeads(e, l, step); }
  }

  lemma StepLinked(e: Ends, l: Link, step: Step)
    requires Linked(e, l) && Enabled(e, l, step)
    ensures Linked(e, Apply(e, l, step))
    ensures Leads(e.u, Abs(l), ShadowOf(e, l, step), Abs(Apply(e, l, step)))
  {
    var h := Apply(e, l, step);
    match step
    case Write(timer, ok, leaks) =>
      WriteLinked(e, l, timer, ok, leaks, h);
      WriteLeads(e, l, timer, ok, leaks, h);
    case Arrive(a, env) =>
      ArriveLinked(e, l, a, env, h);
    case _ =>
      AsideLinked(e, l, h);
      AsideLeads(e, l, step);
  }

  // --- whole runs -----------------------------------------------------------------------

  datatype Schedule = Start | After(before: Schedule, step: Step)

  ghost predicate Legal(e: Ends, l: Link, run: Schedule)
    requires e.u.size >= 1
    decreases run, 0
  {
    run.After? ==> Legal(e, l, run.before) && Enabled(e, Run(e, l, run.before), run.step)
  }

  ghost function Run(e: Ends, l: Link, run: Schedule): Link
    requires e.u.size >= 1 && Legal(e, l, run)
    decreases run, 1
  {
    if run.Start? then l else Apply(e, Run(e, l, run.before), run.step)
  }

  ghost function Follow(run: N.Schedule, shadow: Shadow): N.Schedule {
    match shadow
    case Stays => run
    case One(s) => N.After(run, s)
    case Two(s, t) => N.After(N.After(run, s), t)
  }

  /** The run of `Network` that a run of the whole path amounts to. */
  ghost function ShadowRun(e: Ends, l: Link, run: Schedule): N.Schedule
    requires e.u.size >= 1 && Legal(e, l, run)
    decreases run
  {
    if run.Start? then N.Start
    else Follow(ShadowRun(e, l, run.before), ShadowOf(e, Run(e, l, run.before), run.step))
  }

  /** Nothing written yet, over a fresh channel whose receiver tolerates a jump of one epoch. */
  ghost predicate Initial(e: Ends, l: Link) {
    && EndsOk(e) && N.Initial(e.u, Abs(l)) && !l.leaked && l.wire == [] && l.heard == [] && l.calls == []
    && l.sender == S.Start(l.sender.side, l.sender.interval) && l.sender.interval >= 1
    && l.receiver == R.Start(l.sender.side, l.sender.interval, l.receiver.maxSkip, l.receiver.window.size)
    && l.receiver.maxSkip >= 1 && l.receiver.window.size >= 1
  }

  lemma FollowLeads(u: N.Setup, n: N.Net, run: N.Schedule, shadow: Shadow, b: N.Net)
    requires u.size >= 1 && N.Legal(u, n, run) && Leads(u, N.Run(u, n, run), shadow, b)
    ensures N.Legal(u, n, Follow(run, shadow)) && N.Run(u, n, Follow(run, shadow)) == b
  {
    if shadow.Two? {
      var mid := N.After(run, shadow.s);
      assert N.Legal(u, n, mid) && N.Run(u, n, mid) == N.Apply(u, N.Run(u, n, run), shadow.s);
    }
  }

  /** Every run of the whole path is a run of `Network`. */
  lemma {:induction false} Refines(e: Ends, l: Link, run: Schedule)
    requires Initial(e, l) && Legal(e, l, run)
    ensures Linked(e, Run(e, l, run))
    ensures N.Legal(e.u, Abs(l), ShadowRun(e, l, run))
    ensures N.Run(e.u, Abs(l), ShadowRun(e, l, run)) == Abs(Run(e, l, run))
    decreases run
  {
    if run.After? {
      Refines(e, l, run.before);
      var m := Run(e, l, run.before);
      StepLinked(e, m, run.step);
      FollowLeads(e.u, Abs(l), ShadowRun(e, l, run.before), ShadowOf(e, m, run.step), Abs(Apply(e, m, run.step)));
    }
  }

  /** The sends tried are the messages the mux sent and then the one it lost, encoded, and the
      sender is where they left it. */
  ghost predicate Called(e: Ends, l: Link, start: S.Sender) {
    var items := l.mux.sent + l.mux.lost;
    && start.interval >= 1 && l.sender == S.After(start, l.calls)
    && |l.calls| == |items| && forall i | 0 <= i < |items| :: l.calls[i].plaintext == e.encode(items[i].msg)
  }

  lemma WriteCalled(e: Ends, l: Link, timer: bool, ok: bool, leaks: bool, start: S.Sender, h: Link)
    requires Called(e, l, start) && l.mux.inflight.Some? && l.mux.lost == [] && l.sender.interval >= 1
    requires h == WriteStep(e, l, timer, ok, leaks)
    ensures Called(e, h, start)
  {
    var a := Attempt(e, l, timer, ok);
    assert h.calls == l.calls + [a] && h.calls[..|l.calls|] == l.calls;
    assert h.sender == S.SendStep(l.sender, a).0;
    assert l.mux.sent + l.mux.lost == l.mux.sent;
    assert h.mux.sent + h.mux.lost == l.mux.sent + [l.mux.inflight.value];
  }

  lemma {:induction false} RunCalled(e: Ends, l: Link, run: Schedule)
    requires Initial(e, l) && Legal(e, l, run)
    ensures Called(e, Run(e, l, run), l.sender)
    decreases run
  {
    if run.After? {
      RunCalled(e, l, run.before);
      Refines(e, l, run.before);
      StepCalled(e, Run(e, l, run.before), run.step, l.sender, Run(e, l, run));
    }
  }

  lemma StepCalled(e: Ends, l: Link, step: Step, start: S.Sender, h: Link)
    requires Linked(e, l) && Called(e, l, start) && Enabled(e, l, step) && h == Apply(e, l, step)
    ensures Called(e, h, start)
  {
    if step.Write? {
      WriteCalled(e, l, step.timer, step.ok, step.leaks, start, h);
    } else {
      NotCalled(e, l, step, h);
      StaysCalled(e, l, start, h);
    }
  }

  lemma NotCalled(e: Ends, l: Link, step: Step, h: Link)
    requires e.u.size >= 1 && Enabled(e, l, step) && !step.Write? && h == Apply(e, l, step)
    ensures h.mux.sent == l.mux.sent && h.mux.lost == l.mux.lost && h.calls == l.calls && h.sender == l.sender
  {
  }

  lemma StaysCalled(e: Ends, l: Link, start: S.Sender, h: Link)
    requires Called(e, l, start)
    requires h.mux.sent == l.mux.sent && h.mux.lost == l.mux.lost && h.calls == l.calls && h.sender == l.sender
    ensures Called(e, h, start)
  {
  }

  // --- one nonce, one text --------------------------------------------------------------

  /** Every send but the one that lost its message completed. */
  ghost predicate Completed(l: Link, start: S.Sender) {
    && start.interval >= 1 && |l.mux.sent| <= |l.calls| <= |l.mux.sent| + 1
    && forall i | 0 <= i < |l.mux.sent| :: S.OutcomeAt(start, l.calls, i).Sent?
  }

  lemma OneMoreCall(start: S.Sender, calls: seq<S.Attempt>, a: S.Attempt)
    requires start.interval >= 1
    ensures forall i | 0 <= i < |calls| :: S.OutcomeAt(start, calls + [a], i) == S.OutcomeAt(start, calls, i)
    ensures S.OutcomeAt(start, calls + [a], |calls|) == S.SendStep(S.After(start, calls), a).1
  {
    var all := calls + [a];
    assert all[..|calls|] == calls;
    forall i | 0 <= i < |calls| ensures S.OutcomeAt(start, all, i) == S.OutcomeAt(start, calls, i) {
      assert all[..i] == calls[..i];
    }
  }

  lemma WriteCompleted(e: Ends, l: Link, timer: bool, ok: bool, leaks: bool, start: S.Sender, h: Link)
    requires Completed(l, start) && Called(e, l, start) && l.mux.inflight.Some? && l.mux.lost == []
    requires l.sender.interval >= 1 && h == WriteStep(e, l, timer, ok, leaks)
    ensures Completed(h, start)
  {
    var a := Attempt(e, l, timer, ok);
    assert |l.calls| == |l.mux.sent|;
    OneMoreCall(start, l.calls, a);
    assert h.calls == l.calls + [a];
  }

  lemma {:induction false} RunCompleted(e: Ends, l: Link, run: Schedule)
    requires Initial(e, l) && Legal(e, l, run)
    ensures Completed(Run(e, l, run), l.sender)
    decreases run
  {
    if run.After? {
      RunCompleted(e, l, run.before);
      RunCalled(e, l, run.before);
      Refines(e, l, run.before);
      StepCompleted(e, Run(e, l, run.before), run.step, l.sender, Run(e, l, run));
    }
  }

  lemma StepCompleted(e: Ends, l: Link, step: Step, start: S.Sender, h: Link)
    requires Linked(e, l) && Called(e, l, start) && Completed(l, start) && Enabled(e, l, step) && h == Apply(e, l, step)
    ensures Completed(h, start)
  {
    if step.Write? {
      WriteCompleted(e, l, step.timer, step.ok, step.leaks, start, h);
    } else {
      NotCalled(e, l, step, h);
    }
  }

  /** The writer stops at the first write that fails.  So in every run all sends but the last
      completed, and any two that encrypt, the failed one included, do so under different
      (key, nonce) pairs. */
  lemma NoncesDiffer(e: Ends, l: Link, run: Schedule, i: nat, j: nat)
    requires Initial(e, l) && Legal(e, l, run) && i < j < |Run(e, l, run).calls|
    ensures var calls := Run(e, l, run).calls;
            var a, b := S.OutcomeAt(l.sender, calls, i), S.OutcomeAt(l.sender, calls, j);
            && a.Sent?
            && (!b.Overflow? ==> (a.frame.body.key, a.frame.body.nonce) != (b.frame.body.key, b.frame.body.nonce))
  {
    RunCompleted(e, l, run);
    var calls := Run(e, l, run).calls;
    if !S.OutcomeAt(l.sender, calls, j).Overflow? {
      S.NonceReuseExactly(l.sender, calls, i, j);
      assert S.Moved(l.sender, calls, i);
    }
  }

  /** The channel never fails, and what the coordinator handles is exactly a beginning of what
      the mux sent, however frames are repeated and whenever the rekey timer fires. */
  lemma ChannelCarriesMux(e: Ends, l: Link, run: Schedule)
    requires Initial(e, l) && Legal(e, l, run)
    ensures var m := Run(e, l, run);
            && m.receiver.live
            && Heard(m.heard, m.mux.sent + (if m.leaked then m.mux.lost else []), m.arrived)
  {
    Refines(e, l, run);
    var m := Run(e, l, run);
    assert m.mux.sent + [] == m.mux.sent;
  }

  /** From payload to payload: a transfer hands over nothing, or exactly its own payload once,
      with its durability and key. */
  lemma PayloadsExact(e: Ends, l: Link, run: Schedule, id: string)
    requires Initial(e, l) && Legal(e, l, run) && id in e.u.plan
    ensures var m := Run(e, l, run);
            && m.receiver.live
            && (|| N.Commits(m.coord.effects, id) == []
                || N.Commits(m.coord.effects, id) == [N.Expected(e.u.plan[id])])
  {
    Refines(e, l, run);
    N.TransfersExact(e.u, Abs(l), ShadowRun(e, l, run), id);
  }

  /** Of the messages heard, how many belong to a stream. */
  ghost function HeardOn(l: Link, stream: int): nat
    requires l.arrived <= |Mux(l).sent|
  {
    |X.OfStream(Mux(l).sent[..l.arrived], stream)|
  }

  /** And it hands it over exactly when its buffer was opened and kept until its last message
      was heard, and somebody still wanted it. */
  lemma PayloadsHandedOver(e: Ends, l: Link, run: Schedule, id: string)
    requires Initial(e, l) && Legal(e, l, run) && id in e.u.plan
    requires var m := Run(e, l, run);
             m.arrived <= |Mux(m).sent| && HeardOn(m, e.u.plan[id].stream) == |N.ScriptOf(e.u, id)|
    ensures N.Legal(e.u, Abs(l), ShadowRun(e, l, run))
    ensures N.Commits(Run(e, l, run).coord.effects, id) == [N.Expected(e.u.plan[id])] <==>
            N.Kept(e.u, Abs(l), ShadowRun(e, l, run), id) && N.Wanted(e.u, Abs(l), ShadowRun(e, l, run), id)
  {
    Refines(e, l, run);
    N.HandsOverExactly(e.u, Abs(l), ShadowRun(e, l, run), id);
  }
}
