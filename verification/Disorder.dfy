/** How far a network gets that only drops and reorders frames: which orders a receiver takes,
    and that every selection of chunks it takes is what a push hands over. */
module Disorder {
  import opened Common
  import opened Config
  import opened Messages
  import opened Chunking
  import opened Epochs
  import opened KeySchedule
  import opened Frames
  import opened ReplayWindows
  import S = Senders
  import R = Receivers
  import T = ChannelTheorems
  import X = Muxes
  import C = Replication
  import N = Network
  import E = EndToEnd
  import L = Selections
  import I = Interference

  // --- the sending side -----------------------------------------------------------------

  function CallFor(e: E.Ends, msg: Message): S.Attempt {
    S.Attempt(e.encode(msg), false, true)
  }

  function Calls(e: E.Ends, sc: seq<Message>, k: nat): (r: seq<S.Attempt>)
    requires k <= |sc|
    ensures |r| == k && forall i | 0 <= i < k :: r[i] == CallFor(e, sc[i])
  {
    if k == 0 then [] else Calls(e, sc, k - 1) + [CallFor(e, sc[k - 1])]
  }

  /** The first k messages of a script are queued, picked and written one by one. */
  ghost function SendRun(id: string, k: nat): E.Schedule {
    if k == 0 then E.Start
    else E.After(E.After(E.After(SendRun(id, k - 1), E.Produce(id)), E.Pick), E.Write(false, true, false))
  }

  /** A sender that has used the first k numbers, without a timer. */
  function At(start: S.Sender, k: nat): S.Sender
    requires start.interval >= 1
  {
    var e := if k == 0 then 0 else Epoch(k - 1, start.interval);
    S.Sender(start.side, start.interval, k, e, ChainKey(start.side, e))
  }

  ghost predicate Sending(e: E.Ends, l: E.Link, start: S.Sender, id: string, sc: seq<Message>, k: nat)
    requires k <= |sc| && start.interval >= 1
  {
    X.Quiet(l.mux) && id in l.progress && l.progress[id] == k && l.sender == At(start, k) && l.calls == Calls(e, sc, k)
  }

  /** Each message fits a frame. */
  ghost predicate AllFit(e: E.Ends, sc: seq<Message>) {
    forall k | 0 <= k < |sc| :: E.Fitting(e.encode(sc[k]))
  }

  /** And there are enough numbers for all. */
  ghost predicate Sendable(e: E.Ends, start: S.Sender, sc: seq<Message>) {
    start.interval >= 1 && start == S.Start(start.side, start.interval) && |sc| <= MAX_SEQ && AllFit(e, sc)
  }

  lemma {:induction false} PiecesCount(data: Bytes, size: nat)
    requires size >= 1
    ensures |Pieces(data, size)| <= |data|
    decreases |data|
  {
    if |data| > size { PiecesCount(data[size..], size); }
  }

  /** The frame of message k. */
  function FrameFor(e: E.Ends, side: Side, interval: nat, sc: seq<Message>, k: nat): Frame
    requires interval >= 1 && k < |sc|
  {
    Seal(ChainKey(side, Epoch(k, interval)), k, e.encode(sc[k]))
  }

  lemma SendsFrame(e: E.Ends, start: S.Sender, sc: seq<Message>, k: nat)
    requires Sendable(e, start, sc) && k < |sc|
    ensures S.SendStep(At(start, k), CallFor(e, sc[k])) ==
            (At(start, k + 1), S.Sent(FrameFor(e, start.side, start.interval, sc, k)))
  {
    var was := At(start, k).epoch;
    if k > 0 { EpochMono(k - 1, k, start.interval); }
    EpochIs(0, start.interval, 0);
    AdvanceFollowsChain(start.side, was, Epoch(k, start.interval));
  }

  /** The message is queued and picked. */
  ghost function PickedUp(e: E.Ends, l: E.Link, id: string, k: nat): E.Link
    requires e.u.size >= 1 && id in e.u.plan && k < |N.ScriptOf(e.u, id)| && X.Quiet(l.mux)
  {
    l.(mux := X.TakeStep(X.EnqueueStep(l.mux, e.u.plan[id].stream, N.ScriptOf(e.u, id)[k])),
       progress := l.progress[id := k + 1])
  }

  lemma SendsOne(e: E.Ends, l: E.Link, start: S.Sender, id: string, k: nat)
    requires e.u.size >= 1 && id in e.u.plan && k < |N.ScriptOf(e.u, id)|
    requires Sendable(e, start, N.ScriptOf(e.u, id)) && Sending(e, l, start, id, N.ScriptOf(e.u, id), k)
    ensures E.Enabled(e, PickedUp(e, l, id, k), E.Write(false, true, false))
    ensures Sending(e, E.Apply(e, PickedUp(e, l, id, k), E.Write(false, true, false)), start, id,
                    N.ScriptOf(e.u, id), k + 1)
  {
    var sc, b := N.ScriptOf(e.u, id), PickedUp(e, l, id, k);
    X.SoloTurn(l.mux, e.u.plan[id].stream, sc[k]);
    SendsFrame(e, start, sc, k);
    assert E.Attempt(e, b, false, true) == CallFor(e, sc[k]);
  }

  lemma OneMoreStep(e: E.Ends, l: E.Link, run: E.Schedule, step: E.Step)
    requires e.u.size >= 1 && E.Legal(e, l, run) && E.Enabled(e, E.Run(e, l, run), step)
    ensures E.Legal(e, l, E.After(run, step)) && E.Run(e, l, E.After(run, step)) == E.Apply(e, E.Run(e, l, run), step)
  {
  }

  lemma PicksUp(e: E.Ends, l: E.Link, run: E.Schedule, start: S.Sender, id: string, k: nat)
    requires e.u.size >= 1 && id in e.u.plan && k < |N.ScriptOf(e.u, id)| && E.Legal(e, l, run) && start.interval >= 1
    requires Sending(e, E.Run(e, l, run), start, id, N.ScriptOf(e.u, id), k)
    ensures var picked := E.After(E.After(run, E.Produce(id)), E.Pick);
            E.Legal(e, l, picked) && E.Run(e, l, picked) == PickedUp(e, E.Run(e, l, run), id, k)
  {
    var m := E.Run(e, l, run);
    X.SoloTurn(m.mux, e.u.plan[id].stream, N.ScriptOf(e.u, id)[k]);
    OneMoreStep(e, l, run, E.Produce(id));
    OneMoreStep(e, l, E.After(run, E.Produce(id)), E.Pick);
  }

  lemma SendsNext(e: E.Ends, l: E.Link, run: E.Schedule, start: S.Sender, id: string, k: nat)
    requires e.u.size >= 1 && id in e.u.plan && k < |N.ScriptOf(e.u, id)| && E.Legal(e, l, run)
    requires Sendable(e, start, N.ScriptOf(e.u, id))
    requires Sending(e, E.Run(e, l, run), start, id, N.ScriptOf(e.u, id), k)
    ensures var sent := E.After(E.After(E.After(run, E.Produce(id)), E.Pick), E.Write(false, true, false));
            E.Legal(e, l, sent) && Sending(e, E.Run(e, l, sent), start, id, N.ScriptOf(e.u, id), k + 1)
  {
    PicksUp(e, l, run, start, id, k);
    SendsOne(e, E.Run(e, l, run), start, id, k);
    OneMoreStep(e, l, E.After(E.After(run, E.Produce(id)), E.Pick), E.Write(false, true, false));
  }

  lemma SendsNone(e: E.Ends, l: E.Link, id: string)
    requires E.Initial(e, l) && id in e.u.plan && l.mux.capacity >= 1 && Sendable(e, l.sender, N.ScriptOf(e.u, id))
    ensures Sending(e, l, l.sender, id, N.ScriptOf(e.u, id), 0)
  {
  }

  lemma {:induction false} SendsAll(e: E.Ends, l: E.Link, id: string, k: nat)
    requires E.Initial(e, l) && id in e.u.plan && k <= |N.ScriptOf(e.u, id)| && l.mux.capacity >= 1
    requires Sendable(e, l.sender, N.ScriptOf(e.u, id))
    ensures E.Legal(e, l, SendRun(id, k))
    ensures Sending(e, E.Run(e, l, SendRun(id, k)), l.sender, id, N.ScriptOf(e.u, id), k)
    decreases k
  {
    if k == 0 {
      SendsNone(e, l, id);
    } else {
      SendsAll(e, l, id, k - 1);
      SendsNext(e, l, SendRun(id, k - 1), l.sender, id, k - 1);
    }
  }

  lemma CallsAt(e: E.Ends, l: E.Link, id: string, k: nat)
    requires E.Initial(e, l) && id in e.u.plan && k <= |N.ScriptOf(e.u, id)| && l.mux.capacity >= 1
    requires Sendable(e, l.sender, N.ScriptOf(e.u, id))
    ensures S.After(l.sender, Calls(e, N.ScriptOf(e.u, id), k)) == At(l.sender, k)
  {
    SendsAll(e, l, id, k);
    E.RunCalled(e, l, SendRun(id, k));
  }

  lemma FrameMade(e: E.Ends, start: S.Sender, sc: seq<Message>, k: nat)
    requires Sendable(e, start, sc) && k < |sc| && S.After(start, Calls(e, sc, k)) == At(start, k)
    ensures T.MadeAt(start, Calls(e, sc, |sc|), k, FrameFor(e, start.side, start.interval, sc, k).body)
  {
    var calls := Calls(e, sc, |sc|);
    assert calls[..k] == Calls(e, sc, k);
    SendsFrame(e, start, sc, k);
  }

  // --- the receiving side ---------------------------------------------------------------

  function Highest(order: seq<nat>): int {
    if order == [] then -1
    else
      var n := |order| - 1;
      if order[n] > Highest(order[..n]) then order[n] else Highest(order[..n])
  }

  /** A receiver that has taken the numbers of `order` takes q: it is new and above the window's
      lower end, its epoch is not over, and the jump to it is not too far. */
  ghost predicate LetsIn(order: seq<nat>, q: nat, interval: nat, maxSkip: int, size: nat)
    requires interval >= 1
  {
    var h := Highest(order);
    var epoch := if h < 0 then 0 else Epoch(h, interval);
    q !in order && (h < 0 || q > h - size) && epoch <= Epoch(q, interval) <= epoch + maxSkip
  }

  ghost predicate Passes(order: seq<nat>, interval: nat, maxSkip: int, size: nat)
    requires interval >= 1
  {
    order != [] ==>
      var n := |order| - 1;
      Passes(order[..n], interval, maxSkip, size) && LetsIn(order[..n], order[n], interval, maxSkip, size)
  }

  /** The receiver `base` once it has taken the numbers of `order`. */
  ghost predicate Took(r: R.Receiver, base: R.Receiver, order: seq<nat>) {
    && R.ReceiverInv(r) && r.live
    && r == base.(window := r.window, epoch := r.epoch, key := r.key) && r.window.size == base.window.size
    && r.window.highest == Highest(order) && forall q :: q in r.window.accepted <==> q in order
  }

  lemma TakesNext(r: R.Receiver, base: R.Receiver, order: seq<nat>, q: nat, text: Bytes)
    requires Took(r, base, order) && q <= MAX_SEQ
    ensures var (s, out) := R.RecvStep(r, Seal(ChainKey(base.peer, Epoch(q, base.interval)), q, text));
            if LetsIn(order, q, base.interval, base.maxSkip, base.window.size)
            then out == R.Delivered(text) && Took(s, base, order + [q])
            else !out.Delivered?
  {
    var f := Seal(ChainKey(base.peer, Epoch(q, base.interval)), q, text);
    R.StepInv(r, f);
    assert Fresh(r.window, q) <==> q !in order && (Highest(order) < 0 || q > Highest(order) - r.window.size);
    if r.epoch <= Epoch(q, r.interval) { AdvanceFollowsChain(r.peer, r.epoch, Epoch(q, r.interval)); }
    assert (order + [q])[..|order|] == order;
  }

  /** The messages with the numbers of `order` arrive. */
  function Arriving(e: E.Ends, side: Side, interval: nat, sc: seq<Message>, order: seq<nat>, env: C.Env): I.Feed
    requires interval >= 1 && forall i | 0 <= i < |order| :: order[i] < |sc|
    decreases |order|
  {
    if order == [] then I.Quiet
    else
      var n := |order| - 1;
      I.Comes(Arriving(e, side, interval, sc, order[..n], env), FrameFor(e, side, interval, sc, order[n]), env)
  }

  ghost predicate AllDelivered(r: R.Receiver, frames: seq<Frame>)
    requires r.interval >= 1
  {
    forall i | 0 <= i < |frames| :: R.OutcomeAt(r, frames, i).Delivered?
  }

  lemma DeliveredSnoc(r: R.Receiver, front: seq<Frame>, f: Frame)
    requires r.interval >= 1
    ensures AllDelivered(r, front + [f]) <==>
            AllDelivered(r, front) && R.RecvStep(R.After(r, front), f).1.Delivered?
    ensures R.After(r, front + [f]) == R.RecvStep(R.After(r, front), f).0
  {
    var all := front + [f];
    assert all[..|front|] == front;
    forall i | 0 <= i < |front| ensures R.OutcomeAt(r, all, i) == R.OutcomeAt(r, front, i) {
      assert all[..i] == front[..i];
    }
    assert R.OutcomeAt(r, all, |front|) == R.RecvStep(R.After(r, front), f).1;
  }

  /** The receiver delivers all of the frames exactly when their numbers pass. */
  ghost predicate Judges(base: R.Receiver, frames: seq<Frame>, order: seq<nat>)
    requires base.interval >= 1
  {
    && (AllDelivered(base, frames) <==> Passes(order, base.interval, base.maxSkip, base.window.size))
    && (AllDelivered(base, frames) ==> Took(R.After(base, frames), base, order))
  }

  lemma JudgesNext(base: R.Receiver, frames: seq<Frame>, front: seq<nat>, q: nat, text: Bytes)
    requires base.interval >= 1 && q <= MAX_SEQ && Judges(base, frames, front)
    ensures Judges(base, frames + [Seal(ChainKey(base.peer, Epoch(q, base.interval)), q, text)], front + [q])
  {
    DeliveredSnoc(base, frames, Seal(ChainKey(base.peer, Epoch(q, base.interval)), q, text));
    if AllDelivered(base, frames) { TakesNext(R.After(base, frames), base, front, q, text); }
    assert (front + [q])[..|front|] == front;
  }

  /** So does a fresh one for any messages of a script. */
  lemma {:induction false} PassesExactly(e: E.Ends, base: R.Receiver, sc: seq<Message>, order: seq<nat>, env: C.Env)
    requires base.interval >= 1 && base.window.size >= 1 && |sc| <= MAX_SEQ
    requires base == R.Start(base.peer, base.interval, base.maxSkip, base.window.size)
    requires forall i | 0 <= i < |order| :: order[i] < |sc|
    ensures Judges(base, I.FramesOf(Arriving(e, base.peer, base.interval, sc, order, env)), order)
    decreases |order|
  {
    if order != [] {
      var n := |order| - 1;
      PassesExactly(e, base, sc, order[..n], env);
      JudgesNext(base, I.FramesOf(Arriving(e, base.peer, base.interval, sc, order[..n], env)), order[..n], order[n],
                 e.encode(sc[order[n]]));
      assert order == order[..n] + [order[n]];
    }
  }

  /** The coordinator receives the messages of `order`. */
  ghost function Received(peer: string, env: C.Env, sc: seq<Message>, order: seq<nat>): C.History
    requires forall i | 0 <= i < |order| :: order[i] < |sc|
    decreases |order|
  {
    if order == [] then C.Nothing
    else
      var n := |order| - 1;
      C.After(Received(peer, env, sc, order[..n]), C.Receive(peer, sc[order[n]], env))
  }

  lemma DeliversText(r: R.Receiver, key: Key, q: nat, text: Bytes)
    requires r.interval >= 1 && R.RecvStep(r, Seal(key, q, text)).1.Delivered?
    ensures R.RecvStep(r, Seal(key, q, text)).1 == R.Delivered(text)
  {
  }

  lemma HearsLast(e: E.Ends, base: R.Receiver, before: I.Feed, f: Frame, key: Key, q: nat, msg: Message, env: C.Env)
    requires base.interval >= 1 && f == Seal(key, q, e.encode(msg)) && E.EndsOk(e)
    requires AllDelivered(base, I.FramesOf(I.Comes(before, f, env)))
    ensures AllDelivered(base, I.FramesOf(before))
    ensures I.HistoryOf(I.Comes(before, f, env), base, e.u.peer, e.decode) ==
            C.After(I.HistoryOf(before, base, e.u.peer, e.decode), C.Receive(e.u.peer, msg, env))
  {
    DeliveredSnoc(base, I.FramesOf(before), f);
    DeliversText(R.After(base, I.FramesOf(before)), key, q, e.encode(msg));
    assert e.decode(e.encode(msg)) == Some(msg);
  }

  /** What is delivered is handled, in the order of arrival. */
  lemma {:induction false} HearsAll(e: E.Ends, base: R.Receiver, sc: seq<Message>, order: seq<nat>, env: C.Env)
    requires E.EndsOk(e) && base.interval >= 1 && forall i | 0 <= i < |order| :: order[i] < |sc|
    requires AllDelivered(base, I.FramesOf(Arriving(e, base.peer, base.interval, sc, order, env)))
    ensures I.HistoryOf(Arriving(e, base.peer, base.interval, sc, order, env), base, e.u.peer, e.decode) ==
            Received(e.u.peer, env, sc, order)
    decreases |order|
  {
    if order != [] {
      var n := |order| - 1;
      var msg := sc[order[n]];
      HearsLast(e, base, Arriving(e, base.peer, base.interval, sc, order[..n], env),
                FrameFor(e, base.peer, base.interval, sc, order[n]),
                ChainKey(base.peer, Epoch(order[n], base.interval)), order[n], msg, env);
      HearsAll(e, base, sc, order[..n], env);
    }
  }

  lemma ReceivedMore(peer: string, env: C.Env, sc: seq<Message>, order: seq<nat>, q: nat, c: C.Coord)
    requires q < |sc| && forall i | 0 <= i < |order| :: order[i] < |sc|
    ensures C.Run(c, Received(peer, env, sc, order + [q])) ==
            C.Apply(C.Run(c, Received(peer, env, sc, order)), C.Receive(peer, sc[q], env))
  {
    assert (order + [q])[..|order|] == order;
  }

  lemma {:induction false} BeginningReceived(threshold: int, peer: string, env: C.Env, sc: seq<Message>,
                                             picks: seq<nat>)
    requires sc != [] && forall i | 0 <= i < |picks| :: picks[i] < |sc|
    ensures C.Run(C.Start(threshold), Received(peer, env, sc, [0] + picks)) ==
            L.Beginning(threshold, peer, env, sc, picks)
    decreases |picks|
  {
    if picks == [] {
      assert [0] + picks == [] + [0];
      ReceivedMore(peer, env, sc, [], 0, C.Start(threshold));
    } else {
      var n := |picks| - 1;
      assert [0] + picks == ([0] + picks[..n]) + [picks[n]];
      ReceivedMore(peer, env, sc, [0] + picks[..n], picks[n], C.Start(threshold));
      BeginningReceived(threshold, peer, env, sc, picks[..n]);
    }
  }

  lemma {:induction false} OnlyFrames(e: E.Ends, side: Side, interval: nat, sc: seq<Message>, order: seq<nat>,
                                      env: C.Env, f: Frame)
    requires interval >= 1 && forall i | 0 <= i < |order| :: order[i] < |sc|
    requires f in I.FramesOf(Arriving(e, side, interval, sc, order, env))
    ensures exists k :: 0 <= k < |sc| && f == FrameFor(e, side, interval, sc, k)
    decreases |order|
  {
    if order != [] {
      var n := |order| - 1;
      if f != FrameFor(e, side, interval, sc, order[n]) { OnlyFrames(e, side, interval, sc, order[..n], env, f); }
    }
  }

  // --- together -------------------------------------------------------------------------

  /** A push of a transfer of which every message fits a frame. */
  ghost predicate Pushable(e: E.Ends, l: E.Link, id: string) {
    && E.Initial(e, l) && l.mux.capacity >= 1 && id in e.u.plan
    && e.u.plan[id].kind.Push? && |e.u.plan[id].payload| <= MAX_BLOCK_SIZE && AllFit(e, N.ScriptOf(e.u, id))
  }

  lemma PushSendable(e: E.Ends, l: E.Link, id: string)
    requires Pushable(e, l, id)
    ensures Sendable(e, l.sender, N.ScriptOf(e.u, id))
  {
    PiecesCount(e.u.plan[id].payload, e.u.size);
  }

  /** Whichever chunks a network lets through before the final one, in whichever order a receiver
      takes them, are what a push hands over.  So a push hands over a wrong block exactly for
      the selections that are not in place. */
  lemma SelectionGetsThrough(e: E.Ends, l: E.Link, id: string, picks: seq<nat>, maxSkip: int, windowSize: nat,
                             threshold: int, env: C.Env, self: S.Sender, selfHistory: seq<S.Attempt>)
    returns (run: E.Schedule, feed: I.Feed)
    requires Pushable(e, l, id) && self.interval >= 1 && windowSize >= 1 && L.Selection(picks, N.ScriptOf(e.u, id))
    requires Passes([0] + picks, l.sender.interval, maxSkip, windowSize)
    ensures E.Legal(e, l, run) && I.Apart(feed, id)
    ensures T.Possible(I.FramesOf(feed), l.sender, E.Run(e, l, run).calls, self, selfHistory)
    ensures HandsOver(e, l, id, maxSkip, windowSize, threshold, feed, C.Join(L.PartsAt(N.ScriptOf(e.u, id), picks)))
    ensures C.Join(L.PartsAt(N.ScriptOf(e.u, id), picks)) == e.u.plan[id].payload <==>
            L.InPlace(picks, N.ScriptOf(e.u, id))
  {
    var sc, t, side, interval := N.ScriptOf(e.u, id), e.u.plan[id], l.sender.side, l.sender.interval;
    var r := R.Start(side, interval, maxSkip, windowSize);
    PushSendable(e, l, id);
    run := SendRun(id, |sc|);
    feed := Arriving(e, side, interval, sc, [0] + picks, env);
    SendsAll(e, l, id, |sc|);
    ArePossible(e, l, id, [0] + picks, env, self, selfHistory);
    StaysApart(e, side, interval, sc, [0] + picks, env, id);
    PassesExactly(e, r, sc, [0] + picks, env);
    HearsAll(e, r, sc, [0] + picks, env);
    BeginningReceived(threshold, e.u.peer, env, sc, picks);
    L.SelectionCommits(threshold, e.u.peer, env, id, t, e.u.size, picks);
    L.SelectionExactly(id, t, e.u.size, picks);
  }

  /** A selection that passes and is not in place makes a wrong block. */
  lemma WrongBlock(e: E.Ends, l: E.Link, id: string, picks: seq<nat>, maxSkip: int, windowSize: nat,
                   threshold: int, env: C.Env, self: S.Sender, selfHistory: seq<S.Attempt>)
    returns (run: E.Schedule, feed: I.Feed, data: Bytes)
    requires Pushable(e, l, id) && self.interval >= 1 && windowSize >= 1 && L.Selection(picks, N.ScriptOf(e.u, id))
    requires Passes([0] + picks, l.sender.interval, maxSkip, windowSize) && !L.InPlace(picks, N.ScriptOf(e.u, id))
    ensures E.Legal(e, l, run)
    ensures T.Possible(I.FramesOf(feed), l.sender, E.Run(e, l, run).calls, self, selfHistory)
    ensures HandsOver(e, l, id, maxSkip, windowSize, threshold, feed, data) && data != e.u.plan[id].payload
  {
    data := C.Join(L.PartsAt(N.ScriptOf(e.u, id), picks));
    run, feed := SelectionGetsThrough(e, l, id, picks, maxSkip, windowSize, threshold, env, self, selfHistory);
  }

  /** What a fresh receiver and a fresh coordinator make of a feed is one handover of `data`. */
  ghost predicate HandsOver(e: E.Ends, l: E.Link, id: string, maxSkip: int, windowSize: nat, threshold: int,
                            feed: I.Feed, data: Bytes)
    requires id in e.u.plan && l.sender.interval >= 1
  {
    var r := R.Start(l.sender.side, l.sender.interval, maxSkip, windowSize);
    var h := I.HistoryOf(feed, r, e.u.peer, e.decode);
    N.Commits(C.Run(C.Start(threshold), h).effects, id) == [N.Expected(L.Instead(e.u.plan[id], data))]
  }

  lemma ArePossible(e: E.Ends, l: E.Link, id: string, order: seq<nat>, env: C.Env, self: S.Sender,
                    selfHistory: seq<S.Attempt>)
    requires E.Initial(e, l) && l.mux.capacity >= 1 && id in e.u.plan && self.interval >= 1
    requires Sendable(e, l.sender, N.ScriptOf(e.u, id))
    requires forall i | 0 <= i < |order| :: order[i] < |N.ScriptOf(e.u, id)|
    ensures var sc := N.ScriptOf(e.u, id);
            T.Possible(I.FramesOf(Arriving(e, l.sender.side, l.sender.interval, sc, order, env)), l.sender,
                       Calls(e, sc, |sc|), self, selfHistory)
  {
    var sc, side, interval := N.ScriptOf(e.u, id), l.sender.side, l.sender.interval;
    var calls, frames := Calls(e, sc, |sc|), I.FramesOf(Arriving(e, side, interval, sc, order, env));
    forall f <- frames ensures f.Frame? && exists k :: T.MadeAt(l.sender, calls, k, f.body) {
      OnlyFrames(e, side, interval, sc, order, env, f);
      var k :| 0 <= k < |sc| && f == FrameFor(e, side, interval, sc, k);
      CallsAt(e, l, id, k);
      FrameMade(e, l.sender, sc, k);
    }
  }

  lemma {:induction false} StaysApart(e: E.Ends, side: Side, interval: nat, sc: seq<Message>, order: seq<nat>,
                                      env: C.Env, id: string)
    requires interval >= 1 && forall i | 0 <= i < |order| :: order[i] < |sc|
    ensures I.Apart(Arriving(e, side, interval, sc, order, env), id)
    decreases |order|
  {
    if order != [] { StaysApart(e, side, interval, sc, order[..|order| - 1], env, id); }
  }

  // --- a lost chunk ---------------------------------------------------------------------

  /** All chunks of a script with n of them but the k-th, in order. */
  function Without(n: nat, k: nat): seq<nat>
    requires 1 <= k < n
  {
    seq(n - 1, i => if i + 1 < k then i + 1 else i + 2)
  }

  /** A selection with a chunk missing is never in place. */
  lemma LostNotInPlace(sc: seq<Message>, k: nat)
    requires 1 <= k < |sc| - 1
    ensures L.Selection(Without(|sc| - 1, k), sc) && !L.InPlace(Without(|sc| - 1, k), sc)
  {
  }

  ghost predicate Growing(order: seq<nat>) {
    forall i, j | 0 <= i < j < |order| :: order[i] < order[j]
  }

  /** The jump to the number at place i is not too far. */
  ghost predicate JumpWithin(order: seq<nat>, i: nat, interval: nat, maxSkip: int)
    requires interval >= 1 && i < |order|
  {
    Epoch(order[i], interval) <= maxSkip + if i == 0 then 0 else Epoch(order[i - 1], interval)
  }

  ghost predicate JumpsWithin(order: seq<nat>, interval: nat, maxSkip: int)
    requires interval >= 1
  {
    forall i | 0 <= i < |order| :: JumpWithin(order, i, interval, maxSkip)
  }

  /** Growing numbers pass exactly when no jump is too far. */
  lemma {:induction false} GrowingPasses(order: seq<nat>, interval: nat, maxSkip: int, size: nat)
    requires interval >= 1 && size >= 1 && Growing(order)
    ensures Highest(order) == if order == [] then -1 else order[|order| - 1]
    ensures Passes(order, interval, maxSkip, size) <==> JumpsWithin(order, interval, maxSkip)
    decreases |order|
  {
    if order != [] {
      var n := |order| - 1;
      GrowingPasses(order[..n], interval, maxSkip, size);
      if n > 0 { EpochMono(order[n - 1], order[n], interval); }
      JumpsSnoc(order, interval, maxSkip);
    }
  }

  lemma JumpsSnoc(order: seq<nat>, interval: nat, maxSkip: int)
    requires interval >= 1 && order != []
    ensures var n := |order| - 1;
            JumpsWithin(order, interval, maxSkip) <==>
            JumpsWithin(order[..n], interval, maxSkip) && JumpWithin(order, n, interval, maxSkip)
  {
    var n := |order| - 1;
    assert forall i | 0 <= i < n ::
        JumpWithin(order[..n], i, interval, maxSkip) == JumpWithin(order, i, interval, maxSkip);
  }

  lemma NextEpoch(k: nat, interval: nat)
    requires interval >= 1
    ensures Epoch(k + 1, interval) <= Epoch(k, interval) + 1
  {
    var e := Epoch(k, interval);
    EpochBounds(k, interval);
    assert (e + 2) * interval == (e + 1) * interval + interval;
    if k + 1 < (e + 1) * interval { EpochIs(k + 1, interval, e); } else { EpochIs(k + 1, interval, e + 1); }
  }

  /** A receiver that tolerates a jump of one epoch takes the chunks around a lost one exactly
      when it tolerates the jump over that one. */
  lemma LostPasses(n: nat, k: nat, interval: nat, maxSkip: int, size: nat)
    requires 1 <= k < n && interval >= 1 && maxSkip >= 1 && size >= 1
    ensures Passes([0] + Without(n, k), interval, maxSkip, size) <==>
            Epoch(k + 1, interval) - Epoch(k - 1, interval) <= maxSkip
  {
    var order := [0] + Without(n, k);
    assert Skips(order, k);
    GrowingPasses(order, interval, maxSkip, size);
    SkipsJump(order, k, interval, maxSkip);
  }

  /** The numbers from 0 on without k. */
  ghost predicate Skips(order: seq<nat>, k: nat) {
    k < |order| && forall i | 0 <= i < |order| :: order[i] == if i < k then i else i + 1
  }

  lemma SkipsJump(order: seq<nat>, k: nat, interval: nat, maxSkip: int)
    requires interval >= 1 && maxSkip >= 1 && k >= 1 && Skips(order, k)
    ensures JumpsWithin(order, interval, maxSkip) <==> Epoch(k + 1, interval) - Epoch(k - 1, interval) <= maxSkip
  {
    EpochIs(0, interval, 0);
    forall i | 0 <= i < |order| && i != k ensures JumpWithin(order, i, interval, maxSkip) {
      if i > 0 { NextEpoch(order[i - 1], interval); }
    }
    assert JumpWithin(order, k, interval, maxSkip) <==> Epoch(k + 1, interval) <= maxSkip + Epoch(k - 1, interval);
  }

  /** A push of which one chunk is lost on the way is committed without it. */
  lemma LostChunkCommits(e: E.Ends, l: E.Link, id: string, k: nat, maxSkip: int, windowSize: nat,
                         threshold: int, env: C.Env, self: S.Sender, selfHistory: seq<S.Attempt>)
    returns (run: E.Schedule, feed: I.Feed, data: Bytes)
    requires Pushable(e, l, id) && self.interval >= 1 && windowSize >= 1 && maxSkip >= 1
    requires 1 <= k < |N.ScriptOf(e.u, id)| - 1
    requires Epoch(k + 1, l.sender.interval) - Epoch(k - 1, l.sender.interval) <= maxSkip
    ensures E.Legal(e, l, run)
    ensures T.Possible(I.FramesOf(feed), l.sender, E.Run(e, l, run).calls, self, selfHistory)
    ensures HandsOver(e, l, id, maxSkip, windowSize, threshold, feed, data) && data != e.u.plan[id].payload
  {
    var n := |N.ScriptOf(e.u, id)| - 1;
    LostNotInPlace(N.ScriptOf(e.u, id), k);
    LostPasses(n, k, l.sender.interval, maxSkip, windowSize);
    run, feed, data := WrongBlock(e, l, id, Without(n, k), maxSkip, windowSize, threshold, env, self, selfHistory);
  }

  // --- two chunks that change places ----------------------------------------------------

  /** All chunks in order, but the a-th and the b-th exchanged. */
  function Exchanged(n: nat, a: nat, b: nat): seq<nat>
    requires 1 <= a < b < n
  {
    seq(n, i => if i + 1 == a then b else if i + 1 == b then a else i + 1)
  }

  /** A selection with two chunks exchanged is in place only if their contents are equal. */
  lemma ExchangedInPlace(sc: seq<Message>, a: nat, b: nat)
    requires 1 <= a < b < |sc| - 1
    ensures L.Selection(Exchanged(|sc| - 1, a, b), sc)
    ensures L.InPlace(Exchanged(|sc| - 1, a, b), sc) <==> ChunkOf(sc[a]) == ChunkOf(sc[b])
  {
    var swapped := Exchanged(|sc| - 1, a, b);
    assert swapped[a - 1] == b && swapped[b - 1] == a;
  }

  /** The number at place i. */
  function Swap(a: nat, b: nat, i: nat): nat {
    if i == a then b else if i == b then a else i
  }

  ghost predicate Swapped(order: seq<nat>, a: nat, b: nat) {
    forall i | 0 <= i < |order| :: order[i] == Swap(a, b, i)
  }

  lemma {:induction false} SwappedHighest(order: seq<nat>, a: nat, b: nat)
    requires 1 <= a < b && Swapped(order, a, b)
    ensures Highest(order) == if a < |order| <= b then b else |order| - 1
    decreases |order|
  {
    if order != [] { SwappedHighest(order[..|order| - 1], a, b); }
  }

  /** What a receiver makes of the number at place p, when those before have been taken. */
  lemma SwappedLetsIn(front: seq<nat>, a: nat, b: nat, interval: nat, maxSkip: int, size: nat)
    requires 1 <= a < b && interval >= 1 && maxSkip >= 1 && size >= 1 && Swapped(front, a, b)
    requires Epoch(a, interval) == Epoch(b, interval) && b - a < size
    ensures LetsIn(front, Swap(a, b, |front|), interval, maxSkip, size)
  {
    var p := |front|;
    SwappedHighest(front, a, b);
    assert Swap(a, b, p) !in front;
    EpochIs(0, interval, 0);
    if p > 0 {
      NextEpoch(p - 1, interval);
      EpochMono(p - 1, p, interval);
    }
    if a <= p <= b {
      EpochMono(a, p, interval);
      EpochMono(p, b, interval);
    }
  }

  lemma {:induction false} SwappedPasses(order: seq<nat>, a: nat, b: nat, interval: nat, maxSkip: int, size: nat)
    requires 1 <= a < b && interval >= 1 && maxSkip >= 1 && size >= 1 && Swapped(order, a, b)
    requires Epoch(a, interval) == Epoch(b, interval) && b - a < size
    ensures Passes(order, interval, maxSkip, size)
    decreases |order|
  {
    if order != [] {
      var n := |order| - 1;
      SwappedPasses(order[..n], a, b, interval, maxSkip, size);
      SwappedLetsIn(order[..n], a, b, interval, maxSkip, size);
    }
  }

  /** Otherwise the a-th comes too late. */
  lemma SwappedBlocked(order: seq<nat>, a: nat, b: nat, interval: nat, maxSkip: int, size: nat)
    requires 1 <= a < b < |order| && interval >= 1 && Swapped(order, a, b)
    requires Epoch(a, interval) != Epoch(b, interval) || b - a >= size
    ensures !Passes(order, interval, maxSkip, size)
  {
    var front := order[..b];
    SwappedHighest(front, a, b);
    EpochMono(a, b, interval);
    assert !LetsIn(front, a, interval, maxSkip, size);
    assert order[..b + 1][..b] == front && order[..b + 1][b] == a;
    if Passes(order, interval, maxSkip, size) { PassesUpTo(order, b + 1, interval, maxSkip, size); }
  }

  /** Two chunks that change places pass exactly when they are of one epoch and less than a
      window apart. */
  lemma ExchangedPasses(n: nat, a: nat, b: nat, interval: nat, maxSkip: int, size: nat)
    requires 1 <= a < b < n && interval >= 1 && maxSkip >= 1 && size >= 1
    ensures Passes([0] + Exchanged(n, a, b), interval, maxSkip, size) <==>
            Epoch(a, interval) == Epoch(b, interval) && b - a < size
  {
    var order := [0] + Exchanged(n, a, b);
    assert Swapped(order, a, b);
    if Epoch(a, interval) == Epoch(b, interval) && b - a < size {
      SwappedPasses(order, a, b, interval, maxSkip, size);
    } else {
      SwappedBlocked(order, a, b, interval, maxSkip, size);
    }
  }

  lemma {:induction false} PassesUpTo(order: seq<nat>, p: nat, interval: nat, maxSkip: int, size: nat)
    requires interval >= 1 && p <= |order| && Passes(order, interval, maxSkip, size)
    ensures Passes(order[..p], interval, maxSkip, size)
    decreases |order|
  {
    if p == |order| {
      assert order[..p] == order;
    } else {
      var n := |order| - 1;
      PassesUpTo(order[..n], p, interval, maxSkip, size);
      assert order[..n][..p] == order[..p];
    }
  }

  /** A push of which two chunks with different contents change places is committed so. */
  lemma ExchangedChunksCommit(e: E.Ends, l: E.Link, id: string, sc: seq<Message>, a: nat, b: nat,
                              maxSkip: int, windowSize: nat, threshold: int, env: C.Env,
                              self: S.Sender, selfHistory: seq<S.Attempt>)
    returns (run: E.Schedule, feed: I.Feed, data: Bytes)
    requires Pushable(e, l, id) && self.interval >= 1 && windowSize >= 1 && maxSkip >= 1 && sc == N.ScriptOf(e.u, id)
    requires 1 <= a < b < |sc| - 1 && ChunkOf(sc[a]) != ChunkOf(sc[b])
    requires Epoch(a, l.sender.interval) == Epoch(b, l.sender.interval) && b - a < windowSize
    ensures E.Legal(e, l, run)
    ensures T.Possible(I.FramesOf(feed), l.sender, E.Run(e, l, run).calls, self, selfHistory)
    ensures HandsOver(e, l, id, maxSkip, windowSize, threshold, feed, data) && data != e.u.plan[id].payload
  {
    var picks := Exchanged(|sc| - 1, a, b);
    MakesWrong(sc, a, b, l.sender.interval, maxSkip, windowSize, picks);
    run, feed, data := WrongBlock(e, l, id, picks, maxSkip, windowSize, threshold, env, self, selfHistory);
  }

  lemma MakesWrong(sc: seq<Message>, a: nat, b: nat, interval: nat, maxSkip: int, size: nat, picks: seq<nat>)
    requires interval >= 1 && size >= 1 && maxSkip >= 1 && 1 <= a < b < |sc| - 1 && ChunkOf(sc[a]) != ChunkOf(sc[b])
    requires Epoch(a, interval) == Epoch(b, interval) && b - a < size && picks == Exchanged(|sc| - 1, a, b)
    ensures L.Selection(picks, sc) && !L.InPlace(picks, sc) && Passes([0] + picks, interval, maxSkip, size)
  {
    ExchangedInPlace(sc, a, b);
    ExchangedPasses(|sc| - 1, a, b, interval, maxSkip, size);
  }
}
