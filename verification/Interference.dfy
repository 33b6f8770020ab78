/** The same path over a network that may reorder, drop, repeat and invent frames: what it can
    and what it cannot make of a transfer. */
module Interference {
  import opened Common
  import opened Messages
  import opened Chunking
  import opened KeySchedule
  import opened Frames
  import S = Senders
  import R = Receivers
  import T = ChannelTheorems
  import X = Muxes
  import C = Replication
  import N = Network
  import E = EndToEnd
  import L = Selections

  /** What arrives at a receiver, and what else its coordinator does in between. */
  datatype Feed = Quiet | Comes(before: Feed, f: Frame, env: C.Env) | Aside(before: Feed, event: C.Event)

  function FramesOf(feed: Feed): seq<Frame> {
    match feed
    case Quiet => []
    case Comes(before, f, _) => FramesOf(before) + [f]
    case Aside(before, _) => FramesOf(before)
  }

  /** The events of the coordinator: it handles each text that the receiver delivers. */
  ghost function HistoryOf(feed: Feed, r: R.Receiver, peer: string, decode: Bytes -> Option<Message>): C.History
    requires r.interval >= 1
  {
    match feed
    case Quiet => C.Nothing
    case Comes(before, f, env) =>
      var h, out := HistoryOf(before, r, peer, decode), R.RecvStep(R.After(r, FramesOf(before)), f).1;
      if out.Delivered? && decode(out.plaintext).Some?
      then C.After(h, C.Receive(peer, decode(out.plaintext).value, env)) else h
    case Aside(before, ev) => C.After(HistoryOf(before, r, peer, decode), ev)
  }

  /** Nothing from elsewhere is about the transfer but an abort. */
  ghost predicate Apart(feed: Feed, id: string) {
    match feed
    case Quiet => true
    case Comes(before, _, _) => Apart(before, id)
    case Aside(before, ev) => Apart(before, id) && (ev.Receive? ==> ev.msg.StreamAbort? || ev.msg.reqId != Some(id))
  }

  // --- the messages of one transfer among all -------------------------------------------

  predicate Own(msg: Message, id: string) {
    !msg.StreamAbort? && msg.reqId == Some(id)
  }

  function OwnOf(msgs: seq<Message>, id: string): seq<Message> {
    if msgs == [] then []
    else
      var n := |msgs| - 1;
      OwnOf(msgs[..n], id) + if Own(msgs[n], id) then [msgs[n]] else []
  }

  /** Where in its script message k stands. */
  function Position(msgs: seq<Message>, k: nat, id: string): nat
    requires k <= |msgs|
  {
    |OwnOf(msgs[..k], id)|
  }

  lemma {:induction false} OwnPrefix(msgs: seq<Message>, k: nat, id: string)
    requires k <= |msgs|
    ensures OwnOf(msgs[..k], id) <= OwnOf(msgs, id)
    decreases |msgs|
  {
    if k == |msgs| {
      assert msgs[..k] == msgs;
    } else {
      var n := |msgs| - 1;
      OwnPrefix(msgs[..n], k, id);
      assert msgs[..n][..k] == msgs[..k];
    }
  }

  lemma PositionIs(msgs: seq<Message>, k: nat, id: string, sc: seq<Message>)
    requires k < |msgs| && Own(msgs[k], id) && OwnOf(msgs, id) <= sc
    ensures Position(msgs, k, id) < |sc| && sc[Position(msgs, k, id)] == msgs[k]
  {
    OwnPrefix(msgs, k + 1, id);
    assert msgs[..k + 1][..k] == msgs[..k];
  }

  lemma PositionsDiffer(msgs: seq<Message>, k: nat, l: nat, id: string)
    requires k < l <= |msgs| && Own(msgs[k], id)
    ensures Position(msgs, k, id) < Position(msgs, l, id)
  {
    OwnPrefix(msgs[..l], k + 1, id);
    assert msgs[..l][..k + 1] == msgs[..k + 1] && msgs[..k + 1][..k] == msgs[..k];
  }

  function Msgs(items: seq<X.Item>): seq<Message> {
    seq(|items|, i requires 0 <= i < |items| => items[i].msg)
  }

  /** An item stands somewhere among the messages of its stream. */
  lemma ItemIn(items: seq<X.Item>, d: nat) returns (j: nat)
    requires d < |items|
    ensures j < |X.OfStream(items, items[d].stream)| && X.OfStream(items, items[d].stream)[j] == items[d].msg
  {
    var s := items[d].stream;
    j := |X.OfStream(items[..d], s)|;
    assert items[..d + 1] == items[..d] + [items[d]];
    X.OfStreamSnoc(items[..d], items[d], s);
    N.StreamPrefix(items, d + 1, s);
  }

  /** Every message queued on a transfer's stream is its own, and no other is. */
  lemma WhoseItem(u: N.Setup, n: N.Net, s: int, j: nat, id: string)
    requires N.Inv(u, n) && id in u.plan && j < |X.OfStream(n.mux.accepted, s)|
    ensures Own(X.OfStream(n.mux.accepted, s)[j], id) <==> s == u.plan[id].stream
  {
    if s == u.plan[id].stream {
      ItsOwn(u, n, id, j);
    } else if N.FreeStream(u, s) {
      assert N.OnlyForeign(u, X.OfStream(n.mux.accepted, s));
    } else {
      var other :| other in u.plan && u.plan[other].stream == s;
      ItsOwn(u, n, other, j);
    }
  }

  lemma ItsOwn(u: N.Setup, n: N.Net, id: string, j: nat)
    requires N.Inv(u, n) && id in u.plan && j < |X.OfStream(n.mux.accepted, u.plan[id].stream)|
    ensures Own(X.OfStream(n.mux.accepted, u.plan[id].stream)[j], id)
  {
    var sc := N.ScriptOf(u, id);
    assert N.FlowOf(u, n, id);
    N.ScriptIs(u, id);
    ScriptOwn(sc, id, u.plan[id], j);
    assert X.OfStream(n.mux.accepted, u.plan[id].stream)[j] == sc[j];
  }

  lemma ScriptOwn(sc: seq<Message>, id: string, t: Transfer, j: nat)
    requires N.IsScript(sc, id, t) && j < |sc|
    ensures Own(sc[j], id)
  {
  }

  /** The transfer's messages are those on its stream. */
  ghost predicate OnStream(items: seq<X.Item>, id: string, stream: int) {
    forall d | 0 <= d < |items| :: Own(items[d].msg, id) <==> items[d].stream == stream
  }

  lemma {:induction false} OwnIsStream(items: seq<X.Item>, d: nat, id: string, stream: int)
    requires OnStream(items, id, stream) && d <= |items|
    ensures OwnOf(Msgs(items)[..d], id) == X.OfStream(items[..d], stream)
    decreases d
  {
    if d > 0 {
      OwnIsStream(items, d - 1, id, stream);
      assert Msgs(items)[..d][..d - 1] == Msgs(items)[..d - 1] && items[..d][..d - 1] == items[..d - 1];
    }
  }

  lemma WrittenAccepted(m: X.Mux, s: int)
    requires X.Conserved(m, s)
    ensures X.OfStream(m.sent + m.lost, s) <= X.OfStream(m.accepted, s)
  {
    X.OfStreamConcat(m.sent, m.lost, s);
  }

  /** Of one transfer the peer writes a beginning of its script. */
  lemma WritesScript(u: N.Setup, n: N.Net, id: string)
    requires N.Inv(u, n) && id in u.plan
    ensures OwnOf(Msgs(n.mux.sent + n.mux.lost), id) <= N.ScriptOf(u, id)
  {
    var items, stream := n.mux.sent + n.mux.lost, u.plan[id].stream;
    forall d | 0 <= d < |items| ensures Own(items[d].msg, id) <==> items[d].stream == stream {
      var s := items[d].stream;
      var j := ItemIn(items, d);
      assert X.Conserved(n.mux, s);
      WrittenAccepted(n.mux, s);
      WhoseItem(u, n, s, j, id);
    }
    OwnIsStream(items, |items|, id, stream);
    assert Msgs(items)[..|items|] == Msgs(items) && items[..|items|] == items;
    assert X.Conserved(n.mux, stream);
    WrittenAccepted(n.mux, stream);
    assert N.FlowOf(u, n, id);
  }

  // --- sorting out what arrives ---------------------------------------------------------

  /** A sender that has called `send` for the encoded messages, and the source of each delivery. */
  ghost predicate Traced(r: R.Receiver, all: seq<Frame>, start: S.Sender, calls: seq<S.Attempt>,
                         msgs: seq<Message>, decode: Bytes -> Option<Message>, source: map<nat, nat>)
  {
    && r.interval >= 1 && start.interval >= 1
    && T.Sourced(r, all, |all|, start, calls, source)
    && (forall i, j | i in source && j in source && i != j :: source[i] != source[j])
    && |calls| == |msgs| && forall i | 0 <= i < |msgs| :: decode(calls[i].plaintext) == Some(msgs[i])
  }

  /** The message of a script taken at index k came with arrival `at[k]`. */
  ghost predicate Placed(at: map<nat, nat>, taken: set<nat>, n: nat, source: map<nat, nat>, msgs: seq<Message>,
                         id: string) {
    && at.Keys == taken
    && forall k <- at :: at[k] < n && at[k] in source && source[at[k]] < |msgs| && Own(msgs[source[at[k]]], id)
                         && Position(msgs, source[at[k]], id) == k
  }

  lemma FreshPlace(at: map<nat, nat>, taken: set<nat>, n: nat, source: map<nat, nat>, msgs: seq<Message>, id: string)
    requires Placed(at, taken, n, source, msgs, id) && n in source && source[n] < |msgs| && Own(msgs[source[n]], id)
    requires forall i, j | i in source && j in source && i != j :: source[i] != source[j]
    ensures Position(msgs, source[n], id) !in taken
    ensures var k := Position(msgs, source[n], id);
            Placed(at[k := n], taken + {k}, n + 1, source, msgs, id)
  {
    var k := Position(msgs, source[n], id);
    if k in taken {
      var a, b := source[at[k]], source[n];
      if a < b { PositionsDiffer(msgs, a, b, id); } else { PositionsDiffer(msgs, b, a, id); }
    }
  }

  /** A delivered text is the encoding of the message of the call it came from. */
  lemma DeliversSource(r: R.Receiver, all: seq<Frame>, start: S.Sender, calls: seq<S.Attempt>,
                       msgs: seq<Message>, decode: Bytes -> Option<Message>, source: map<nat, nat>,
                       front: seq<Frame>, f: Frame)
    requires Traced(r, all, start, calls, msgs, decode, source) && front + [f] <= all
    ensures var out, i := R.RecvStep(R.After(r, front), f).1, |front|;
            out.Delivered? ==> i in source && source[i] < |msgs| && decode(out.plaintext) == Some(msgs[source[i]])
  {
    var i := |front|;
    assert all[..i] == front && all[i] == f;
    assert R.OutcomeAt(r, all, i) == R.RecvStep(R.After(r, front), f).1;
    if R.OutcomeAt(r, all, i).Delivered? {
      assert i in source;
      assert T.CameFrom(r, all, i, start, calls, source[i]);
    }
  }

  lemma Trace(r: R.Receiver, all: seq<Frame>, start: S.Sender, calls: seq<S.Attempt>,
              msgs: seq<Message>, decode: Bytes -> Option<Message>,
              self: S.Sender, selfHistory: seq<S.Attempt>) returns (source: map<nat, nat>)
    requires R.ReceiverInv(r) && S.SenderInv(start) && S.SenderInv(self)
    requires start.side == r.peer && self.side == Other(r.peer)
    requires T.Possible(all, start, calls, self, selfHistory)
    requires |calls| == |msgs| && forall i | 0 <= i < |msgs| :: decode(calls[i].plaintext) == Some(msgs[i])
    ensures Traced(r, all, start, calls, msgs, decode, source)
  {
    source := T.EachSendDeliveredOnce(r, all, start, calls, self, selfHistory);
  }

  /** Whatever arrives, the coordinator sees messages of the script, each at most once, and
      things that are not about the transfer. */
  lemma {:induction false} SortOut(feed: Feed, r: R.Receiver, all: seq<Frame>, start: S.Sender, calls: seq<S.Attempt>,
                                   msgs: seq<Message>, decode: Bytes -> Option<Message>, source: map<nat, nat>,
                                   peer: string, id: string, sc: seq<Message>)
    returns (mix: L.Mix, at: map<nat, nat>)
    requires Traced(r, all, start, calls, msgs, decode, source) && FramesOf(feed) <= all
    requires Apart(feed, id) && OwnOf(msgs, id) <= sc
    ensures L.MixOk(mix, id, sc) && L.HistoryOf(mix, peer, id, sc) == HistoryOf(feed, r, peer, decode)
    ensures Placed(at, L.Taken(mix), |FramesOf(feed)|, source, msgs, id)
    decreases feed
  {
    match feed
    case Quiet =>
      mix, at := L.Idle, map[];
    case Aside(before, ev) =>
      mix, at := SortOut(before, r, all, start, calls, msgs, decode, source, peer, id, sc);
      mix := L.Aside(mix, ev);
    case Comes(before, f, env) =>
      mix, at := SortOut(before, r, all, start, calls, msgs, decode, source, peer, id, sc);
      var n, out := |FramesOf(before)|, R.RecvStep(R.After(r, FramesOf(before)), f).1;
      DeliversSource(r, all, start, calls, msgs, decode, source, FramesOf(before), f);
      if out.Delivered? {
        var msg := msgs[source[n]];
        if Own(msg, id) {
          var k := Position(msgs, source[n], id);
          PositionIs(msgs, source[n], id, sc);
          FreshPlace(at, L.Taken(mix), n, source, msgs, id);
          mix, at := L.Gets(mix, k, env), at[k := n];
        } else {
          mix := L.Aside(mix, C.Receive(peer, msg, env));
        }
      }
  }

  // --- what a transfer can become -------------------------------------------------------

  /** The transfer handed over nothing, or once the concatenation of the chunks picked; that is
      its payload exactly when none is missing and each stands where its content belongs. */
  ghost predicate HandsOverPicks(done: seq<N.Handover>, id: string, t: Transfer, size: nat, picks: seq<nat>)
    requires size >= 1
  {
    var sc := Script(id, t, size);
    || done == []
    || (&& L.Selection(picks, sc)
        && var data := C.Join(L.PartsAt(sc, picks));
        && done == [N.Expected(L.Instead(t, data))]
        && (data == t.payload <==> L.InPlace(picks, sc)))
  }

  lemma MixHandsOver(c: C.Coord, mix: L.Mix, peer: string, id: string, t: Transfer, size: nat)
    requires size >= 1 && id != "" && t.payload != [] && L.MixOk(mix, id, Script(id, t, size))
    requires Some(id) !in c.buffers && N.Commits(c.effects, id) == []
    ensures var sc := Script(id, t, size);
            HandsOverPicks(N.Commits(C.Run(c, L.HistoryOf(mix, peer, id, sc)).effects, id), id, t, size,
                           L.Given(mix, |sc| - 1))
  {
    var sc := Script(id, t, size);
    ScriptData(id, t, size);
    L.MixHolds(c, mix, peer, id, t, sc);
    L.PickedOk(mix, id, sc);
    if L.Selection(L.Given(mix, |sc| - 1), sc) { L.SelectionExactly(id, t, size, L.Given(mix, |sc| - 1)); }
  }

  /** What a run of the sending side has tried to send, and that it follows each script. */
  lemma SendingSide(e: E.Ends, l: E.Link, run: E.Schedule, id: string) returns (msgs: seq<Message>)
    requires E.Initial(e, l) && E.Legal(e, l, run) && id in e.u.plan
    ensures OwnOf(msgs, id) <= N.ScriptOf(e.u, id)
    ensures var calls := E.Run(e, l, run).calls;
            |calls| == |msgs| && forall i | 0 <= i < |msgs| :: e.decode(calls[i].plaintext) == Some(msgs[i])
  {
    var m := E.Run(e, l, run);
    var n, items := E.Abs(m), m.mux.sent + m.mux.lost;
    E.Refines(e, l, run);
    E.RunCalled(e, l, run);
    N.InitialInv(e.u, E.Abs(l));
    N.RunInv(e.u, E.Abs(l), E.ShadowRun(e, l, run));
    WritesScript(e.u, n, id);
    assert n.mux.sent + n.mux.lost == items;
    msgs := Msgs(items);
  }

  /** For every run of the sending side and every network that cannot encrypt under a session
      key: the coordinator sees each message of a script at most once, and the transfer hands
      over nothing, or the concatenation of the chunks delivered from its header to its final
      chunk.  That is the payload exactly when none of them is missing and each stands where
      its content belongs. */
  lemma AnyNetworkExactly(e: E.Ends, l: E.Link, run: E.Schedule, id: string, maxSkip: int, windowSize: nat,
                          feed: Feed, c: C.Coord, self: S.Sender, selfHistory: seq<S.Attempt>) returns (mix: L.Mix)
    requires E.Initial(e, l) && E.Legal(e, l, run) && id in e.u.plan && windowSize >= 1
    requires S.SenderInv(self) && self.side == Other(l.sender.side)
    requires T.Possible(FramesOf(feed), l.sender, E.Run(e, l, run).calls, self, selfHistory)
    requires Apart(feed, id) && Some(id) !in c.buffers && N.Commits(c.effects, id) == []
    ensures L.MixOk(mix, id, N.ScriptOf(e.u, id))
    ensures var r, sc := R.Start(l.sender.side, l.sender.interval, maxSkip, windowSize), N.ScriptOf(e.u, id);
            var h := HistoryOf(feed, r, e.u.peer, e.decode);
            && h == L.HistoryOf(mix, e.u.peer, id, sc)
            && HandsOverPicks(N.Commits(C.Run(c, h).effects, id), id, e.u.plan[id], e.u.size, L.Given(mix, |sc| - 1))
  {
    var calls := E.Run(e, l, run).calls;
    var r := R.Start(l.sender.side, l.sender.interval, maxSkip, windowSize);
    var msgs := SendingSide(e, l, run, id);
    mix := Received(e, id, l.sender, calls, msgs, r, feed, self, selfHistory);
    MixHandsOver(c, mix, e.u.peer, id, e.u.plan[id], e.u.size);
  }

  lemma Received(e: E.Ends, id: string, start: S.Sender, calls: seq<S.Attempt>, msgs: seq<Message>, r: R.Receiver,
                 feed: Feed, self: S.Sender, selfHistory: seq<S.Attempt>) returns (mix: L.Mix)
    requires e.u.size >= 1 && id in e.u.plan && R.ReceiverInv(r) && S.SenderInv(start) && start.side == r.peer
    requires S.SenderInv(self) && self.side == Other(r.peer)
    requires OwnOf(msgs, id) <= N.ScriptOf(e.u, id)
    requires |calls| == |msgs| && forall i | 0 <= i < |msgs| :: e.decode(calls[i].plaintext) == Some(msgs[i])
    requires T.Possible(FramesOf(feed), start, calls, self, selfHistory) && Apart(feed, id)
    ensures L.MixOk(mix, id, N.ScriptOf(e.u, id))
    ensures HistoryOf(feed, r, e.u.peer, e.decode) == L.HistoryOf(mix, e.u.peer, id, N.ScriptOf(e.u, id))
  {
    var source := Trace(r, FramesOf(feed), start, calls, msgs, e.decode, self, selfHistory);
    var at;
    mix, at := SortOut(feed, r, FramesOf(feed), start, calls, msgs, e.decode, source, e.u.peer, id,
                       N.ScriptOf(e.u, id));
  }
}
