/** How `_send_chunks` cuts a payload, and the messages of one chunked transfer. */
module Chunking {
  import opened Common
  import opened Messages
  import opened Replication

  function Pieces(data: Bytes, size: nat): seq<Bytes>
    requires size >= 1
    decreases |data|
  {
    if data == [] then []
    else if |data| <= size then [data]
    else [data[..size]] + Pieces(data[size..], size)
  }

  function Chunk(id: string, number: nat, piece: Bytes, final: bool): Message {
    BlockChunk(Some(id), number, Some(piece), final)
  }

  function ChunkMessages(id: string, data: Bytes, size: nat): seq<Message>
    requires size >= 1
  {
    var pieces := Pieces(data, size);
    seq(|pieces|, i requires 0 <= i < |pieces| => Chunk(id, i, pieces[i], i == |pieces| - 1))
  }

  /** `Push` is a store_remote, `Answer` the reply to a load_remote. */
  datatype Kind = Push(durability: Durability, key: Option<string>) | Answer

  datatype Transfer = Transfer(stream: int, payload: Bytes, kind: Kind)

  function Header(id: string, t: Transfer): Message {
    match t.kind
    case Push(durability, key) => StoreBlock(Some(id), true, Some(|t.payload|), None, Some(durability), key)
    case Answer => BlockData(Some(id), true, |t.payload|, None, None)
  }

  /** All messages of a transfer, in sending order. */
  function Script(id: string, t: Transfer, size: nat): seq<Message>
    requires size >= 1
  {
    [Header(id, t)] + ChunkMessages(id, t.payload, size)
  }

  function ChunkOf(m: Message): Bytes {
    if m.BlockChunk? && m.chunk.Some? then m.chunk.value else []
  }

  /** The payload bytes that a run of messages carries. */
  function Data(msgs: seq<Message>): Bytes {
    if msgs == [] then [] else Data(msgs[..|msgs| - 1]) + ChunkOf(msgs[|msgs| - 1])
  }

  lemma {:induction false} DataConcat(a: seq<Message>, b: seq<Message>)
    ensures Data(a + b) == Data(a) + Data(b)
    decreases |b|
  {
    if b == [] {
      assert a + b == a;
    } else {
      var n := |b| - 1;
      assert (a + b)[..|a| + n] == a + b[..n];
      DataConcat(a, b[..n]);
    }
  }

  /** Every piece is full but the last, which is not empty. */
  ghost predicate Full(pieces: seq<Bytes>, size: nat) {
    forall i | 0 <= i < |pieces| :: 0 < |pieces[i]| <= size && (i < |pieces| - 1 ==> |pieces[i]| == size)
  }

  lemma {:induction false} PiecesFit(data: Bytes, size: nat)
    requires size >= 1
    ensures Full(Pieces(data, size), size)
    decreases |data|
  {
    if |data| > size {
      PiecesFit(data[size..], size);
      assert |data[..size]| == size && |Pieces(data[size..], size)| >= 1;
    }
  }

  /** What one message list carries depends on its chunks alone. */
  lemma {:induction false} DataIsJoin(msgs: seq<Message>, pieces: seq<Bytes>)
    requires |msgs| == |pieces| && forall i | 0 <= i < |msgs| :: ChunkOf(msgs[i]) == pieces[i]
    ensures Data(msgs) == Join(pieces)
    decreases |msgs|
  {
    if msgs != [] {
      var n := |msgs| - 1;
      DataIsJoin(msgs[..n], pieces[..n]);
    }
  }

  lemma {:induction false} JoinCons(first: Bytes, rest: seq<Bytes>)
    ensures Join([first] + rest) == first + Join(rest)
    decreases |rest|
  {
    if rest == [] {
      assert ([first] + rest)[..0] == [];
      assert Join([]) == [];
    } else {
      var n := |rest| - 1;
      assert ([first] + rest)[..n + 1] == [first] + rest[..n];
      JoinCons(first, rest[..n]);
    }
  }

  lemma {:induction false} PiecesJoin(data: Bytes, size: nat)
    requires size >= 1
    ensures Join(Pieces(data, size)) == data
    decreases |data|
  {
    if data != [] && |data| <= size {
      JoinCons(data, []);
      assert [data] + [] == [data];
    } else if |data| > size {
      JoinCons(data[..size], Pieces(data[size..], size));
      PiecesJoin(data[size..], size);
    }
  }

  lemma HeaderData(id: string, t: Transfer)
    ensures Data([Header(id, t)]) == []
  {
    assert [Header(id, t)][..0] == [];
  }

  /** A transfer's messages carry exactly its payload. */
  lemma ScriptData(id: string, t: Transfer, size: nat)
    requires size >= 1
    ensures Data(Script(id, t, size)) == t.payload
  {
    var chunks := ChunkMessages(id, t.payload, size);
    DataConcat([Header(id, t)], chunks);
    HeaderData(id, t);
    DataIsJoin(chunks, Pieces(t.payload, size));
    PiecesJoin(t.payload, size);
  }

  lemma DataPrefix(msgs: seq<Message>, j: nat)
    requires j <= |msgs|
    ensures Data(msgs[..j]) <= Data(msgs)
  {
    var a, b := msgs[..j], msgs[j..];
    assert msgs == a + b;
    DataConcat(a, b);
  }
}

/** Chunked transfers from end to end: producers, the round-robin writer, ordered delivery
    and the receiving coordinator, with timeouts, garbage collection, aborts and any other
    traffic in between. */
module Network {
  import opened Common
  import opened Config
  import opened Messages
  import opened Chunking
  import X = Muxes
  import C = Replication
  import T = ReplicationTheorems

  /** The first `delivered` messages the mux sent have reached the receiver; `progress`
      counts the messages each producer has queued. */
  datatype Net = Net(mux: X.Mux, delivered: nat, coord: C.Coord, progress: map<string, nat>)

  datatype Setup = Setup(plan: map<string, Transfer>, size: nat, peer: string)

  /** Transfers have distinct streams and non-empty request ids, and carry something:
      a payload is chunked only above a threshold. */
  ghost predicate SetupOk(u: Setup) {
    && u.size >= 1
    && "" !in u.plan
    && (forall id <- u.plan :: u.plan[id].payload != [])
    && forall a, b | a in u.plan && b in u.plan && a != b :: u.plan[a].stream != u.plan[b].stream
  }

  ghost function ScriptOf(u: Setup, id: string): seq<Message>
    requires u.size >= 1 && id in u.plan
  {
    Script(id, u.plan[id], u.size)
  }

  ghost predicate Foreign(u: Setup, reqId: Option<string>) {
    reqId.Some? ==> reqId.value !in u.plan
  }

  ghost predicate FreeStream(u: Setup, stream: int) {
    forall id <- u.plan :: u.plan[id].stream != stream
  }

  datatype Step =
    | Produce(id: string)                       // a producer queues its next message
    | Chatter(stream: int, msg: Message)        // other traffic on the same connection
    | Writer(step: X.Step)
    | Deliver(env: C.Env)
    | Elsewhere(event: C.Event)                 // the receiver's other peers and own requests

  ghost predicate Enabled(u: Setup, n: Net, step: Step)
    requires u.size >= 1
  {
    match step
    case Produce(id) => id in u.plan && id in n.progress && n.progress[id] < |ScriptOf(u, id)| && n.mux.slots > 0
    case Chatter(stream, msg) => FreeStream(u, stream) && Foreign(u, msg.reqId) && n.mux.slots > 0
    case Writer(step) => !step.Enqueue? && X.Enabled(n.mux, step)
    case Deliver(_) => n.delivered < |n.mux.sent|
    case Elsewhere(ev) => ev.Receive? ==> ev.msg.StreamAbort? || Foreign(u, ev.msg.reqId)
  }

  /** The net after the next message has been handled. */
  ghost function Handled(n: Net, peer: string, env: C.Env): Net
    requires n.delivered < |n.mux.sent|
  {
    n.(delivered := n.delivered + 1, coord := C.Handle(n.coord, peer, n.mux.sent[n.delivered].msg, env))
  }

  ghost function Apply(u: Setup, n: Net, step: Step): Net
    requires u.size >= 1 && Enabled(u, n, step)
  {
    match step
    case Produce(id) =>
      var k := n.progress[id];
      n.(mux := X.EnqueueStep(n.mux, u.plan[id].stream, ScriptOf(u, id)[k]), progress := n.progress[id := k + 1])
    case Chatter(stream, msg) => n.(mux := X.EnqueueStep(n.mux, stream, msg))
    case Writer(step) => n.(mux := X.Apply(n.mux, step))
    case Deliver(env) => Handled(n, u.peer, env)
    case Elsewhere(ev) => n.(coord := C.Apply(n.coord, ev))
  }

  // --- the receiver's view of one transfer --------------------------------------------

  /** A payload handed over: to the block manager with its durability and key, or to the
      waiter of a load. */
  datatype Handover = ToStore(data: Bytes, durability: Durability, key: Option<string>) | ToWaiter(data: Bytes)

  function HandoverOf(e: C.Effect, id: string): seq<Handover> {
    if e.Commit? && e.reqId == Some(id) then [ToStore(e.data, e.durability, e.key)]
    else if e.Gathered? && e.reqId == Some(id) then [ToWaiter(e.data)]
    else []
  }

  /** What is handed over under a request id. */
  function Commits(effects: seq<C.Effect>, id: string): seq<Handover> {
    if effects == [] then []
    else Commits(effects[..|effects| - 1], id) + HandoverOf(effects[|effects| - 1], id)
  }

  /** What a transfer is meant to hand over. */
  function Expected(t: Transfer): Handover {
    match t.kind
    case Push(durability, key) => ToStore(t.payload, durability, key)
    case Answer => ToWaiter(t.payload)
  }

  /** The transfer is being reassembled and holds what its first j messages carry. */
  ghost predicate Active(c: C.Coord, id: string, t: Transfer, sc: seq<Message>, j: nat) {
    && 1 <= j < |sc|
    && Some(id) in c.buffers
    && Holds(c.buffers[Some(id)], t, sc[..j])
    && Commits(c.effects, id) == []
  }

  ghost predicate Holds(b: C.Buffer, t: Transfer, msgs: seq<Message>) {
    && C.Join(b.parts) == Data(msgs)
    && b.received == |Data(msgs)|
    && b.totalSize == |t.payload|
    && Labelled(b, t.kind)
  }

  ghost predicate Labelled(b: C.Buffer, kind: Kind) {
    match kind
    case Push(durability, key) => b.mode == C.Store && b.durability == Some(durability) && b.key == key
    case Answer => b.mode == C.Pull
  }

  /** The transfer has no buffer: it has not begun, was dropped, or is complete. */
  ghost predicate Passive(c: C.Coord, id: string, t: Transfer, sc: seq<Message>, j: nat) {
    && Some(id) !in c.buffers
    && (Commits(c.effects, id) == [] || (j == |sc| && Commits(c.effects, id) == [Expected(t)]))
  }

  ghost predicate Tracked(c: C.Coord, id: string, t: Transfer, sc: seq<Message>, j: nat) {
    Active(c, id, t, sc, j) || Passive(c, id, t, sc, j)
  }

  // --- one event at the receiver --------------------------------------------------------

  lemma CommitsSnoc(c: C.Coord, e: C.Effect, id: string)
    ensures Commits(C.Say(c, e).effects, id) ==
            Commits(c.effects, id) + HandoverOf(e, id)
  {
    assert (c.effects + [e])[..|c.effects|] == c.effects;
  }

  /** Effects about anything else hand nothing over under `id`. */
  lemma SayOther(c: C.Coord, e: C.Effect, id: string)
    requires (e.Commit? || e.Gathered?) ==> e.reqId != Some(id)
    ensures Commits(C.Say(c, e).effects, id) == Commits(c.effects, id)
  {
    CommitsSnoc(c, e, id);
    assert Commits(c.effects, id) + [] == Commits(c.effects, id);
  }

  /** Nothing about request `id` but the loss of its buffer. */
  ghost predicate Spares(c: C.Coord, d: C.Coord, id: string) {
    && Commits(d.effects, id) == Commits(c.effects, id)
    && (Some(id) in d.buffers ==> Some(id) in c.buffers && d.buffers[Some(id)] == c.buffers[Some(id)])
  }

  lemma ChunkSpares(c: C.Coord, peer: string, msg: Message, env: C.Env, id: string)
    requires msg.BlockChunk? && msg.reqId != Some(id)
    ensures Spares(c, C.HandleChunk(c, peer, msg, env), id)
  {
    var rid := msg.reqId;
    T.ChunkShape(c, peer, msg, env);
    if rid.Some? && rid.value != "" && rid in c.buffers && msg.chunk.Some? {
      var b := C.Add(c.buffers[rid], msg.chunk.value);
      var without := c.(buffers := c.buffers - {rid});
      FinishSpares(without, peer, rid, b, env, id);
    }
  }

  lemma FinishSpares(c: C.Coord, peer: string, rid: Option<string>, b: C.Buffer, env: C.Env, id: string)
    requires rid != Some(id)
    ensures Commits(C.Finish(c, peer, rid, b, env).effects, id) == Commits(c.effects, id)
    ensures Commits(C.Overrun(c, peer, rid, b).effects, id) == Commits(c.effects, id)
  {
    var data := C.Join(b.parts);
    if b.durability.Some? {
      var commit := C.Commit(rid, data, b.durability.value, b.key);
      SayOther(c, commit, id);
      SayOther(C.Say(c, commit), C.Reply(peer, C.StoreReply(rid, env.stored)), id);
    }
    SayOther(c, C.Gathered(rid, data), id);
    SayOther(c, C.Reply(peer, Nack(rid)), id);
  }

  lemma ServeStoreSpares(c: C.Coord, peer: string, msg: Message, env: C.Env, id: string)
    requires msg.StoreBlock? && msg.reqId != Some(id)
    ensures Spares(c, C.ServeStore(c, peer, msg, env), id)
  {
    T.ServeStoreShape(c, peer, msg, env);
    if msg.chunked || msg.payload.None? || msg.durability.None? {
      var reply := C.Reply(peer, Nack(msg.reqId));
      SayOther(c, reply, id);
      SayOther(C.Gc(c, env), reply, id);
    } else {
      var commit := C.Commit(msg.reqId, msg.payload.value, msg.durability.value, msg.key);
      SayOther(c, commit, id);
      SayOther(C.Say(c, commit), C.Reply(peer, C.StoreReply(msg.reqId, env.stored)), id);
    }
  }

  lemma ServeOtherSpares(c: C.Coord, peer: string, msg: Message, env: C.Env, id: string)
    requires !msg.BlockChunk? && !msg.StreamAbort? && !msg.StoreBlock? && !C.IsAnswer(c, msg)
    ensures Spares(c, C.Handle(c, peer, msg, env), id)
  {
    T.ServesQuietly(c, peer, msg, env);
    if msg.RequestBlock? {
      RequestSpares(c, peer, msg, env, id);
    } else {
      SayOther(c, C.Reply(peer, Freed(msg.reqId, env.freed)), id);
      SayOther(c, C.Reply(peer, Pong(msg.reqId)), id);
    }
  }

  lemma RequestSpares(c: C.Coord, peer: string, msg: Message, env: C.Env, id: string)
    requires msg.RequestBlock?
    ensures Commits(C.ServeRequest(c, peer, msg, env).effects, id) == Commits(c.effects, id)
  {
    if env.loaded.None? {
      SayOther(c, C.Reply(peer, BlockNotFound(msg.reqId)), id);
    } else {
      var data := env.loaded.value;
      var header := C.Reply(peer, BlockData(msg.reqId, true, |data|, None, None));
      SayOther(c, C.Reply(peer, BlockData(msg.reqId, false, 0, Some(data), None)), id);
      SayOther(c, header, id);
      SayOther(C.Say(c, header), C.Stream(peer, msg.reqId, data), id);
    }
  }

  /** An event about anything else may at most drop the transfer's buffer. */
  lemma OtherSpares(c: C.Coord, ev: C.Event, id: string)
    requires ev.Receive? ==> ev.msg.StreamAbort? || ev.msg.reqId != Some(id)
    ensures Spares(c, C.Apply(c, ev), id)
  {
    if ev.Receive? && !ev.msg.StreamAbort? {
      if ev.msg.BlockChunk? {
        ChunkSpares(c, ev.peer, ev.msg, ev.env, id);
      } else if C.IsAnswer(c, ev.msg) {
        assert Spares(c, C.Resolve(c, ev.msg.reqId.value, ev.msg, ev.env), id);
      } else if ev.msg.StoreBlock? {
        ServeStoreSpares(c, ev.peer, ev.msg, ev.env, id);
      } else {
        ServeOtherSpares(c, ev.peer, ev.msg, ev.env, id);
      }
    }
  }

  lemma SparesTracked(c: C.Coord, d: C.Coord, id: string, t: Transfer, sc: seq<Message>, j: nat)
    requires Tracked(c, id, t, sc, j) && Spares(c, d, id)
    ensures Tracked(d, id, t, sc, j)
  {
  }

  /** The shape of a script: a header, then chunks of which only the last is final. */
  ghost predicate IsScript(sc: seq<Message>, id: string, t: Transfer) {
    && |sc| >= 2 && sc[0] == Header(id, t) && Data(sc) == t.payload
    && forall j | 1 <= j < |sc| :: sc[j].BlockChunk? && sc[j].reqId == Some(id) && sc[j].chunk.Some?
                                   && (sc[j].final <==> j == |sc| - 1)
  }

  lemma ScriptIs(u: Setup, id: string)
    requires SetupOk(u) && id in u.plan
    ensures IsScript(ScriptOf(u, id), id, u.plan[id])
  {
    ScriptData(id, u.plan[id], u.size);
  }

  lemma HeaderTracked(c: C.Coord, peer: string, id: string, t: Transfer, sc: seq<Message>, env: C.Env)
    requires IsScript(sc, id, t) && Passive(c, id, t, sc, 0)
    ensures Tracked(C.Handle(c, peer, sc[0], env), id, t, sc, 1)
  {
    assert sc[..1] == [Header(id, t)];
    HeaderData(id, t);
    assert C.Join([]) == [];
    if C.IsAnswer(c, sc[0]) {
      assert C.Handle(c, peer, sc[0], env) == C.Resolve(c, id, sc[0], env);
    } else if t.kind.Push? {
      PushTracked(c, peer, id, t, sc, env);
    }
  }

  lemma PushTracked(c: C.Coord, peer: string, id: string, t: Transfer, sc: seq<Message>, env: C.Env)
    requires IsScript(sc, id, t) && t.kind.Push? && Passive(c, id, t, sc, 0) && Data(sc[..1]) == []
    ensures Tracked(C.ServeStore(c, peer, sc[0], env), id, t, sc, 1)
  {
    var g, d := C.Gc(c, env), C.ServeStore(c, peer, sc[0], env);
    var nack := C.Reply(peer, Nack(Some(id)));
    assert Some(id) !in g.buffers && g.effects == c.effects;
    if !C.Acceptable(sc[0].totalSize) {
      SayOther(c, nack, id);
      assert d == C.Say(c, nack);
    } else if C.GcRaises(c, env) {
      assert d == g;
    } else if |g.buffers| >= MAX_INBOUND_STREAMS {
      SayOther(g, nack, id);
      assert d == C.Say(g, nack);
    } else {
      assert C.Join([]) == [];
      assert d.buffers[Some(id)] == T.NewPush(sc[0], env, C.SlotFor(g, Some(id))) && d.effects == c.effects;
      assert Holds(d.buffers[Some(id)], t, sc[..1]);
    }
  }

  lemma FinalCommits(c: C.Coord, peer: string, id: string, t: Transfer, b: C.Buffer, env: C.Env)
    requires Commits(c.effects, id) == [] && C.Join(b.parts) == t.payload && Labelled(b, t.kind)
    ensures var d := C.Finish(c, peer, Some(id), b, env);
            && d.buffers == c.buffers
            && Commits(d.effects, id) ==
               if t.kind.Push? || C.IsWaiting(c.futures, b.future) then [Expected(t)] else []
  {
    var d := C.Finish(c, peer, Some(id), b, env);
    if t.kind.Push? {
      var commit := C.Commit(Some(id), t.payload, t.kind.durability, t.kind.key);
      var said, reply := C.Say(c, commit), C.Reply(peer, C.StoreReply(Some(id), env.stored));
      assert d == C.Say(said, reply);
      HandsOver(c, commit, id);
      SayOther(said, reply, id);
    } else if C.IsWaiting(c.futures, b.future) {
      var settled := c.(futures := C.Settle(c.futures, b.future, C.Collected(t.payload)));
      assert d == C.Say(settled, C.Gathered(Some(id), t.payload));
      HandsOver(settled, C.Gathered(Some(id), t.payload), id);
    } else {
      assert d == c;
    }
  }

  lemma HandsOver(c: C.Coord, e: C.Effect, id: string)
    requires Commits(c.effects, id) == []
    ensures Commits(C.Say(c, e).effects, id) == HandoverOf(e, id)
  {
    CommitsSnoc(c, e, id);
    assert [] + HandoverOf(e, id) == HandoverOf(e, id);
  }

  /** A chunk that finds its buffer extends it, and the last one hands the payload over:
      always for a push, and for a pull if its waiter is still there. */
  lemma ChunkActive(c: C.Coord, peer: string, id: string, t: Transfer, sc: seq<Message>, j: nat, env: C.Env)
    requires IsScript(sc, id, t) && id != "" && Active(c, id, t, sc, j)
    ensures var d := C.Handle(c, peer, sc[j], env);
            if j + 1 < |sc| then Active(d, id, t, sc, j + 1)
            else Some(id) !in d.buffers
                 && Commits(d.effects, id) ==
                    if t.kind.Push? || C.IsWaiting(c.futures, c.buffers[Some(id)].future) then [Expected(t)] else []
  {
    var b := C.Add(c.buffers[Some(id)], sc[j].chunk.value);
    AddHolds(c.buffers[Some(id)], id, t, sc, j);
    if j + 1 == |sc| {
      assert sc[..j + 1] == sc;
      FinalCommits(c.(buffers := c.buffers - {Some(id)}), peer, id, t, b, env);
    }
  }

  lemma AddHolds(b: C.Buffer, id: string, t: Transfer, sc: seq<Message>, j: nat)
    requires IsScript(sc, id, t) && 1 <= j < |sc| && Holds(b, t, sc[..j])
    ensures var b' := C.Add(b, sc[j].chunk.value);
            Holds(b', t, sc[..j + 1]) && b'.received <= b'.totalSize
  {
    T.JoinSnoc(b.parts, sc[j].chunk.value);
    assert sc[..j + 1][..j] == sc[..j];
    DataPrefix(sc, j + 1);
  }

  lemma OwnMessage(c: C.Coord, peer: string, id: string, t: Transfer, sc: seq<Message>, j: nat, env: C.Env)
    requires IsScript(sc, id, t) && id != "" && j < |sc| && Tracked(c, id, t, sc, j)
    ensures Tracked(C.Handle(c, peer, sc[j], env), id, t, sc, j + 1)
    ensures j >= 1 && Some(id) !in c.buffers ==> Spares(c, C.Handle(c, peer, sc[j], env), id)
  {
    if j == 0 {
      HeaderTracked(c, peer, id, t, sc, env);
    } else if Some(id) in c.buffers {
      ChunkActive(c, peer, id, t, sc, j, env);
    } else {
      assert C.Handle(c, peer, sc[j], env) == c;
    }
  }

  // --- the whole system ---------------------------------------------------------------

  /** How many messages of a stream have reached the receiver. */
  ghost function Reached(n: Net, stream: int): nat
    requires n.delivered <= |n.mux.sent|
  {
    |X.OfStream(n.mux.sent[..n.delivered], stream)|
  }

  /** The first k messages of a script have been queued on its stream, and nothing else. */
  ghost predicate Supplied(accepted: seq<X.Item>, stream: int, sc: seq<Message>, k: nat) {
    k <= |sc| && X.OfStream(accepted, stream) == sc[..k]
  }

  lemma SuppliedSnoc(accepted: seq<X.Item>, item: X.Item, stream: int, sc: seq<Message>, k: nat)
    requires Supplied(accepted, stream, sc, k)
    requires item.stream == stream ==> k < |sc| && item.msg == sc[k]
    ensures Supplied(accepted + [item], stream, sc, if item.stream == stream then k + 1 else k)
  {
    X.OfStreamSnoc(accepted, item, stream);
    if item.stream == stream { assert sc[..k + 1] == sc[..k] + [sc[k]]; }
  }

  ghost predicate Flow(n: Net, id: string, t: Transfer, sc: seq<Message>)
    requires n.delivered <= |n.mux.sent|
  {
    && id in n.progress && Supplied(n.mux.accepted, t.stream, sc, n.progress[id])
    && Tracked(n.coord, id, t, sc, Reached(n, t.stream))
  }

  ghost predicate FlowOf(u: Setup, n: Net, id: string)
    requires u.size >= 1 && id in u.plan && n.delivered <= |n.mux.sent|
  {
    Flow(n, id, u.plan[id], ScriptOf(u, id))
  }

  ghost predicate OnlyForeign(u: Setup, msgs: seq<Message>) {
    forall i | 0 <= i < |msgs| :: Foreign(u, msgs[i].reqId)
  }

  ghost predicate Inv(u: Setup, n: Net) {
    && SetupOk(u)
    && X.Inv(n.mux)
    && n.delivered <= |n.mux.sent|
    && (forall id <- u.plan :: FlowOf(u, n, id))
    && (forall s {:trigger X.OfStream(n.mux.accepted, s)} ::
          FreeStream(u, s) ==> OnlyForeign(u, X.OfStream(n.mux.accepted, s)))
  }

  /** What arrives on a stream is, in order, what was queued on it. */
  lemma ArrivesInOrder(m: X.Mux, d: nat)
    requires X.Inv(m) && d < |m.sent|
    ensures var item := m.sent[d];
            var j := |X.OfStream(m.sent[..d], item.stream)|;
            && j < |X.OfStream(m.accepted, item.stream)|
            && X.OfStream(m.accepted, item.stream)[j] == item.msg
            && X.OfStream(m.sent[..d + 1], item.stream) == X.OfStream(m.sent[..d], item.stream) + [item.msg]
  {
    var s := m.sent[d].stream;
    assert X.Conserved(m, s);
    assert m.sent[..d + 1] == m.sent[..d] + [m.sent[d]];
    X.OfStreamSnoc(m.sent[..d], m.sent[d], s);
    StreamPrefix(m.sent, d + 1, s);
  }

  lemma {:induction false} StreamPrefix(items: seq<X.Item>, n: nat, stream: int)
    requires n <= |items|
    ensures X.OfStream(items[..n], stream) <= X.OfStream(items, stream)
    decreases |items|
  {
    if n == |items| {
      assert items[..n] == items;
    } else {
      var k := |items| - 1;
      StreamPrefix(items[..k], n, stream);
      assert items[..k][..n] == items[..n];
    }
  }

  lemma OtherStream(m: X.Mux, d: nat, stream: int)
    requires d < |m.sent| && m.sent[d].stream != stream
    ensures X.OfStream(m.sent[..d + 1], stream) == X.OfStream(m.sent[..d], stream)
  {
    assert m.sent[..d + 1] == m.sent[..d] + [m.sent[d]];
    X.OfStreamSnoc(m.sent[..d], m.sent[d], stream);
  }

  /** Queueing one message moves on the transfer it belongs to and no other. */
  lemma EnqueueFlow(n: Net, n': Net, stream: int, msg: Message, id: string, t: Transfer, sc: seq<Message>)
    requires n.delivered <= |n.mux.sent| && Flow(n, id, t, sc) && n.mux.slots > 0
    requires n' == n.(mux := X.EnqueueStep(n.mux, stream, msg), progress := n'.progress)
    requires id in n'.progress
    requires if stream == t.stream
             then n.progress[id] < |sc| && msg == sc[n.progress[id]] && n'.progress[id] == n.progress[id] + 1
             else n'.progress[id] == n.progress[id]
    ensures Flow(n', id, t, sc)
  {
    SuppliedSnoc(n.mux.accepted, X.Item(stream, msg), t.stream, sc, n.progress[id]);
  }

  lemma EnqueueForeign(u: Setup, m: X.Mux, stream: int, msg: Message, s: int)
    requires m.slots > 0 && FreeStream(u, s) && OnlyForeign(u, X.OfStream(m.accepted, s))
    requires stream == s ==> Foreign(u, msg.reqId)
    ensures OnlyForeign(u, X.OfStream(X.EnqueueStep(m, stream, msg).accepted, s))
  {
    X.OfStreamSnoc(m.accepted, X.Item(stream, msg), s);
  }

  lemma ProduceInv(u: Setup, n: Net, id: string)
    requires Inv(u, n) && Enabled(u, n, Produce(id))
    ensures Inv(u, Apply(u, n, Produce(id)))
  {
    var n', msg, stream := Apply(u, n, Produce(id)), ScriptOf(u, id)[n.progress[id]], u.plan[id].stream;
    X.EnqueueInv(n.mux, stream, msg);
    forall other <- u.plan ensures FlowOf(u, n', other) {
      assert FlowOf(u, n, other);
      EnqueueFlow(n, n', stream, msg, other, u.plan[other], ScriptOf(u, other));
    }
    forall s | FreeStream(u, s) ensures OnlyForeign(u, X.OfStream(n'.mux.accepted, s)) {
      EnqueueForeign(u, n.mux, stream, msg, s);
    }
  }

  lemma ChatterInv(u: Setup, n: Net, stream: int, msg: Message)
    requires Inv(u, n) && Enabled(u, n, Chatter(stream, msg))
    ensures Inv(u, Apply(u, n, Chatter(stream, msg)))
  {
    var n' := Apply(u, n, Chatter(stream, msg));
    X.EnqueueInv(n.mux, stream, msg);
    forall id <- u.plan ensures FlowOf(u, n', id) {
      assert FlowOf(u, n, id);
      EnqueueFlow(n, n', stream, msg, id, u.plan[id], ScriptOf(u, id));
    }
    forall s | FreeStream(u, s) ensures OnlyForeign(u, X.OfStream(n'.mux.accepted, s)) {
      EnqueueForeign(u, n.mux, stream, msg, s);
    }
  }

  lemma WriterInv(u: Setup, n: Net, step: X.Step)
    requires Inv(u, n) && Enabled(u, n, Writer(step))
    ensures Inv(u, Apply(u, n, Writer(step)))
  {
    var n' := Apply(u, n, Writer(step));
    X.StepInv(n.mux, step);
    assert n'.mux.accepted == n.mux.accepted;
    assert n'.mux.sent[..n.delivered] == n.mux.sent[..n.delivered];
    forall id <- u.plan ensures FlowOf(u, n', id) { assert FlowOf(u, n, id); }
  }

  lemma ElsewhereInv(u: Setup, n: Net, ev: C.Event)
    requires Inv(u, n) && Enabled(u, n, Elsewhere(ev))
    ensures Inv(u, Apply(u, n, Elsewhere(ev)))
  {
    var n' := Apply(u, n, Elsewhere(ev));
    forall id <- u.plan ensures FlowOf(u, n', id) {
      assert FlowOf(u, n, id);
      OtherSpares(n.coord, ev, id);
      SparesTracked(n.coord, n'.coord, id, u.plan[id], ScriptOf(u, id), Reached(n, u.plan[id].stream));
    }
  }

  /** A delivered message either is the transfer's next one or is about something else. */
  lemma WhoseMessage(u: Setup, n: Net, id: string)
    requires Inv(u, n) && n.delivered < |n.mux.sent| && id in u.plan
    ensures var item, t := n.mux.sent[n.delivered], u.plan[id];
            var j := Reached(n, t.stream);
            if item.stream == t.stream
            then j < |ScriptOf(u, id)| && item.msg == ScriptOf(u, id)[j]
            else item.msg.reqId != Some(id)
  {
    var item := n.mux.sent[n.delivered];
    ArrivesInOrder(n.mux, n.delivered);
    assert FlowOf(u, n, id);
    if item.stream != u.plan[id].stream {
      if FreeStream(u, item.stream) {
        assert OnlyForeign(u, X.OfStream(n.mux.accepted, item.stream));
      } else {
        var other :| other in u.plan && u.plan[other].stream == item.stream;
        OnlyItsOwn(u, n, other, |X.OfStream(n.mux.sent[..n.delivered], item.stream)|);
      }
    }
  }

  /** Whatever is queued on the stream of a transfer carries its request id. */
  lemma OnlyItsOwn(u: Setup, n: Net, id: string, k: nat)
    requires Inv(u, n) && id in u.plan && k < |X.OfStream(n.mux.accepted, u.plan[id].stream)|
    ensures X.OfStream(n.mux.accepted, u.plan[id].stream)[k].reqId == Some(id)
  {
    assert FlowOf(u, n, id);
    ScriptIs(u, id);
  }

  lemma DeliverOwn(n: Net, peer: string, env: C.Env, id: string, t: Transfer, sc: seq<Message>)
    requires n.delivered < |n.mux.sent| && id != "" && IsScript(sc, id, t) && Flow(n, id, t, sc)
    requires n.mux.sent[n.delivered].stream == t.stream
    requires Reached(n, t.stream) < |sc| && n.mux.sent[n.delivered].msg == sc[Reached(n, t.stream)]
    ensures Flow(Handled(n, peer, env), id, t, sc)
    ensures Reached(n, t.stream) >= 1 && Some(id) !in n.coord.buffers ==>
              Spares(n.coord, Handled(n, peer, env).coord, id)
  {
    OwnMessage(n.coord, peer, id, t, sc, Reached(n, t.stream), env);
    OneMoreReached(n, Handled(n, peer, env), t.stream);
  }

  lemma OneMoreReached(n: Net, n': Net, stream: int)
    requires n.delivered < |n.mux.sent| && n.mux.sent[n.delivered].stream == stream
    requires n'.mux == n.mux && n'.delivered == n.delivered + 1
    ensures Reached(n', stream) == Reached(n, stream) + 1
  {
    var d := n.delivered;
    assert n.mux.sent[..d + 1] == n.mux.sent[..d] + [n.mux.sent[d]];
    X.OfStreamSnoc(n.mux.sent[..d], n.mux.sent[d], stream);
  }

  lemma DeliverOther(n: Net, peer: string, env: C.Env, id: string, t: Transfer, sc: seq<Message>)
    requires n.delivered < |n.mux.sent| && Flow(n, id, t, sc)
    requires n.mux.sent[n.delivered].stream != t.stream && n.mux.sent[n.delivered].msg.reqId != Some(id)
    ensures Flow(Handled(n, peer, env), id, t, sc)
    ensures Spares(n.coord, Handled(n, peer, env).coord, id)
  {
    var ev := C.Receive(peer, n.mux.sent[n.delivered].msg, env);
    OtherStream(n.mux, n.delivered, t.stream);
    OtherSpares(n.coord, ev, id);
    SparesTracked(n.coord, C.Apply(n.coord, ev), id, t, sc, Reached(n, t.stream));
  }

  lemma DeliverFlow(u: Setup, n: Net, env: C.Env, id: string)
    requires Inv(u, n) && n.delivered < |n.mux.sent| && id in u.plan
    ensures FlowOf(u, Handled(n, u.peer, env), id)
    ensures Reached(n, u.plan[id].stream) >= 1 && Some(id) !in n.coord.buffers ==>
              Spares(n.coord, Handled(n, u.peer, env).coord, id)
  {
    WhoseMessage(u, n, id);
    ScriptIs(u, id);
    assert FlowOf(u, n, id);
    if n.mux.sent[n.delivered].stream == u.plan[id].stream {
      DeliverOwn(n, u.peer, env, id, u.plan[id], ScriptOf(u, id));
    } else {
      DeliverOther(n, u.peer, env, id, u.plan[id], ScriptOf(u, id));
    }
  }

  lemma StepInv(u: Setup, n: Net, step: Step)
    requires Inv(u, n) && Enabled(u, n, step)
    ensures Inv(u, Apply(u, n, step))
  {
    match step
    case Produce(id) => ProduceInv(u, n, id);
    case Chatter(stream, msg) => ChatterInv(u, n, stream, msg);
    case Writer(step) => WriterInv(u, n, step);
    case Deliver(env) => forall id <- u.plan { DeliverFlow(u, n, env, id); }
    case Elsewhere(ev) => ElsewhereInv(u, n, ev);
  }

  datatype Schedule = Start | After(before: Schedule, step: Step)

  ghost predicate Legal(u: Setup, n: Net, run: Schedule)
    requires u.size >= 1
    decreases run, 0
  {
    run.After? ==> Legal(u, n, run.before) && Enabled(u, Run(u, n, run.before), run.step)
  }

  ghost function Run(u: Setup, n: Net, run: Schedule): Net
    requires u.size >= 1 && Legal(u, n, run)
    decreases run, 1
  {
    if run.Start? then n else Apply(u, Run(u, n, run.before), run.step)
  }

  /** Nothing sent yet, over any receiver that knows nothing of the planned requests. */
  ghost predicate Initial(u: Setup, n: Net) {
    && SetupOk(u)
    && n.mux == X.Start(n.mux.capacity)
    && n.delivered == 0
    && (forall id <- u.plan :: id in n.progress && n.progress[id] == 0)
    && (forall id <- u.plan :: Some(id) !in n.coord.buffers && Commits(n.coord.effects, id) == [])
  }

  lemma InitialInv(u: Setup, n: Net)
    requires Initial(u, n)
    ensures Inv(u, n)
  {
    X.StartInv(n.mux.capacity);
    forall id <- u.plan ensures FlowOf(u, n, id) {
      assert n.mux.sent[..0] == [];
      assert Passive(n.coord, id, u.plan[id], ScriptOf(u, id), 0);
    }
  }

  lemma {:induction false} RunInv(u: Setup, n: Net, run: Schedule)
    requires Inv(u, n) && Legal(u, n, run)
    ensures Inv(u, Run(u, n, run))
    decreases run
  {
    if run.After? {
      RunInv(u, n, run.before);
      StepInv(u, Run(u, n, run.before), run.step);
    }
  }

  /** Every interleaving: a transfer hands over nothing, or exactly its own payload with its
      own durability and key, once and only after its last message has arrived. */
  lemma TransfersExact(u: Setup, n: Net, run: Schedule, id: string)
    requires Initial(u, n) && Legal(u, n, run) && id in u.plan
    ensures var m := Run(u, n, run);
            && m.delivered <= |m.mux.sent|
            && Reached(m, u.plan[id].stream) <= |ScriptOf(u, id)|
            && (|| Commits(m.coord.effects, id) == []
                || (&& Commits(m.coord.effects, id) == [Expected(u.plan[id])]
                    && Reached(m, u.plan[id].stream) == |ScriptOf(u, id)|))
  {
    InitialInv(u, n);
    RunInv(u, n, run);
    var m := Run(u, n, run);
    var s := u.plan[id].stream;
    assert FlowOf(u, m, id);
    assert X.Conserved(m.mux, s);
    StreamPrefix(m.mux.sent, m.delivered, s);
  }

  /** The transfer began, has no buffer and has handed nothing over. */
  ghost predicate Dropped(n: Net, id: string, stream: int) {
    && n.delivered <= |n.mux.sent| && Reached(n, stream) >= 1
    && Some(id) !in n.coord.buffers && Commits(n.coord.effects, id) == []
  }

  /** A transfer that was dropped after it began never hands anything over. */
  lemma {:induction false} DroppedNeverCommits(u: Setup, n: Net, run: Schedule, id: string)
    requires Inv(u, n) && Legal(u, n, run) && id in u.plan && Dropped(n, id, u.plan[id].stream)
    ensures Dropped(Run(u, n, run), id, u.plan[id].stream)
    decreases run
  {
    if run.After? {
      DroppedNeverCommits(u, n, run.before, id);
      RunInv(u, n, run.before);
      var m := Run(u, n, run.before);
      if run.step.Deliver? {
        DroppedDeliver(u, m, run.step.env, id);
      } else {
        DroppedOther(u, m, run.step, id, u.plan[id].stream);
      }
    }
  }

  lemma DroppedDeliver(u: Setup, m: Net, env: C.Env, id: string)
    requires Inv(u, m) && m.delivered < |m.mux.sent| && id in u.plan && Dropped(m, id, u.plan[id].stream)
    ensures Dropped(Handled(m, u.peer, env), id, u.plan[id].stream)
  {
    DeliverFlow(u, m, env, id);
    DroppedSpared(m, Handled(m, u.peer, env), id, u.plan[id].stream);
  }

  lemma DroppedSpared(m: Net, n: Net, id: string, stream: int)
    requires Dropped(m, id, stream) && m.delivered < |m.mux.sent|
    requires n.mux == m.mux && n.delivered == m.delivered + 1 && Spares(m.coord, n.coord, id)
    ensures Dropped(n, id, stream)
  {
    ReachedGrows(m.mux.sent, m.delivered, stream);
  }

  lemma DroppedOther(u: Setup, m: Net, step: Step, id: string, stream: int)
    requires u.size >= 1 && Enabled(u, m, step) && !step.Deliver? && id in u.plan && Dropped(m, id, stream)
    ensures Dropped(Apply(u, m, step), id, stream)
  {
    KeepsReached(u, m, step);
    if step.Elsewhere? { OtherSpares(m.coord, step.event, id); }
  }

  lemma KeepsReached(u: Setup, m: Net, step: Step)
    requires u.size >= 1 && Enabled(u, m, step) && !step.Deliver? && m.delivered <= |m.mux.sent|
    ensures var k := Apply(u, m, step);
            && k.delivered == m.delivered <= |k.mux.sent|
            && k.mux.sent[..k.delivered] == m.mux.sent[..m.delivered]
            && (!step.Elsewhere? ==> k.coord == m.coord)
  {
  }

  lemma ReachedGrows(sent: seq<X.Item>, d: nat, stream: int)
    requires d < |sent|
    ensures |X.OfStream(sent[..d], stream)| <= |X.OfStream(sent[..d + 1], stream)|
  {
    assert sent[..d + 1][..d] == sent[..d];
    StreamPrefix(sent[..d + 1], d, stream);
  }

  lemma StreamSplit(items: seq<X.Item>, d: nat, stream: int)
    requires d <= |items|
    ensures X.OfStream(items, stream) == X.OfStream(items[..d], stream) + X.OfStream(items[d..], stream)
  {
    X.OfStreamConcat(items[..d], items[d..], stream);
    assert items == items[..d] + items[d..];
  }

  // --- exactly when a transfer is handed over --------------------------------------------

  /** The next message to arrive is the last chunk of the transfer. */
  ghost predicate LastArrives(u: Setup, m: Net, id: string)
    requires u.size >= 1 && id in u.plan
  {
    && m.delivered < |m.mux.sent| && m.mux.sent[m.delivered].stream == u.plan[id].stream
    && Reached(m, u.plan[id].stream) == |ScriptOf(u, id)| - 1
  }

  /** In every state after the header arrived and before the last chunk does, the transfer
      has its buffer: the header opened it and nothing has removed it. */
  ghost predicate Kept(u: Setup, n: Net, run: Schedule, id: string)
    requires u.size >= 1 && Legal(u, n, run) && id in u.plan
    decreases run
  {
    var m := Run(u, n, run);
    && (run.After? ==> Kept(u, n, run.before, id))
    && (m.delivered <= |m.mux.sent| && 1 <= Reached(m, u.plan[id].stream) < |ScriptOf(u, id)| ==>
          Some(id) in m.coord.buffers)
  }

  /** When its last chunk arrives, somebody wants the payload: always for a push, and for an
      answer if the waiter of its buffer still waits. */
  ghost predicate Wanted(u: Setup, n: Net, run: Schedule, id: string)
    requires u.size >= 1 && Legal(u, n, run) && id in u.plan
    decreases run
  {
    run.After? &&
      var m := Run(u, n, run.before);
      if run.step.Deliver? && LastArrives(u, m, id)
      then u.plan[id].kind.Push? ||
           (Some(id) in m.coord.buffers && C.IsWaiting(m.coord.futures, m.coord.buffers[Some(id)].future))
      else Wanted(u, n, run.before, id)
  }

  /** Where a transfer stands, told from its past. */
  ghost predicate Told(u: Setup, n: Net, run: Schedule, id: string)
    requires u.size >= 1 && Legal(u, n, run) && id in u.plan
  {
    var m := Run(u, n, run);
    m.delivered <= |m.mux.sent| &&
    var j, last := Reached(m, u.plan[id].stream), |ScriptOf(u, id)|;
    && (j == 0 ==> Kept(u, n, run, id))
    && (1 <= j < last ==> (Kept(u, n, run, id) <==> Some(id) in m.coord.buffers))
    && (j == last ==> (Commits(m.coord.effects, id) == [Expected(u.plan[id])] <==>
                       Kept(u, n, run, id) && Wanted(u, n, run, id)))
  }

  /** What its own message does to a transfer of which j messages have arrived. */
  ghost predicate OwnEffect(c: C.Coord, d: C.Coord, id: string, t: Transfer, j: nat, last: nat) {
    && (1 <= j < last - 1 ==> (Some(id) in d.buffers <==> Some(id) in c.buffers))
    && (1 <= j == last - 1 ==>
          (Commits(d.effects, id) == [Expected(t)] <==>
           Some(id) in c.buffers && (t.kind.Push? || C.IsWaiting(c.futures, c.buffers[Some(id)].future))))
  }

  lemma OwnTold(c: C.Coord, peer: string, id: string, t: Transfer, sc: seq<Message>, j: nat, env: C.Env)
    requires IsScript(sc, id, t) && id != "" && j < |sc| && Tracked(c, id, t, sc, j)
    ensures OwnEffect(c, C.Handle(c, peer, sc[j], env), id, t, j, |sc|)
  {
    if j >= 1 {
      if Some(id) in c.buffers {
        ChunkActive(c, peer, id, t, sc, j, env);
      } else {
        OwnMessage(c, peer, id, t, sc, j, env);
      }
    }
  }

  lemma OwnArrives(u: Setup, n: Net, run: Schedule, id: string, m: Net, h: Net)
    requires u.size >= 1 && Legal(u, n, run) && run.After? && run.step.Deliver? && id in u.plan
    requires m == Run(u, n, run.before) && h == Run(u, n, run) && Told(u, n, run.before, id)
    requires |ScriptOf(u, id)| >= 2
    requires m.delivered < |m.mux.sent| && m.mux.sent[m.delivered].stream == u.plan[id].stream
    requires h.mux == m.mux && h.delivered == m.delivered + 1
    requires Reached(m, u.plan[id].stream) < |ScriptOf(u, id)|
    requires Reached(h, u.plan[id].stream) == Reached(m, u.plan[id].stream) + 1
    requires OwnEffect(m.coord, h.coord, id, u.plan[id], Reached(m, u.plan[id].stream), |ScriptOf(u, id)|)
    ensures Told(u, n, run, id)
  {
  }

  lemma OtherArrives(u: Setup, n: Net, run: Schedule, id: string, m: Net, h: Net)
    requires u.size >= 1 && Legal(u, n, run) && run.After? && id in u.plan
    requires m == Run(u, n, run.before) && h == Run(u, n, run) && Told(u, n, run.before, id)
    requires m.delivered <= |m.mux.sent| && h.delivered <= |h.mux.sent|
    requires run.step.Deliver? ==> !LastArrives(u, m, id)
    requires Reached(h, u.plan[id].stream) == Reached(m, u.plan[id].stream)
    requires Spares(m.coord, h.coord, id)
    ensures Told(u, n, run, id)
  {
  }

  lemma DeliverTold(u: Setup, n: Net, run: Schedule, id: string, m: Net, h: Net)
    requires u.size >= 1 && Legal(u, n, run) && run.After? && run.step.Deliver? && id in u.plan
    requires m == Run(u, n, run.before) && h == Run(u, n, run) && Inv(u, m) && Told(u, n, run.before, id)
    ensures Told(u, n, run, id)
  {
    DeliverEffect(u, m, h, run.step.env, id);
    if m.mux.sent[m.delivered].stream == u.plan[id].stream {
      OwnArrives(u, n, run, id, m, h);
    } else {
      OtherArrives(u, n, run, id, m, h);
    }
  }

  /** Where a transfer stands in a state that keeps the invariant. */
  lemma Standing(u: Setup, m: Net, id: string)
    requires Inv(u, m) && id in u.plan
    ensures id != "" && IsScript(ScriptOf(u, id), id, u.plan[id])
    ensures Tracked(m.coord, id, u.plan[id], ScriptOf(u, id), Reached(m, u.plan[id].stream))
  {
    ScriptIs(u, id);
    assert FlowOf(u, m, id);
  }

  lemma OtherDelivered(m: Net, h: Net, peer: string, env: C.Env, id: string, stream: int)
    requires m.delivered < |m.mux.sent| && h == Handled(m, peer, env)
    requires m.mux.sent[m.delivered].stream != stream && m.mux.sent[m.delivered].msg.reqId != Some(id)
    ensures Reached(h, stream) == Reached(m, stream) && Spares(m.coord, h.coord, id)
  {
    OtherStream(m.mux, m.delivered, stream);
    OtherSpares(m.coord, C.Receive(peer, m.mux.sent[m.delivered].msg, env), id);
  }

  /** What the next message does to a transfer. */
  lemma DeliverEffect(u: Setup, m: Net, h: Net, env: C.Env, id: string)
    requires Inv(u, m) && m.delivered < |m.mux.sent| && id in u.plan && h == Handled(m, u.peer, env)
    ensures |ScriptOf(u, id)| >= 2
    ensures var t, last := u.plan[id], |ScriptOf(u, id)|;
            var j := Reached(m, t.stream);
            if m.mux.sent[m.delivered].stream == t.stream
            then j < last && Reached(h, t.stream) == j + 1 && OwnEffect(m.coord, h.coord, id, t, j, last)
            else Reached(h, t.stream) == j && Spares(m.coord, h.coord, id)
  {
    WhoseMessage(u, m, id);
    Standing(u, m, id);
    if m.mux.sent[m.delivered].stream == u.plan[id].stream {
      OwnDelivered(m, h, u.peer, env, id, u.plan[id], ScriptOf(u, id));
    } else {
      OtherDelivered(m, h, u.peer, env, id, u.plan[id].stream);
    }
  }

  lemma OwnDelivered(m: Net, h: Net, peer: string, env: C.Env, id: string, t: Transfer, sc: seq<Message>)
    requires m.delivered < |m.mux.sent| && id != "" && IsScript(sc, id, t) && h == Handled(m, peer, env)
    requires m.mux.sent[m.delivered].stream == t.stream && Tracked(m.coord, id, t, sc, Reached(m, t.stream))
    requires Reached(m, t.stream) < |sc| && m.mux.sent[m.delivered].msg == sc[Reached(m, t.stream)]
    ensures Reached(h, t.stream) == Reached(m, t.stream) + 1
    ensures OwnEffect(m.coord, h.coord, id, t, Reached(m, t.stream), |sc|)
  {
    OwnTold(m.coord, peer, id, t, sc, Reached(m, t.stream), env);
    OneMoreReached(m, h, t.stream);
  }

  lemma OtherTold(u: Setup, n: Net, run: Schedule, id: string, m: Net, h: Net)
    requires u.size >= 1 && Legal(u, n, run) && run.After? && !run.step.Deliver? && id in u.plan
    requires m == Run(u, n, run.before) && h == Run(u, n, run) && Inv(u, m) && Told(u, n, run.before, id)
    ensures Told(u, n, run, id)
  {
    KeepsReached(u, m, run.step);
    if run.step.Elsewhere? { OtherSpares(m.coord, run.step.event, id); }
    OtherArrives(u, n, run, id, m, h);
  }

  lemma {:induction false} RunTold(u: Setup, n: Net, run: Schedule, id: string)
    requires Initial(u, n) && Legal(u, n, run) && id in u.plan
    ensures Told(u, n, run, id)
    decreases run
  {
    InitialInv(u, n);
    ScriptIs(u, id);
    if run.Start? {
      assert n.mux.sent[..0] == [];
    } else {
      RunInv(u, n, run.before);
      RunTold(u, n, run.before, id);
      if run.step.Deliver? {
        DeliverTold(u, n, run, id, Run(u, n, run.before), Run(u, n, run));
      } else {
        OtherTold(u, n, run, id, Run(u, n, run.before), Run(u, n, run));
      }
    }
  }

  /** A transfer whose last message has arrived is handed over exactly when its header opened
      a buffer that nothing removed before that message, and somebody still wanted it. */
  lemma HandsOverExactly(u: Setup, n: Net, run: Schedule, id: string)
    requires Initial(u, n) && Legal(u, n, run) && id in u.plan
    requires var m := Run(u, n, run);
             m.delivered <= |m.mux.sent| && Reached(m, u.plan[id].stream) == |ScriptOf(u, id)|
    ensures Commits(Run(u, n, run).coord.effects, id) == [Expected(u.plan[id])] <==>
            Kept(u, n, run, id) && Wanted(u, n, run, id)
  {
    RunTold(u, n, run, id);
    ScriptIs(u, id);
  }

  /** A transfer's messages are, in order and with nothing missing: arrived, on the wire,
      lost with a failed writer, being written, queued, not yet produced. */
  ghost predicate Located(m: X.Mux, d: nat, s: int, sc: seq<Message>, k: nat)
    requires d <= |m.sent| && k <= |sc|
  {
    sc == X.OfStream(m.sent[..d], s) + X.OfStream(m.sent[d..], s)
          + X.OfStream(m.lost, s) + X.InflightOf(m, s) + X.QueueOf(m, s) + sc[k..]
  }

  lemma Locate(m: X.Mux, d: nat, s: int, sc: seq<Message>, k: nat)
    requires X.Conserved(m, s) && d <= |m.sent| && Supplied(m.accepted, s, sc, k)
    ensures Located(m, d, s, sc, k)
  {
    StreamSplit(m.sent, d, s);
    assert sc == sc[..k] + sc[k..];
  }

  lemma BufferedPart(c: C.Coord, id: string, t: Transfer, sc: seq<Message>, j: nat)
    requires IsScript(sc, id, t) && Tracked(c, id, t, sc, j) && Some(id) in c.buffers
    ensures j <= |sc| && t.payload == C.Join(c.buffers[Some(id)].parts) + Data(sc[j..])
  {
    DataConcat(sc[..j], sc[j..]);
    assert sc == sc[..j] + sc[j..];
  }

  /** Where a transfer is in any reachable state: its messages are all accounted for, and
      what has been reassembled together with what the later messages carry is the payload. */
  lemma PayloadSplit(u: Setup, n: Net, id: string)
    requires Inv(u, n) && id in u.plan
    ensures id in n.progress && n.progress[id] <= |ScriptOf(u, id)|
    ensures Located(n.mux, n.delivered, u.plan[id].stream, ScriptOf(u, id), n.progress[id])
    ensures Some(id) in n.coord.buffers ==>
              var j := Reached(n, u.plan[id].stream);
              && j <= |ScriptOf(u, id)|
              && u.plan[id].payload == C.Join(n.coord.buffers[Some(id)].parts) + Data(ScriptOf(u, id)[j..])
  {
    var t, sc := u.plan[id], ScriptOf(u, id);
    assert FlowOf(u, n, id) && X.Conserved(n.mux, t.stream);
    Locate(n.mux, n.delivered, t.stream, sc, n.progress[id]);
    if Some(id) in n.coord.buffers {
      ScriptIs(u, id);
      BufferedPart(n.coord, id, t, sc, Reached(n, t.stream));
    }
  }
}
