/** What the coordinator keeps over every history of messages, timeouts and local
    requests, whoever the peers are. */
module ReplicationTheorems {
  import opened Common
  import opened Config
  import opened Messages
  import opened Replication
  import opened Sums

  /** `d` is `c` but for its effects. */
  predicate OnlySays(c: Coord, d: Coord) {
    d == c.(effects := d.effects)
  }

  /** Serving anything but a store only says something. */
  lemma ServesQuietly(c: Coord, peer: string, msg: Message, env: Env)
    requires !msg.BlockChunk? && !msg.StreamAbort? && !msg.StoreBlock? && !IsAnswer(c, msg)
    ensures OnlySays(c, Handle(c, peer, msg, env))
  {
  }

  /** Ending a transfer changes at most the transfer's own future. */
  lemma FinishShape(c: Coord, peer: string, reqId: Option<string>, b: Buffer, env: Env)
    ensures var d := Finish(c, peer, reqId, b, env);
            OnlySays(c, d) || OnlySays(c.(futures := Settle(c.futures, b.future, Collected(Join(b.parts)))), d)
    ensures var d := Overrun(c, peer, reqId, b);
            OnlySays(c, d) || OnlySays(c.(futures := Settle(c.futures, b.future, Failed)), d)
  {
  }

  /** The cases of a chunk, as what becomes of its buffer and of its future. */
  lemma ChunkShape(c: Coord, peer: string, msg: Message, env: Env)
    requires msg.BlockChunk?
    ensures var d := HandleChunk(c, peer, msg, env);
            var id := msg.reqId;
            || d == c
            || (&& id.Some? && id in c.buffers && msg.chunk.Some?
                && Add(c.buffers[id], msg.chunk.value).received <= c.buffers[id].totalSize
                && d == c.(buffers := c.buffers[id := Add(c.buffers[id], msg.chunk.value)]))
            || (&& id.Some? && id in c.buffers
                && exists outcome: FutureState :: !outcome.Answered? && !outcome.Waiting?
                     && d == c.(buffers := c.buffers - {id}, effects := d.effects,
                                futures := Settle(c.futures, c.buffers[id].future, outcome)))
            || (id.Some? && id in c.buffers && d == c.(buffers := c.buffers - {id}, effects := d.effects))
  {
    var d, id := HandleChunk(c, peer, msg, env), msg.reqId;
    if id.Some? && id.value != "" && id in c.buffers && msg.chunk.Some? {
      var b := Add(c.buffers[id], msg.chunk.value);
      var without := c.(buffers := c.buffers - {id});
      FinishShape(without, peer, id, b, env);
      if b.received > b.totalSize {
        assert d == Overrun(without, peer, id, b);
      } else if msg.final {
        assert d == Finish(without, peer, id, b, env);
      }
    }
  }

  function NewPush(msg: Message, env: Env, slot: nat): Buffer
    requires msg.StoreBlock? && msg.totalSize.Some?
  {
    Buffer(Store, msg.totalSize.value, [], 0, None, env.now, msg.durability, msg.key, slot)
  }

  /** A store request is answered at once or leaves a fresh buffer without a future. */
  lemma ServeStoreShape(c: Coord, peer: string, msg: Message, env: Env)
    requires msg.StoreBlock?
    ensures var d, g := ServeStore(c, peer, msg, env), Gc(c, env);
            || OnlySays(c, d)
            || OnlySays(g, d)
            || (&& Acceptable(msg.totalSize) && |g.buffers| < MAX_INBOUND_STREAMS
                && d == g.(buffers := g.buffers[msg.reqId := NewPush(msg, env, SlotFor(g, msg.reqId))],
                           slots := g.slots + 1))
  {
  }

  // --- bounded reassembly -------------------------------------------------------------

  ghost predicate BufferOk(b: Buffer) {
    && b.received == |Join(b.parts)|
    && (b.parts != [] ==> b.received <= b.totalSize)
    && (b.mode.Store? ==> 0 < b.totalSize <= MAX_BLOCK_SIZE)
  }

  function StoreKeys(c: Coord): set<Option<string>> {
    set rid | rid in c.buffers && c.buffers[rid].mode.Store?
  }

  ghost predicate Bounded(c: Coord) {
    && (forall rid <- c.buffers :: BufferOk(c.buffers[rid]))
    && |StoreKeys(c)| <= MAX_INBOUND_STREAMS
  }

  /** Dropping buffers keeps the bounds. */
  lemma ShrinkBounded(c: Coord, d: Coord)
    requires Bounded(c) && d.buffers.Keys <= c.buffers.Keys
    requires forall rid <- d.buffers :: d.buffers[rid] == c.buffers[rid]
    ensures Bounded(d)
  {
    assert StoreKeys(d) <= StoreKeys(c);
    SubsetSize(StoreKeys(d), StoreKeys(c));
  }

  lemma JoinSnoc(parts: seq<Bytes>, chunk: Bytes)
    ensures Join(parts + [chunk]) == Join(parts) + chunk
  {
    assert (parts + [chunk])[..|parts|] == parts;
  }

  /** One more chunk in a buffer. */
  lemma AddBounded(c: Coord, id: Option<string>, chunk: Bytes)
    requires Bounded(c) && id in c.buffers && Add(c.buffers[id], chunk).received <= c.buffers[id].totalSize
    ensures Bounded(c.(buffers := c.buffers[id := Add(c.buffers[id], chunk)]))
  {
    var d := c.(buffers := c.buffers[id := Add(c.buffers[id], chunk)]);
    JoinSnoc(c.buffers[id].parts, chunk);
    assert StoreKeys(d) == StoreKeys(c);
  }

  lemma ChunkBounded(c: Coord, peer: string, msg: Message, env: Env)
    requires Bounded(c) && msg.BlockChunk?
    ensures Bounded(HandleChunk(c, peer, msg, env))
  {
    var d, id := HandleChunk(c, peer, msg, env), msg.reqId;
    ChunkShape(c, peer, msg, env);
    if d.buffers.Keys == c.buffers.Keys && d != c {
      AddBounded(c, id, msg.chunk.value);
    } else {
      ShrinkBounded(c, d);
    }
  }

  lemma PushBounded(g: Coord, reqId: Option<string>, b: Buffer)
    requires Bounded(g) && BufferOk(b) && |g.buffers| < MAX_INBOUND_STREAMS
    ensures Bounded(g.(buffers := g.buffers[reqId := b], slots := g.slots + 1))
  {
    var d := g.(buffers := g.buffers[reqId := b], slots := g.slots + 1);
    SubsetSize(StoreKeys(d), g.buffers.Keys + {reqId});
  }

  lemma ServeStoreBounded(c: Coord, peer: string, msg: Message, env: Env)
    requires Bounded(c) && msg.StoreBlock?
    ensures Bounded(ServeStore(c, peer, msg, env))
  {
    var g, d := Gc(c, env), ServeStore(c, peer, msg, env);
    ShrinkBounded(c, g);
    ServeStoreShape(c, peer, msg, env);
    if OnlySays(c, d) || OnlySays(g, d) {
      ShrinkBounded(c, d);
    } else {
      PushBounded(g, msg.reqId, NewPush(msg, env, SlotFor(g, msg.reqId)));
    }
  }

  lemma ResolveBounded(c: Coord, id: string, msg: Message, env: Env)
    requires Bounded(c) && id in c.pending
    ensures Bounded(Resolve(c, id, msg, env))
  {
    var g, d := Gc(c, env), Resolve(c, id, msg, env);
    ShrinkBounded(c, g);
    if msg.BlockData? && msg.chunked {
      assert StoreKeys(d) <= StoreKeys(g);
      SubsetSize(StoreKeys(d), StoreKeys(g));
    } else {
      ShrinkBounded(c, d);
    }
  }

  lemma StepBounded(c: Coord, ev: Event)
    requires Bounded(c)
    ensures Bounded(Apply(c, ev))
  {
    if ev.Receive? && ev.msg.BlockChunk? {
      ChunkBounded(c, ev.peer, ev.msg, ev.env);
    } else if ev.Receive? && IsAnswer(c, ev.msg) {
      ResolveBounded(c, ev.msg.reqId.value, ev.msg, ev.env);
    } else if ev.Receive? && ev.msg.StoreBlock? {
      ServeStoreBounded(c, ev.peer, ev.msg, ev.env);
    } else {
      ShrinkBounded(c, Apply(c, ev));
    }
  }

  function Received(b: Buffer): nat {
    b.received
  }

  /** The bytes held for inbound pushes. */
  ghost function HeldBytes(c: Coord): nat {
    SumOf(map rid | rid in StoreKeys(c) :: c.buffers[rid], Received)
  }

  lemma HeldBounded(c: Coord)
    requires Bounded(c)
    ensures HeldBytes(c) <= MAX_INBOUND_STREAMS * MAX_BLOCK_SIZE
  {
    var pushes := map rid | rid in StoreKeys(c) :: c.buffers[rid];
    assert pushes.Keys == StoreKeys(c);
    assert forall rid <- pushes :: Received(pushes[rid]) <= MAX_BLOCK_SIZE;
    SumAtMost(pushes, Received, MAX_BLOCK_SIZE);
  }

  /** Whatever peers send, at most MAX_INBOUND_STREAMS pushes are being reassembled, each
      holds at most the size it declared, and together they hold at most
      MAX_INBOUND_STREAMS blocks. */
  lemma {:induction false} ReassemblyBounded(threshold: int, h: History)
    ensures Bounded(Run(Start(threshold), h))
    ensures HeldBytes(Run(Start(threshold), h)) <= MAX_INBOUND_STREAMS * MAX_BLOCK_SIZE
    decreases h
  {
    if h.After? {
      ReassemblyBounded(threshold, h.before);
      StepBounded(Run(Start(threshold), h.before), h.event);
    }
    HeldBounded(Run(Start(threshold), h));
  }

  // --- at most one answer a request ---------------------------------------------------

  predicate IsVerdict(e: Effect, reqId: Option<string>) {
    e.Reply? && (e.msg.Nack? || e.msg.BlockData?) && e.msg.reqId == reqId
  }

  function Verdicts(effects: seq<Effect>, reqId: Option<string>): nat {
    if effects == [] then 0
    else Verdicts(effects[..|effects| - 1], reqId) + if IsVerdict(effects[|effects| - 1], reqId) then 1 else 0
  }

  /** An inbound push whose answer is still to come. */
  function Open(c: Coord, reqId: Option<string>): nat {
    if reqId in c.buffers && c.buffers[reqId].mode.Store? then 1 else 0
  }

  function Asks(ev: Event, reqId: Option<string>): nat {
    if ev.Receive? && (ev.msg.StoreBlock? || ev.msg.RequestBlock?) && ev.msg.reqId == reqId then 1 else 0
  }

  function Asked(h: History, reqId: Option<string>): nat {
    match h
    case Nothing => 0
    case After(before, ev) => Asked(before, reqId) + Asks(ev, reqId)
  }

  lemma SaySnoc(c: Coord, e: Effect, reqId: Option<string>)
    ensures Verdicts(Say(c, e).effects, reqId) == Verdicts(c.effects, reqId) + if IsVerdict(e, reqId) then 1 else 0
  {
    assert (c.effects + [e])[..|c.effects|] == c.effects;
  }

  lemma FinishVerdicts(c: Coord, peer: string, id: Option<string>, b: Buffer, env: Env, reqId: Option<string>)
    ensures Verdicts(Finish(c, peer, id, b, env).effects, reqId) <=
            Verdicts(c.effects, reqId) + if id == reqId && b.mode.Store? then 1 else 0
  {
    var data := Join(b.parts);
    SaySnoc(c, Gathered(id, data), reqId);
    if b.durability.Some? {
      var commit := Commit(id, data, b.durability.value, b.key);
      SaySnoc(c, commit, reqId);
      SaySnoc(Say(c, commit), Reply(peer, StoreReply(id, env.stored)), reqId);
    }
  }

  lemma ChunkVerdicts(c: Coord, peer: string, msg: Message, env: Env, reqId: Option<string>)
    requires msg.BlockChunk?
    ensures var d := HandleChunk(c, peer, msg, env);
            Verdicts(d.effects, reqId) + Open(d, reqId) <= Verdicts(c.effects, reqId) + Open(c, reqId)
  {
    var id := msg.reqId;
    if id.Some? && id.value != "" && id in c.buffers && msg.chunk.Some? {
      var b := Add(c.buffers[id], msg.chunk.value);
      var without := c.(buffers := c.buffers - {id});
      if b.received > b.totalSize {
        SaySnoc(without, Reply(peer, Nack(id)), reqId);
      } else if msg.final {
        FinishShape(without, peer, id, b, env);
        FinishVerdicts(without, peer, id, b, env, reqId);
      }
    }
  }

  lemma ServeStoreVerdicts(c: Coord, peer: string, msg: Message, env: Env, reqId: Option<string>)
    requires msg.StoreBlock?
    ensures var d := ServeStore(c, peer, msg, env);
            Verdicts(d.effects, reqId) + Open(d, reqId) <=
            Verdicts(c.effects, reqId) + Open(c, reqId) + Asks(Receive(peer, msg, env), reqId)
  {
    if msg.chunked {
      OpenStoreVerdicts(c, peer, msg, env, reqId);
    } else {
      InlineStoreVerdicts(c, peer, msg, env, reqId);
    }
  }

  lemma SayTwo(c: Coord, a: Effect, b: Effect, reqId: Option<string>)
    ensures Verdicts(Say(Say(c, a), b).effects, reqId) ==
            Verdicts(c.effects, reqId) + (if IsVerdict(a, reqId) then 1 else 0) + (if IsVerdict(b, reqId) then 1 else 0)
  {
    SaySnoc(c, a, reqId);
    SaySnoc(Say(c, a), b, reqId);
  }

  lemma InlineStoreVerdicts(c: Coord, peer: string, msg: Message, env: Env, reqId: Option<string>)
    requires msg.StoreBlock? && !msg.chunked
    ensures var d := ServeStore(c, peer, msg, env);
            && Verdicts(d.effects, reqId) <= Verdicts(c.effects, reqId) + (if msg.reqId == reqId then 1 else 0)
            && d.buffers == c.buffers
  {
    if msg.payload.None? || msg.durability.None? {
      var nack := Reply(peer, Nack(msg.reqId));
      assert ServeStore(c, peer, msg, env) == Say(c, nack);
      SaySnoc(c, nack, reqId);
    } else {
      var commit := Commit(msg.reqId, msg.payload.value, msg.durability.value, msg.key);
      var reply := Reply(peer, StoreReply(msg.reqId, env.stored));
      assert ServeStore(c, peer, msg, env) == Say(Say(c, commit), reply);
      SayTwo(c, commit, reply, reqId);
    }
  }

  lemma OpenStoreVerdicts(c: Coord, peer: string, msg: Message, env: Env, reqId: Option<string>)
    requires msg.StoreBlock? && msg.chunked
    ensures var d := ServeStore(c, peer, msg, env);
            Verdicts(d.effects, reqId) + Open(d, reqId) <=
            Verdicts(c.effects, reqId) + Open(c, reqId) + if msg.reqId == reqId then 1 else 0
  {
    var g, d := Gc(c, env), ServeStore(c, peer, msg, env);
    assert g.effects == c.effects && Open(g, reqId) <= Open(c, reqId);
    if !Acceptable(msg.totalSize) {
      SaySnoc(c, Reply(peer, Nack(msg.reqId)), reqId);
    } else if |g.buffers| >= MAX_INBOUND_STREAMS {
      SaySnoc(g, Reply(peer, Nack(msg.reqId)), reqId);
    } else {
      assert d.effects == c.effects;
    }
  }

  lemma ServeRequestVerdicts(c: Coord, peer: string, msg: Message, env: Env, reqId: Option<string>)
    requires msg.RequestBlock?
    ensures var d := ServeRequest(c, peer, msg, env);
            Verdicts(d.effects, reqId) + Open(d, reqId) <=
            Verdicts(c.effects, reqId) + Open(c, reqId) + Asks(Receive(peer, msg, env), reqId)
  {
    if env.loaded.None? {
      SaySnoc(c, Reply(peer, BlockNotFound(msg.reqId)), reqId);
    } else {
      var data := env.loaded.value;
      var header := BlockData(msg.reqId, true, |data|, None, None);
      SaySnoc(c, Reply(peer, BlockData(msg.reqId, false, 0, Some(data), None)), reqId);
      SaySnoc(c, Reply(peer, header), reqId);
      SaySnoc(Say(c, Reply(peer, header)), Stream(peer, msg.reqId, data), reqId);
    }
  }

  lemma StepVerdicts(c: Coord, ev: Event, reqId: Option<string>)
    ensures var d := Apply(c, ev);
            Verdicts(d.effects, reqId) + Open(d, reqId) <=
            Verdicts(c.effects, reqId) + Open(c, reqId) + Asks(ev, reqId)
  {
    if ev.Receive? && ev.msg.BlockChunk? {
      ChunkVerdicts(c, ev.peer, ev.msg, ev.env, reqId);
    } else if ev.Receive? && !IsAnswer(c, ev.msg) {
      if ev.msg.StoreBlock? {
        ServeStoreVerdicts(c, ev.peer, ev.msg, ev.env, reqId);
      } else if ev.msg.RequestBlock? {
        ServeRequestVerdicts(c, ev.peer, ev.msg, ev.env, reqId);
      } else {
        OtherVerdicts(c, ev.peer, ev.msg, ev.env, reqId);
      }
    } else if ev.Receive? {
      assert Verdicts(Handle(c, ev.peer, ev.msg, ev.env).effects, reqId) == Verdicts(c.effects, reqId);
      assert Open(Handle(c, ev.peer, ev.msg, ev.env), reqId) <= Open(c, reqId);
    }
  }

  lemma OtherVerdicts(c: Coord, peer: string, msg: Message, env: Env, reqId: Option<string>)
    requires !msg.BlockChunk? && !msg.StoreBlock? && !msg.RequestBlock? && !IsAnswer(c, msg)
    ensures var d := Handle(c, peer, msg, env);
            Verdicts(d.effects, reqId) == Verdicts(c.effects, reqId) && Open(d, reqId) <= Open(c, reqId)
  {
    SaySnoc(c, Reply(peer, Freed(msg.reqId, env.freed)), reqId);
    SaySnoc(c, Reply(peer, Pong(msg.reqId)), reqId);
  }

  /** Answers to a request id, plus the push still open under it, never outnumber the
      requests received under it: with distinct ids each gets at most one answer, and a
      push that was answered is no longer open. */
  lemma {:induction false} AnswersBounded(threshold: int, h: History, reqId: Option<string>)
    ensures var c := Run(Start(threshold), h);
            Verdicts(c.effects, reqId) + Open(c, reqId) <= Asked(h, reqId)
    decreases h
  {
    if h.After? {
      AnswersBounded(threshold, h.before, reqId);
      StepVerdicts(Run(Start(threshold), h.before), h.event, reqId);
    }
  }

  // --- waiters --------------------------------------------------------------------------

  /** Table entries name futures made for their own request. */
  ghost predicate TableOk(table: map<string, nat>, owners: seq<string>) {
    forall id <- table :: table[id] < |owners| && owners[table[id]] == id
  }

  ghost predicate WaiterOk(rid: Option<string>, future: Option<nat>, owners: seq<string>) {
    future.Some? ==> rid.Some? && future.value < |owners| && owners[future.value] == rid.value
  }

  ghost predicate BuffersOk(buffers: map<Option<string>, Buffer>, owners: seq<string>) {
    forall rid <- buffers :: WaiterOk(rid, buffers[rid].future, owners)
  }

  /** An answered future holds a message of its own request. */
  ghost predicate FuturesOk(futures: seq<FutureState>, owners: seq<string>) {
    && |futures| == |owners|
    && forall n | 0 <= n < |futures| :: futures[n].Answered? ==> futures[n].msg.reqId == Some(owners[n])
  }

  ghost predicate Correlated(c: Coord) {
    && TableOk(c.pending, c.owners)
    && TableOk(c.pulls, c.owners)
    && BuffersOk(c.buffers, c.owners)
    && FuturesOk(c.futures, c.owners)
  }

  lemma ChunkCorrelated(c: Coord, peer: string, msg: Message, env: Env)
    requires Correlated(c) && msg.BlockChunk?
    ensures Correlated(HandleChunk(c, peer, msg, env))
  {
    ChunkShape(c, peer, msg, env);
  }

  lemma GcCorrelated(c: Coord, env: Env)
    requires Correlated(c)
    ensures Correlated(Gc(c, env))
  {
  }

  /** Making one more future leaves the old entries right. */
  lemma GrowOk(c: Coord, id: string)
    requires Correlated(c)
    ensures var owners := c.owners + [id];
            && TableOk(c.pending, owners) && TableOk(c.pulls, owners) && BuffersOk(c.buffers, owners)
            && FuturesOk(c.futures + [Waiting], owners)
            && owners[|c.futures|] == id
  {
    assert forall rid <- c.buffers :: WaiterOk(rid, c.buffers[rid].future, c.owners);
  }

  lemma OpenPullCorrelated(c: Coord, id: string, size: int, env: Env)
    requires Correlated(c)
    ensures Correlated(OpenPull(c, id, size, env))
  {
    GcCorrelated(c, env);
    GrowOk(Gc(c, env), id);
  }

  lemma ResolveCorrelated(c: Coord, id: string, msg: Message, env: Env)
    requires Correlated(c) && id in c.pending && msg.reqId == Some(id)
    ensures Correlated(Resolve(c, id, msg, env))
  {
    if msg.BlockData? && msg.chunked { OpenPullCorrelated(c, id, msg.size, env); }
  }

  lemma ServeStoreCorrelated(c: Coord, peer: string, msg: Message, env: Env)
    requires Correlated(c) && msg.StoreBlock?
    ensures Correlated(ServeStore(c, peer, msg, env))
  {
    GcCorrelated(c, env);
    ServeStoreShape(c, peer, msg, env);
  }

  lemma StepCorrelated(c: Coord, ev: Event)
    requires Correlated(c)
    ensures Correlated(Apply(c, ev))
  {
    match ev
    case Receive(peer, msg, env) =>
      if msg.BlockChunk? {
        ChunkCorrelated(c, peer, msg, env);
      } else if msg.StreamAbort? {
        assert Correlated(Abort(c, msg.reqId));
      } else if IsAnswer(c, msg) {
        ResolveCorrelated(c, msg.reqId.value, msg, env);
      } else if msg.StoreBlock? {
        ServeStoreCorrelated(c, peer, msg, env);
      } else {
        ServesQuietly(c, peer, msg, env);
      }
    case Begin(id) => GrowOk(c, id);
    case _ =>
  }

  /** What a pull collected was handed over under the request its future was made for. */
  ghost predicate CollectedOk(c: Coord) {
    forall n | 0 <= n < |c.futures| && n < |c.owners| && c.futures[n].Collected? ::
      Gathered(Some(c.owners[n]), c.futures[n].data) in c.effects
  }

  /** Nothing more is collected, and nothing said is taken back. */
  lemma CollectedStays(c: Coord, d: Coord)
    requires CollectedOk(c) && |c.futures| == |c.owners| && c.owners <= d.owners && c.effects <= d.effects
    requires forall n | 0 <= n < |d.futures| && d.futures[n].Collected? ::
               n < |c.futures| && c.futures[n] == d.futures[n]
    ensures CollectedOk(d)
  {
  }

  lemma FinishCollected(c: Coord, peer: string, id: Option<string>, b: Buffer, env: Env)
    requires CollectedOk(c) && |c.futures| == |c.owners| && WaiterOk(id, b.future, c.owners)
    ensures CollectedOk(Finish(c, peer, id, b, env))
  {
    var d, data := Finish(c, peer, id, b, env), Join(b.parts);
    if b.mode.Pull? && IsWaiting(c.futures, b.future) {
      assert Gathered(id, data) in d.effects;
      assert forall e <- c.effects :: e in d.effects;
    } else {
      CollectedStays(c, d);
    }
  }

  lemma ChunkCollected(c: Coord, peer: string, msg: Message, env: Env)
    requires Correlated(c) && CollectedOk(c) && msg.BlockChunk?
    ensures CollectedOk(HandleChunk(c, peer, msg, env))
  {
    var id, d := msg.reqId, HandleChunk(c, peer, msg, env);
    if id.Some? && id.value != "" && id in c.buffers && msg.chunk.Some? {
      var b := Add(c.buffers[id], msg.chunk.value);
      var without := c.(buffers := c.buffers - {id});
      assert WaiterOk(id, c.buffers[id].future, c.owners);
      if b.received <= b.totalSize && msg.final {
        FinishCollected(without, peer, id, b, env);
      } else {
        CollectedStays(c, d);
      }
    } else {
      CollectedStays(c, d);
    }
  }

  lemma GcCollected(c: Coord, env: Env)
    requires CollectedOk(c) && |c.futures| == |c.owners|
    ensures CollectedOk(Gc(c, env))
  {
    CollectedStays(c, Gc(c, env));
  }

  lemma ServeStoreSays(c: Coord, peer: string, msg: Message, env: Env)
    requires msg.StoreBlock?
    ensures c.effects <= ServeStore(c, peer, msg, env).effects
  {
  }

  lemma ServeStoreCollected(c: Coord, peer: string, msg: Message, env: Env)
    requires CollectedOk(c) && |c.futures| == |c.owners| && msg.StoreBlock?
    ensures CollectedOk(ServeStore(c, peer, msg, env))
  {
    var g, d := Gc(c, env), ServeStore(c, peer, msg, env);
    GcCollected(c, env);
    ServeStoreSays(c, peer, msg, env);
    ServeStoreShape(c, peer, msg, env);
    if d.futures == c.futures { CollectedStays(c, d); } else { CollectedStays(g, d); }
  }

  lemma ServeCollected(c: Coord, peer: string, msg: Message, env: Env)
    requires CollectedOk(c) && |c.futures| == |c.owners|
    requires !msg.BlockChunk? && !msg.StreamAbort? && !msg.StoreBlock? && !IsAnswer(c, msg)
    ensures CollectedOk(Handle(c, peer, msg, env))
  {
    var d := Handle(c, peer, msg, env);
    ServesQuietly(c, peer, msg, env);
    assert c.effects <= d.effects;
    CollectedStays(c, d);
  }

  lemma ResolveCollected(c: Coord, id: string, msg: Message, env: Env)
    requires CollectedOk(c) && |c.futures| == |c.owners| && id in c.pending
    ensures CollectedOk(Resolve(c, id, msg, env))
  {
    var d := Resolve(c, id, msg, env);
    assert d.effects == c.effects && c.owners <= d.owners;
    CollectedStays(c, d);
  }

  lemma LocalCollected(c: Coord, ev: Event)
    requires CollectedOk(c) && |c.futures| == |c.owners| && (ev.Receive? ==> ev.msg.StreamAbort?)
    ensures CollectedOk(Apply(c, ev))
  {
    var d := Apply(c, ev);
    assert d.effects == c.effects && c.owners <= d.owners;
    CollectedStays(c, d);
  }

  lemma StepCollected(c: Coord, ev: Event)
    requires Correlated(c) && CollectedOk(c)
    ensures CollectedOk(Apply(c, ev))
  {
    if !ev.Receive? || ev.msg.StreamAbort? {
      LocalCollected(c, ev);
    } else if ev.msg.BlockChunk? {
      ChunkCollected(c, ev.peer, ev.msg, ev.env);
    } else if IsAnswer(c, ev.msg) {
      ResolveCollected(c, ev.msg.reqId.value, ev.msg, ev.env);
    } else if ev.msg.StoreBlock? {
      ServeStoreCollected(c, ev.peer, ev.msg, ev.env);
    } else {
      ServeCollected(c, ev.peer, ev.msg, ev.env);
    }
  }

  /** Replies are never confused: whatever arrives, a waiter is only ever answered by a message
      that carries its own request id, and gets only what was collected under that id. */
  lemma {:induction false} NeverConfused(threshold: int, h: History)
    ensures Correlated(Run(Start(threshold), h)) && CollectedOk(Run(Start(threshold), h))
    decreases h
  {
    if h.After? {
      NeverConfused(threshold, h.before);
      StepCorrelated(Run(Start(threshold), h.before), h.event);
      StepCollected(Run(Start(threshold), h.before), h.event);
    }
  }

  ghost predicate Settles(old': seq<FutureState>, new': seq<FutureState>) {
    && |old'| <= |new'|
    && forall n | 0 <= n < |old'| && !old'[n].Waiting? :: new'[n] == old'[n]
  }

  lemma ChunkSettles(c: Coord, peer: string, msg: Message, env: Env)
    requires msg.BlockChunk?
    ensures Settles(c.futures, HandleChunk(c, peer, msg, env).futures)
  {
    ChunkShape(c, peer, msg, env);
  }

  lemma ResolveSettles(c: Coord, id: string, msg: Message, env: Env)
    requires id in c.pending
    ensures Settles(c.futures, Resolve(c, id, msg, env).futures)
  {
    assert Settles(c.futures, Gc(c, env).futures);
  }

  lemma StepSettles(c: Coord, ev: Event)
    ensures Settles(c.futures, Apply(c, ev).futures)
  {
    if ev.Receive? && ev.msg.BlockChunk? {
      ChunkSettles(c, ev.peer, ev.msg, ev.env);
    } else if ev.Receive? && IsAnswer(c, ev.msg) {
      ResolveSettles(c, ev.msg.reqId.value, ev.msg, ev.env);
    } else if ev.Receive? && ev.msg.StoreBlock? {
      assert Settles(c.futures, Gc(c, ev.env).futures);
      ServeStoreShape(c, ev.peer, ev.msg, ev.env);
    } else if ev.Receive? && !ev.msg.StreamAbort? {
      ServesQuietly(c, ev.peer, ev.msg, ev.env);
    }
  }

  /** A waiter is resolved at most once: once settled, its outcome never changes. */
  lemma {:induction false} SettledOnce(c: Coord, h: History, n: nat)
    requires n < |c.futures| && !c.futures[n].Waiting?
    ensures n < |Run(c, h).futures| && Run(c, h).futures[n] == c.futures[n]
    decreases h
  {
    if h.After? {
      SettledOnce(c, h.before, n);
      StepSettles(Run(c, h.before), h.event);
    }
  }

  // --- cleanup ----------------------------------------------------------------------------

  predicate Absent(c: Coord, id: string) {
    id !in c.pending && Some(id) !in c.buffers && id !in c.pulls
  }

  /** The only events that may bring a request id back. */
  predicate Revives(ev: Event, id: string) {
    ev == Begin(id) || (ev.Receive? && ev.msg.StoreBlock? && ev.msg.reqId == Some(id))
  }

  predicate Reused(h: History, id: string) {
    h.After? && (Reused(h.before, id) || Revives(h.event, id))
  }

  lemma HandleAbsent(c: Coord, peer: string, msg: Message, env: Env, id: string)
    requires Absent(c, id) && !Revives(Receive(peer, msg, env), id)
    ensures Absent(Handle(c, peer, msg, env), id)
  {
    if msg.BlockChunk? {
      ChunkShape(c, peer, msg, env);
    } else if msg.StreamAbort? {
      assert Absent(Abort(c, msg.reqId), id);
    } else if IsAnswer(c, msg) {
      assert Absent(Resolve(c, msg.reqId.value, msg, env), id);
    } else if msg.StoreBlock? {
      ServeStoreShape(c, peer, msg, env);
    } else {
      ServesQuietly(c, peer, msg, env);
    }
  }

  /** Once a load has ended by any path, no late header, chunk or timeout brings an entry
      for it back into any table. */
  lemma {:induction false} LoadLeavesNothing(c: Coord, id: string, h: History)
    requires !Reused(h, id)
    ensures Absent(Run(Apply(c, EndLoad(id)), h), id)
    decreases h
  {
    if h.After? {
      LoadLeavesNothing(c, id, h.before);
      if h.event.Receive? {
        HandleAbsent(Run(Apply(c, EndLoad(id)), h.before), h.event.peer, h.event.msg, h.event.env, id);
      }
    }
  }

  /** The pull table gains an entry exactly when a chunked reply meets a waiting request,
      of whatever kind, and collection does not raise; it loses it only when a load ends.  A store that is answered by a
      chunked reply therefore leaves its entry behind. */
  lemma PullEntryExactly(c: Coord, ev: Event, id: string)
    ensures id in Apply(c, ev).pulls <==>
            || (id in c.pulls && ev != EndLoad(id))
            || (&& ev.Receive? && IsAnswer(c, ev.msg) && ev.msg.BlockData? && ev.msg.chunked
                && ev.msg.reqId == Some(id) && !GcRaises(c, ev.env))
  {
    if ev.Receive? {
      if ev.msg.BlockChunk? {
        ChunkShape(c, ev.peer, ev.msg, ev.env);
      } else if !ev.msg.StreamAbort? && !IsAnswer(c, ev.msg) {
        if ev.msg.StoreBlock? {
          ServeStoreShape(c, ev.peer, ev.msg, ev.env);
        } else {
          ServesQuietly(c, ev.peer, ev.msg, ev.env);
        }
      }
    }
  }
}
