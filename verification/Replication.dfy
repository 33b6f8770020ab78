/** The replication coordinator of memnode/replication.py as a step system: reassembly
    buffers, waiting requests and the effects of every message and local operation. */
module Replication {
  import opened Common
  import opened Config
  import opened Messages

  datatype Mode = Store | Pull

  /** One `_ChunkBuffer`.  `future` names the waiter of a pull, and `slot` is the buffer's place
      in the order of the table. */
  datatype Buffer = Buffer(mode: Mode, totalSize: int, parts: seq<Bytes>, received: nat,
                           future: Option<nat>, startedAt: real,
                           durability: Option<Durability>, key: Option<string>, slot: nat)

  /** `Cancelled` is a waiter whose timeout fired before its coroutine resumed. */
  datatype FutureState =
    | Waiting
    | Answered(msg: Message)
    | Collected(data: Bytes)
    | Failed
    | Cancelled

  datatype Effect =
    | Reply(peer: string, msg: Message)
    | Commit(reqId: Option<string>, data: Bytes, durability: Durability, key: Option<string>)  // to the block manager
    | Gathered(reqId: Option<string>, data: Bytes)  // a pull's waiter got its payload
    | Stream(peer: string, reqId: Option<string>, data: Bytes)

  /** `futures` is every future ever created and `owners` the request each was made for.
      `slots` counts the entries made in `buffers`, whose order is that of their slots. */
  datatype Coord = Coord(
    threshold: int,
    pending: map<string, nat>,
    buffers: map<Option<string>, Buffer>,
    pulls: map<string, nat>,
    futures: seq<FutureState>,
    owners: seq<string>,
    effects: seq<Effect>,
    slots: nat)

  datatype StoreResult = StoredAs(id: int) | Rejected

  /** What the clock, the block manager and the connection answer while one message is
      handled. */
  datatype Env = Env(now: real, stored: StoreResult, loaded: Option<Bytes>, freed: bool, accepts: bool)

  function Start(threshold: int): Coord {
    Coord(threshold, map[], map[], map[], [], [], [], 0)
  }

  function Join(parts: seq<Bytes>): Bytes {
    if parts == [] then [] else Join(parts[..|parts| - 1]) + parts[|parts| - 1]
  }

  /** `if not fut.done(): fut.set_...` */
  function Settle(futures: seq<FutureState>, n: Option<nat>, outcome: FutureState): (r: seq<FutureState>)
    ensures |r| == |futures|
  {
    if n.Some? && n.value < |futures| && futures[n.value].Waiting?
    then futures[n.value := outcome] else futures
  }

  predicate IsWaiting(futures: seq<FutureState>, n: Option<nat>) {
    n.Some? && n.value < |futures| && futures[n.value].Waiting?
  }

  function Say(c: Coord, e: Effect): Coord {
    c.(effects := c.effects + [e])
  }

  // --- buffers ----------------------------------------------------------------------

  predicate Stale(b: Buffer, now: real) {
    now - b.startedAt > INBOUND_STREAM_TIMEOUT
  }

  function StaleKeys(buffers: map<Option<string>, Buffer>, now: real): set<Option<string>> {
    set rid | rid in buffers && Stale(buffers[rid], now)
  }

  /** Fails every listed future that is still waiting. */
  function FailAll(futures: seq<FutureState>, which: set<Option<nat>>): (r: seq<FutureState>)
    ensures |r| == |futures|
    ensures forall i | 0 <= i < |r| ::
              r[i] == if Some(i) in which && futures[i].Waiting? then Failed else futures[i]
  {
    if futures == [] then []
    else
      var n := |futures| - 1;
      FailAll(futures[..n], which) + [if Some(n) in which && futures[n].Waiting? then Failed else futures[n]]
  }

  function Waiters(buffers: map<Option<string>, Buffer>, keys: set<Option<string>>): set<Option<nat>>
    requires keys <= buffers.Keys
  {
    set rid | rid in keys :: buffers[rid].future
  }

  /** A stale buffer under a missing request id makes the collection raise once it has gone:
      the log line cuts the id short. */
  predicate GcRaises(c: Coord, env: Env) {
    None in StaleKeys(c.buffers, env.now)
  }

  /** What the collection removes before it ends or raises: it goes through the stale buffers in
      the order of the table. */
  function Gone(c: Coord, env: Env): (r: set<Option<string>>)
    ensures r <= c.buffers.Keys
  {
    var stale := StaleKeys(c.buffers, env.now);
    if None in stale then set rid | rid in stale && c.buffers[rid].slot <= c.buffers[None].slot else stale
  }

  function Gc(c: Coord, env: Env): Coord {
    var gone := Gone(c, env);
    c.(buffers := c.buffers - gone,
       futures := FailAll(c.futures, Waiters(c.buffers, gone - {None})))
  }

  /** An entry that is replaced keeps its place in the table, and a new one comes last. */
  function SlotFor(c: Coord, rid: Option<string>): nat {
    if rid in c.buffers then c.buffers[rid].slot else c.slots
  }

  function OpenPull(c: Coord, id: string, size: int, env: Env): Coord {
    var d := Gc(c, env);
    var n := |d.futures|;
    d.(futures := d.futures + [Waiting],
       owners := d.owners + [id],
       buffers := d.buffers[Some(id) :=
         Buffer(Pull, size, [], 0, Some(n), env.now, Some(Cache), None, SlotFor(d, Some(id)))],
       slots := d.slots + 1,
       pulls := d.pulls[id := n])
  }

  function Abort(c: Coord, reqId: Option<string>): Coord {
    if reqId.None? || reqId !in c.buffers then c
    else c.(buffers := c.buffers - {reqId},
            futures := Settle(c.futures, c.buffers[reqId].future, Failed))
  }

  function Add(b: Buffer, chunk: Bytes): Buffer {
    b.(received := b.received + |chunk|, parts := b.parts + [chunk])
  }

  function StoreReply(reqId: Option<string>, result: StoreResult): Message {
    match result
    case StoredAs(id) => BlockData(reqId, false, 0, None, Some(id))
    case Rejected => Nack(reqId)
  }

  /** The final chunk is in: `b` has already left the table. */
  function Finish(c: Coord, peer: string, reqId: Option<string>, b: Buffer, env: Env): Coord {
    var data := Join(b.parts);
    if b.mode.Pull? then
      if IsWaiting(c.futures, b.future)
      then Say(c.(futures := Settle(c.futures, b.future, Collected(data))), Gathered(reqId, data)) else c
    else if b.durability.None? then c
    else Say(Say(c, Commit(reqId, data, b.durability.value, b.key)), Reply(peer, StoreReply(reqId, env.stored)))
  }

  function Overrun(c: Coord, peer: string, reqId: Option<string>, b: Buffer): Coord {
    if b.mode.Store? then Say(c, Reply(peer, Nack(reqId)))
    else c.(futures := Settle(c.futures, b.future, Failed))
  }

  function HandleChunk(c: Coord, peer: string, msg: Message, env: Env): Coord
    requires msg.BlockChunk?
  {
    var reqId := msg.reqId;
    if reqId.None? || reqId.value == "" || reqId !in c.buffers then c
    else if msg.chunk.None? then Abort(c, reqId)
    else
      var b := Add(c.buffers[reqId], msg.chunk.value);
      var without := c.(buffers := c.buffers - {reqId});
      if b.received > b.totalSize then Overrun(without, peer, reqId, b)
      else if !msg.final then c.(buffers := c.buffers[reqId := b])
      else Finish(without, peer, reqId, b, env)
  }

  // --- serving ----------------------------------------------------------------------

  predicate Acceptable(totalSize: Option<int>) {
    totalSize.Some? && 0 < totalSize.value <= MAX_BLOCK_SIZE
  }

  function ServeStore(c: Coord, peer: string, msg: Message, env: Env): Coord
    requires msg.StoreBlock?
  {
    if msg.chunked then
      if !Acceptable(msg.totalSize) then Say(c, Reply(peer, Nack(msg.reqId)))
      else
        var d := Gc(c, env);
        if GcRaises(c, env) then d
        else if |d.buffers| >= MAX_INBOUND_STREAMS then Say(d, Reply(peer, Nack(msg.reqId)))
        else d.(buffers := d.buffers[msg.reqId :=
          Buffer(Store, msg.totalSize.value, [], 0, None, env.now, msg.durability, msg.key, SlotFor(d, msg.reqId))],
          slots := d.slots + 1)
    else if msg.payload.None? || msg.durability.None? then Say(c, Reply(peer, Nack(msg.reqId)))
    else
      var commit := Commit(msg.reqId, msg.payload.value, msg.durability.value, msg.key);
      Say(Say(c, commit), Reply(peer, StoreReply(msg.reqId, env.stored)))
  }

  function ServeRequest(c: Coord, peer: string, msg: Message, env: Env): Coord
    requires msg.RequestBlock?
  {
    if env.loaded.None? then Say(c, Reply(peer, BlockNotFound(msg.reqId)))
    else
      var data := env.loaded.value;
      if |data| <= c.threshold then Say(c, Reply(peer, BlockData(msg.reqId, false, 0, Some(data), None)))
      else
        var announced := Say(c, Reply(peer, BlockData(msg.reqId, true, |data|, None, None)));
        if env.accepts then Say(announced, Stream(peer, msg.reqId, data)) else announced
  }

  /** A header opens its pull buffer before the waiter is settled. */
  function Resolve(c: Coord, id: string, msg: Message, env: Env): Coord
    requires id in c.pending
  {
    var header := msg.BlockData? && msg.chunked;
    if header && GcRaises(c, env) then Gc(c, env)
    else
      var d := if header then OpenPull(c, id, msg.size, env) else c;
      d.(pending := d.pending - {id}, futures := Settle(d.futures, Some(d.pending[id]), Answered(msg)))
  }

  /** A reply to a request of our own, rather than a request to serve. */
  predicate IsAnswer(c: Coord, msg: Message) {
    !msg.BlockChunk? && !msg.StreamAbort? && msg.reqId.Some? && msg.reqId.value in c.pending
  }

  function Handle(c: Coord, peer: string, msg: Message, env: Env): Coord {
    if msg.BlockChunk? then HandleChunk(c, peer, msg, env)
    else if msg.StreamAbort? then Abort(c, msg.reqId)
    else if IsAnswer(c, msg) then Resolve(c, msg.reqId.value, msg, env)
    else
      match msg
      case StoreBlock(_, _, _, _, _, _) => ServeStore(c, peer, msg, env)
      case RequestBlock(_, _, _) => ServeRequest(c, peer, msg, env)
      case FreeBlock(reqId, _) => Say(c, Reply(peer, Freed(reqId, env.freed)))
      case Ping(reqId) => Say(c, Reply(peer, Pong(reqId)))
      case _ => c
  }

  // --- local requests ---------------------------------------------------------------

  function Register(c: Coord, id: string): Coord {
    c.(futures := c.futures + [Waiting], owners := c.owners + [id], pending := c.pending[id := |c.futures|])
  }

  datatype Event =
    | Receive(peer: string, msg: Message, env: Env)
    | Begin(id: string)                 // store_remote or load_remote registers its waiter
    | Timeout(future: nat)
    | EndStore(id: string)
    | EndLoad(id: string)

  function Apply(c: Coord, ev: Event): Coord {
    match ev
    case Receive(peer, msg, env) => Handle(c, peer, msg, env)
    case Begin(id) => Register(c, id)
    case Timeout(n) => c.(futures := Settle(c.futures, Some(n), Cancelled))
    case EndStore(id) => c.(pending := c.pending - {id})
    case EndLoad(id) => c.(pending := c.pending - {id}, buffers := c.buffers - {Some(id)}, pulls := c.pulls - {id})
  }

  datatype History = Nothing | After(before: History, event: Event)

  function Run(c: Coord, h: History): Coord {
    match h
    case Nothing => c
    case After(before, ev) => Apply(Run(c, before), ev)
  }
}
