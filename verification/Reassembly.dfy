/** What a reassembled block is made of, and how many reassemblies there can be, for any
    messages from any peers: senders need not follow `_send_chunks`. */
module Reassembly {
  import opened Common
  import opened Config
  import opened Messages
  import opened Replication
  import opened ReplicationTheorems
  import opened Sums

  // --- what a buffer holds --------------------------------------------------------------

  /** A push header that passes every test of the code. */
  predicate OpensPush(c: Coord, ev: Event, rid: Option<string>) {
    && ev.Receive? && ev.msg.StoreBlock? && ev.msg.chunked && ev.msg.reqId == rid && !IsAnswer(c, ev.msg)
    && Acceptable(ev.msg.totalSize) && !GcRaises(c, ev.env) && |Gc(c, ev.env).buffers| < MAX_INBOUND_STREAMS
  }

  /** A chunked answer to a request that waits. */
  predicate OpensPull(c: Coord, ev: Event, rid: Option<string>) {
    && ev.Receive? && IsAnswer(c, ev.msg) && ev.msg.BlockData? && ev.msg.chunked && ev.msg.reqId == rid
    && !GcRaises(c, ev.env)
  }

  predicate Opens(c: Coord, ev: Event, rid: Option<string>) {
    OpensPush(c, ev, rid) || OpensPull(c, ev, rid)
  }

  /** A well-formed chunk under a request id. */
  predicate IsChunk(ev: Event, rid: Option<string>) {
    ev.Receive? && ev.msg.BlockChunk? && ev.msg.reqId == rid && ev.msg.chunk.Some? && rid.Some? && rid.value != ""
  }

  /** The chunks received under `rid` since the header that last opened a buffer for it. */
  ghost function Since(c: Coord, h: History, rid: Option<string>): seq<Bytes> {
    match h
    case Nothing => []
    case After(before, ev) =>
      if Opens(Run(c, before), ev, rid) then []
      else if IsChunk(ev, rid) then Since(c, before, rid) + [ev.msg.chunk.value]
      else Since(c, before, rid)
  }

  /** That header. */
  ghost function Header(c: Coord, h: History, rid: Option<string>): Option<Message> {
    match h
    case Nothing => None
    case After(before, ev) => if Opens(Run(c, before), ev, rid) then Some(ev.msg) else Header(c, before, rid)
  }

  /** A buffer is labelled as its header says. */
  ghost predicate OfHeader(b: Buffer, header: Option<Message>) {
    header.Some? &&
    match header.value
    case StoreBlock(_, _, size, _, durability, key) =>
      b.mode == Store && size == Some(b.totalSize) && b.durability == durability && b.key == key
    case BlockData(_, _, size, _, _) => b.mode == Pull && b.totalSize == size
    case _ => false
  }

  /** What one event makes of the buffer under `rid`. */
  ghost predicate BufferMoves(c: Coord, d: Coord, ev: Event, rid: Option<string>) {
    rid in d.buffers ==>
      if Opens(c, ev, rid) then d.buffers[rid].parts == [] && OfHeader(d.buffers[rid], Some(ev.msg))
      else && rid in c.buffers
           && d.buffers[rid] == if IsChunk(ev, rid) then Add(c.buffers[rid], ev.msg.chunk.value) else c.buffers[rid]
  }

  lemma ChunkMoves(c: Coord, ev: Event, rid: Option<string>)
    requires ev.Receive? && ev.msg.BlockChunk?
    ensures BufferMoves(c, Apply(c, ev), ev, rid)
  {
    var d, id := HandleChunk(c, ev.peer, ev.msg, ev.env), ev.msg.reqId;
    ChunkShape(c, ev.peer, ev.msg, ev.env);
    if id.Some? && id.value != "" && id in c.buffers && ev.msg.chunk.Some? {
      var b := Add(c.buffers[id], ev.msg.chunk.value);
      FinishShape(c.(buffers := c.buffers - {id}), ev.peer, id, b, ev.env);
    }
  }

  lemma StoreMoves(c: Coord, ev: Event, rid: Option<string>)
    requires ev.Receive? && ev.msg.StoreBlock? && !IsAnswer(c, ev.msg)
    ensures BufferMoves(c, Apply(c, ev), ev, rid)
  {
    ServeStoreShape(c, ev.peer, ev.msg, ev.env);
  }

  lemma EventMoves(c: Coord, ev: Event, rid: Option<string>)
    ensures BufferMoves(c, Apply(c, ev), ev, rid)
  {
    if ev.Receive? {
      if ev.msg.BlockChunk? {
        ChunkMoves(c, ev, rid);
      } else if !ev.msg.StreamAbort? && !IsAnswer(c, ev.msg) {
        if ev.msg.StoreBlock? {
          StoreMoves(c, ev, rid);
        } else {
          ServesQuietly(c, ev.peer, ev.msg, ev.env);
        }
      }
    }
  }

  /** An open buffer holds exactly the chunks received since its header. */
  lemma {:induction false} HoldsWhatArrived(c: Coord, h: History, rid: Option<string>)
    requires rid !in c.buffers
    ensures rid in Run(c, h).buffers ==>
              Run(c, h).buffers[rid].parts == Since(c, h, rid) && OfHeader(Run(c, h).buffers[rid], Header(c, h, rid))
    decreases h
  {
    if h.After? {
      HoldsWhatArrived(c, h.before, rid);
      EventMoves(Run(c, h.before), h.event, rid);
    }
  }

  // --- what is committed ----------------------------------------------------------------

  function Lengths(parts: seq<Bytes>): nat {
    if parts == [] then 0 else Lengths(parts[..|parts| - 1]) + |parts[|parts| - 1]|
  }

  lemma {:induction false} JoinLength(parts: seq<Bytes>)
    ensures |Join(parts)| == Lengths(parts)
    decreases |parts|
  {
    if parts != [] { JoinLength(parts[..|parts| - 1]); }
  }

  /** The chunk ends a push: its buffer is open, and what was declared is not exceeded. */
  ghost predicate EndsPush(c: Coord, ev: Event, rid: Option<string>, total: nat) {
    && IsChunk(ev, rid) && ev.msg.final && rid in c.buffers
    && c.buffers[rid].mode.Store? && c.buffers[rid].durability.Some? && total <= c.buffers[rid].totalSize
  }

  /** A chunk says nothing, or one thing that is no commit, or ends a push with a commit and
      its answer. */
  lemma ChunkSays(c: Coord, ev: Event, rid: Option<string>)
    requires ev.Receive? && ev.msg.BlockChunk? && ev.msg.reqId == rid
    ensures var d := Apply(c, ev);
            if IsChunk(ev, rid) && rid in c.buffers
               && EndsPush(c, ev, rid, c.buffers[rid].received + |ev.msg.chunk.value|)
            then var b := Add(c.buffers[rid], ev.msg.chunk.value);
                 d.effects == c.effects + [Commit(rid, Join(b.parts), b.durability.value, b.key)]
                              + [Reply(ev.peer, StoreReply(rid, ev.env.stored))]
            else d.effects == c.effects || exists e: Effect :: !e.Commit? && d.effects == c.effects + [e]
  {
    var d := Apply(c, ev);
    if IsChunk(ev, rid) && rid in c.buffers {
      var b := Add(c.buffers[rid], ev.msg.chunk.value);
      if b.received > b.totalSize {
        assert d.effects == c.effects || d.effects == c.effects + [Reply(ev.peer, Nack(rid))];
      } else if ev.msg.final && b.mode.Pull? {
        assert d.effects == c.effects || d.effects == c.effects + [Gathered(rid, Join(b.parts))];
      }
    }
  }

  lemma HistoryOk(threshold: int, h: History, rid: Option<string>)
    ensures var c := Run(Start(threshold), h);
            rid in c.buffers ==>
              && c.buffers[rid].parts == Since(Start(threshold), h, rid)
              && OfHeader(c.buffers[rid], Header(Start(threshold), h, rid))
              && c.buffers[rid].received == Lengths(Since(Start(threshold), h, rid))
  {
    HoldsWhatArrived(Start(threshold), h, rid);
    ReassemblyBounded(threshold, h);
    JoinLength(Since(Start(threshold), h, rid));
  }

  /** Whatever peers send, a push that is committed by its final chunk is the concatenation of
      the chunks received under its id since the header that opened its buffer, with the
      header's durability and key.  It never exceeds the declared size, and has it exactly
      when the chunk lengths add up to it. */
  lemma CommitIsWhatArrived(threshold: int, h: History, ev: Event, rid: Option<string>)
    requires ev.Receive? && ev.msg.BlockChunk? && ev.msg.reqId == rid
    ensures var c, d := Run(Start(threshold), h), Run(Start(threshold), After(h, ev));
            if !(IsChunk(ev, rid) && rid in c.buffers &&
                 EndsPush(c, ev, rid, Lengths(Since(Start(threshold), h, rid)) + |ev.msg.chunk.value|))
            then d.effects == c.effects || exists e: Effect :: !e.Commit? && d.effects == c.effects + [e]
            else
              var parts := Since(Start(threshold), h, rid) + [ev.msg.chunk.value];
              var header := Header(Start(threshold), h, rid);
              && header.Some? && header.value.StoreBlock?
              && header.value.durability.Some? && header.value.totalSize.Some?
              && d.effects == c.effects
                   + [Commit(rid, Join(parts), header.value.durability.value, header.value.key)]
                   + [Reply(ev.peer, StoreReply(rid, ev.env.stored))]
              && |Join(parts)| <= header.value.totalSize.value
              && (|Join(parts)| == header.value.totalSize.value <==> Lengths(parts) == header.value.totalSize.value)
  {
    var c := Run(Start(threshold), h);
    HistoryOk(threshold, h, rid);
    ChunkSays(c, ev, rid);
    if IsChunk(ev, rid) && rid in c.buffers {
      var parts := Since(Start(threshold), h, rid) + [ev.msg.chunk.value];
      JoinLength(parts);
      assert parts[..|parts| - 1] == Since(Start(threshold), h, rid);
    }
  }

  function PushHeader(id: string, size: int): Message {
    StoreBlock(Some(id), true, Some(size), None, Some(Cache), None)
  }

  /** A header that declares `size` bytes and a final chunk with fewer. */
  function ShortPush(peer: string, id: string, size: int, data: Bytes, env: Env): History {
    After(After(Nothing, Receive(peer, PushHeader(id, size), env)),
          Receive(peer, BlockChunk(Some(id), 0, Some(data), true), env))
  }

  function PushBuffer(size: int, now: real, slot: nat): Buffer {
    Buffer(Store, size, [], 0, None, now, Some(Cache), None, slot)
  }

  lemma PushOpens(c: Coord, peer: string, id: string, size: int, env: Env)
    requires c.buffers == map[] && id !in c.pending && 0 < size <= MAX_BLOCK_SIZE
    ensures var d := Apply(c, Receive(peer, PushHeader(id, size), env));
            d.buffers == map[Some(id) := PushBuffer(size, env.now, c.slots)] && d.effects == c.effects
  {
    assert Gc(c, env).buffers == map[];
    assert Handle(c, peer, PushHeader(id, size), env) == ServeStore(c, peer, PushHeader(id, size), env);
  }

  lemma FinalChunk(c: Coord, peer: string, id: string, size: int, b: Buffer, data: Bytes, env: Env)
    requires id != "" && b == PushBuffer(size, b.startedAt, b.slot) && c.buffers == map[Some(id) := b]
    requires c.effects == [] && |data| <= size
    ensures Apply(c, Receive(peer, BlockChunk(Some(id), 0, Some(data), true), env)).effects ==
            [Commit(Some(id), data, Cache, None)] + [Reply(peer, StoreReply(Some(id), env.stored))]
  {
    var ev := Receive(peer, BlockChunk(Some(id), 0, Some(data), true), env);
    ChunkSays(c, ev, Some(id));
    var parts := Add(b, data).parts;
    JoinSnoc([], data);
    assert parts == [] + [data] && Join([]) == [] && Join(parts) == [] + data == data;
    var commit := Commit(Some(id), data, Cache, None);
    assert [] + [commit] == [commit];
  }

  lemma RunOn(c: Coord, h: History, x: Event, y: Event)
    ensures Run(c, After(After(h, x), y)) == Apply(Apply(Run(c, h), x), y)
  {
    assert Run(c, After(h, x)) == Apply(Run(c, h), x);
  }

  lemma RunTwo(c: Coord, x: Event, y: Event)
    ensures Run(c, After(After(Nothing, x), y)) == Apply(Apply(c, x), y)
  {
    RunOn(c, Nothing, x, y);
  }

  /** For every declared size, any shorter data is committed as it is. */
  lemma ShortPushCommits(threshold: int, peer: string, id: string, size: int, data: Bytes, env: Env)
    requires id != "" && |data| < size <= MAX_BLOCK_SIZE
    ensures Run(Start(threshold), ShortPush(peer, id, size, data, env)).effects ==
            [Commit(Some(id), data, Cache, None)] + [Reply(peer, StoreReply(Some(id), env.stored))]
  {
    var x := Receive(peer, PushHeader(id, size), env);
    var y := Receive(peer, BlockChunk(Some(id), 0, Some(data), true), env);
    RunTwo(Start(threshold), x, y);
    var c := Apply(Start(threshold), x);
    PushOpens(Start(threshold), peer, id, size, env);
    FinalChunk(c, peer, id, size, PushBuffer(size, env.now, 0), data, env);
  }

  // --- whose chunks they are ------------------------------------------------------------

  /** The peer whose header last opened a buffer under `rid`. */
  ghost function Opener(c: Coord, h: History, rid: Option<string>): Option<string> {
    match h
    case Nothing => None
    case After(before, ev) => if Opens(Run(c, before), ev, rid) then Some(ev.peer) else Opener(c, before, rid)
  }

  /** Those of the chunks since that header which came from `peer`. */
  ghost function SentBy(c: Coord, h: History, rid: Option<string>, peer: string): seq<Bytes> {
    match h
    case Nothing => []
    case After(before, ev) =>
      if Opens(Run(c, before), ev, rid) then []
      else if IsChunk(ev, rid) && ev.peer == peer then SentBy(c, before, rid, peer) + [ev.msg.chunk.value]
      else SentBy(c, before, rid, peer)
  }

  /** The bytes since that header which came from others. */
  ghost function FromOthers(c: Coord, h: History, rid: Option<string>, peer: string): nat {
    match h
    case Nothing => 0
    case After(before, ev) =>
      if Opens(Run(c, before), ev, rid) then 0
      else FromOthers(c, before, rid, peer) + if IsChunk(ev, rid) && ev.peer != peer then |ev.msg.chunk.value| else 0
  }

  lemma LengthsSnoc(parts: seq<Bytes>, chunk: Bytes)
    ensures Lengths(parts + [chunk]) == Lengths(parts) + |chunk|
  {
    assert (parts + [chunk])[..|parts|] == parts;
  }

  /** All the parts, those of one peer, and the bytes of the others. */
  ghost predicate Shared(all: seq<Bytes>, mine: seq<Bytes>, others: nat) {
    Lengths(all) == Lengths(mine) + others && (others == 0 ==> Join(all) == Join(mine))
  }

  lemma SharedSnoc(all: seq<Bytes>, mine: seq<Bytes>, others: nat, chunk: Bytes, own: bool)
    requires Shared(all, mine, others)
    ensures if own then Shared(all + [chunk], mine + [chunk], others) else Shared(all + [chunk], mine, others + |chunk|)
  {
    LengthsSnoc(all, chunk);
    LengthsSnoc(mine, chunk);
    JoinSnoc(all, chunk);
    JoinSnoc(mine, chunk);
  }

  lemma {:induction false} OthersCount(c: Coord, h: History, rid: Option<string>, peer: string)
    ensures Shared(Since(c, h, rid), SentBy(c, h, rid, peer), FromOthers(c, h, rid, peer))
    decreases h
  {
    if h.After? {
      OthersCount(c, h.before, rid, peer);
      if IsChunk(h.event, rid) {
        SharedSnoc(Since(c, h.before, rid), SentBy(c, h.before, rid, peer), FromOthers(c, h.before, rid, peer),
                   h.event.msg.chunk.value, h.event.peer == peer);
      }
    }
  }

  /** The code never compares the peer of a chunk with that of the header.  What a transfer is
      made of is what its opener sent exactly when nobody else sent a byte under its id since. */
  lemma OpenersOwnExactly(c: Coord, h: History, rid: Option<string>, peer: string)
    ensures Join(Since(c, h, rid)) == Join(SentBy(c, h, rid, peer)) <==> FromOthers(c, h, rid, peer) == 0
  {
    OthersCount(c, h, rid, peer);
    JoinLength(Since(c, h, rid));
    JoinLength(SentBy(c, h, rid, peer));
  }

  lemma {:induction false} HasOpener(c: Coord, h: History, rid: Option<string>)
    ensures Header(c, h, rid).Some? <==> Opener(c, h, rid).Some?
    decreases h
  {
    if h.After? { HasOpener(c, h.before, rid); }
  }

  /** So a committed push is what the peer of its header sent exactly when no other peer sent a
      byte under its id since that header. */
  lemma CommitIsOpenersExactly(threshold: int, h: History, ev: Event, rid: Option<string>)
    requires ev.Receive? && ev.msg.BlockChunk? && ev.msg.reqId == rid && IsChunk(ev, rid)
    requires EndsPush(Run(Start(threshold), h), ev, rid,
                      Lengths(Since(Start(threshold), h, rid)) + |ev.msg.chunk.value|)
    ensures var c, all := Start(threshold), After(h, ev);
            var header, data, opener := Header(c, h, rid), Join(Since(c, all, rid)), Opener(c, all, rid);
            && header.Some? && header.value.StoreBlock? && header.value.durability.Some? && opener.Some?
            && Run(c, all).effects == Run(c, h).effects
                 + [Commit(rid, data, header.value.durability.value, header.value.key)]
                 + [Reply(ev.peer, StoreReply(rid, ev.env.stored))]
            && (data == Join(SentBy(c, all, rid, opener.value)) <==> FromOthers(c, all, rid, opener.value) == 0)
  {
    var c, all := Start(threshold), After(h, ev);
    CommitIsWhatArrived(threshold, h, ev, rid);
    HasOpener(c, h, rid);
    assert Opener(c, all, rid) == Opener(c, h, rid);
    OpenersOwnExactly(c, all, rid, Opener(c, all, rid).value);
  }

  /** A push that p opened and q ends: the bytes of q are committed, and q is answered. */
  lemma StrangerCommits(threshold: int, p: string, q: string, id: string, size: int, data: Bytes, env: Env)
    requires id != "" && p != q && |data| <= size <= MAX_BLOCK_SIZE && size > 0
    ensures var x := Receive(p, PushHeader(id, size), env);
            var y := Receive(q, BlockChunk(Some(id), 0, Some(data), true), env);
            Run(Start(threshold), After(After(Nothing, x), y)).effects ==
            [Commit(Some(id), data, Cache, None)] + [Reply(q, StoreReply(Some(id), env.stored))]
  {
    var x, y := Receive(p, PushHeader(id, size), env), Receive(q, BlockChunk(Some(id), 0, Some(data), true), env);
    RunTwo(Start(threshold), x, y);
    PushOpens(Start(threshold), p, id, size, env);
    FinalChunk(Apply(Start(threshold), x), q, id, size, PushBuffer(size, env.now, 0), data, env);
  }

  // --- how many pulls -------------------------------------------------------------------

  function PullKeys(c: Coord): set<Option<string>> {
    set rid | rid in c.buffers && c.buffers[rid].mode.Pull?
  }

  /** The requests of our own that have begun and not ended as a load. */
  function Begun(h: History): set<string> {
    match h
    case Nothing => {}
    case After(before, Begin(id)) => Begun(before) + {id}
    case After(before, EndLoad(id)) => Begun(before) - {id}
    case After(before, _) => Begun(before)
  }

  /** Only requests that have begun wait or are being pulled. */
  ghost predicate OnlyBegun(c: Coord, begun: set<string>) {
    && (forall id <- c.pending :: id in begun)
    && (forall rid <- c.buffers :: c.buffers[rid].mode.Pull? ==> rid.Some? && rid.value in begun)
  }

  lemma ReceiveBegun(c: Coord, ev: Event, begun: set<string>)
    requires OnlyBegun(c, begun) && ev.Receive?
    ensures OnlyBegun(Apply(c, ev), begun)
  {
    var d := Apply(c, ev);
    forall rid <- d.buffers ensures d.buffers[rid].mode.Pull? ==> rid.Some? && rid.value in begun {
      EventMoves(c, ev, rid);
    }
    PendingShrinks(c, ev);
  }

  lemma PendingShrinks(c: Coord, ev: Event)
    requires ev.Receive?
    ensures Apply(c, ev).pending.Keys <= c.pending.Keys
  {
    if ev.msg.BlockChunk? {
      ChunkShape(c, ev.peer, ev.msg, ev.env);
    } else if !ev.msg.StreamAbort? && !IsAnswer(c, ev.msg) {
      if ev.msg.StoreBlock? {
        ServeStoreShape(c, ev.peer, ev.msg, ev.env);
      } else {
        ServesQuietly(c, ev.peer, ev.msg, ev.env);
      }
    }
  }

  lemma {:induction false} RunBegun(threshold: int, h: History)
    ensures OnlyBegun(Run(Start(threshold), h), Begun(h))
    decreases h
  {
    if h.After? {
      RunBegun(threshold, h.before);
      if h.event.Receive? { ReceiveBegun(Run(Start(threshold), h.before), h.event, Begun(h.before)); }
    }
  }

  /** Pull buffers have no cap of their own, but there are never more of them than requests of
      the node's own that have begun and not ended as a load. */
  lemma PullsBounded(threshold: int, h: History)
    ensures |PullKeys(Run(Start(threshold), h))| <= |Begun(h)|
  {
    RunBegun(threshold, h);
    Wrapped(Begun(h));
    SubsetSize(PullKeys(Run(Start(threshold), h)), set id | id in Begun(h) :: Some(id));
  }

  lemma {:induction false} Wrapped(ids: set<string>)
    ensures |set id | id in ids :: Some(id)| == |ids|
    decreases ids
  {
    if ids != {} {
      var x :| x in ids;
      Wrapped(ids - {x});
      assert (set id | id in ids :: Some(id)) == (set id | id in ids - {x} :: Some(id)) + {Some(x)};
    }
  }

  function Name(i: nat): string {
    if i == 0 then "p" else Name(i - 1) + "p"
  }

  lemma {:induction false} NameLength(i: nat)
    ensures |Name(i)| == i + 1
  {
    if i > 0 { NameLength(i - 1); }
  }

  function PullHeader(id: string, size: int): Message {
    BlockData(Some(id), true, size, None, None)
  }

  /** n requests, each answered by a header that declares `size` bytes. */
  function ManyPulls(n: nat, peer: string, size: int, env: Env): History {
    if n == 0 then Nothing
    else After(After(ManyPulls(n - 1, peer, size, env), Begin(Name(n - 1))),
               Receive(peer, PullHeader(Name(n - 1), size), env))
  }

  /** The buffers are the n pulls, opened at `now`. */
  ghost predicate ArePulls(c: Coord, n: nat, size: int, now: real) {
    && (forall rid <- c.buffers :: rid.Some? && c.buffers[rid].mode == Pull && c.buffers[rid].totalSize == size
                                   && c.buffers[rid].startedAt == now && |rid.value| <= n)
    && |c.buffers| == n && c.effects == []
  }

  function PullBuffer(size: int, future: nat, now: real, slot: nat): Buffer {
    Buffer(Pull, size, [], 0, Some(future), now, Some(Cache), None, slot)
  }

  lemma PullOpens(c: Coord, id: string, peer: string, size: int, env: Env)
    requires id in c.pending && StaleKeys(c.buffers, env.now) == {}
    ensures var d := Apply(c, Receive(peer, PullHeader(id, size), env));
            && d.buffers == c.buffers[Some(id) := PullBuffer(size, |c.futures|, env.now, SlotFor(c, Some(id)))]
            && d.pulls == c.pulls[id := |c.futures|] && d.pending == c.pending - {id} && d.effects == c.effects
  {
    assert Gone(c, env) == {} && Gc(c, env).buffers == c.buffers;
    assert Handle(c, peer, PullHeader(id, size), env) == Resolve(c, id, PullHeader(id, size), env);
  }

  lemma OneMorePull(c: Coord, n: nat, peer: string, size: int, env: Env)
    requires ArePulls(c, n, size, env.now)
    ensures ArePulls(Apply(Apply(c, Begin(Name(n))), Receive(peer, PullHeader(Name(n), size), env)), n + 1, size,
                     env.now)
  {
    var id := Name(n);
    NameLength(n);
    var b := Apply(c, Begin(id));
    assert StaleKeys(b.buffers, env.now) == {};
    PullOpens(b, id, peer, size, env);
    assert Some(id) !in c.buffers;
  }

  /** The bound is reached for every n, with any declared size. */
  lemma {:induction false} PullsReach(threshold: int, n: nat, peer: string, size: int, env: Env)
    ensures var c := Run(Start(threshold), ManyPulls(n, peer, size, env));
            ArePulls(c, n, size, env.now) && |PullKeys(c)| == n == |Begun(ManyPulls(n, peer, size, env))|
    decreases n
  {
    BegunNames(n, peer, size, env);
    ManyOpen(threshold, n, peer, size, env, ManyPulls(n, peer, size, env));
    AllPulls(Run(Start(threshold), ManyPulls(n, peer, size, env)), n, size, env.now);
  }

  lemma {:induction false} ManyOpen(threshold: int, n: nat, peer: string, size: int, env: Env, h: History)
    requires h == ManyPulls(n, peer, size, env)
    ensures ArePulls(Run(Start(threshold), h), n, size, env.now)
    decreases n
  {
    if n > 0 {
      var before := h.before.before;
      ManyOpen(threshold, n - 1, peer, size, env, before);
      OneMorePull(Run(Start(threshold), before), n - 1, peer, size, env);
      RunOn(Start(threshold), before, h.before.event, h.event);
    }
  }

  lemma AllPulls(c: Coord, n: nat, size: int, now: real)
    requires ArePulls(c, n, size, now)
    ensures |PullKeys(c)| == n
  {
    assert PullKeys(c) == c.buffers.Keys;
  }

  lemma {:induction false} BegunNames(n: nat, peer: string, size: int, env: Env)
    ensures |Begun(ManyPulls(n, peer, size, env))| == n
    ensures forall id <- Begun(ManyPulls(n, peer, size, env)) :: |id| <= n
    decreases n
  {
    if n > 0 {
      BegunNames(n - 1, peer, size, env);
      NameLength(n - 1);
      var before := Begun(ManyPulls(n - 1, peer, size, env));
      assert Begun(ManyPulls(n, peer, size, env)) == before + {Name(n - 1)};
    }
  }

  /** A pull may hold any number of bytes: nothing limits what its header declares. */
  lemma PullHoldsAny(threshold: int, peer: string, data: Bytes, env: Env)
    ensures var h := After(ManyPulls(1, peer, |data|, env),
                           Receive(peer, BlockChunk(Some(Name(0)), 0, Some(data), false), env));
            var c := Run(Start(threshold), h);
            Some(Name(0)) in c.buffers && c.buffers[Some(Name(0))].received == |data|
  {
    var x, y := Begin(Name(0)), Receive(peer, PullHeader(Name(0), |data|), env);
    assert ManyPulls(0, peer, |data|, env) == Nothing;
    assert ManyPulls(1, peer, |data|, env) == After(After(Nothing, x), y);
    RunTwo(Start(threshold), x, y);
    PullOpens(Apply(Start(threshold), x), Name(0), peer, |data|, env);
    NameLength(0);
  }

  /** The cap counts buffers of both kinds: an acceptable push is refused exactly when
      MAX_INBOUND_STREAMS transfers of any kind are still in time (or collection raises). */
  lemma PushRefusedExactly(c: Coord, peer: string, msg: Message, env: Env)
    requires msg.StoreBlock? && msg.chunked && Acceptable(msg.totalSize) && !IsAnswer(c, msg) && !GcRaises(c, env)
    ensures Handle(c, peer, msg, env) == Say(Gc(c, env), Reply(peer, Nack(msg.reqId))) <==>
            |c.buffers| - |StaleKeys(c.buffers, env.now)| >= MAX_INBOUND_STREAMS
    ensures Opens(c, Receive(peer, msg, env), msg.reqId) <==>
            |c.buffers| - |StaleKeys(c.buffers, env.now)| < MAX_INBOUND_STREAMS
  {
    RemoveSetCount(c.buffers, StaleKeys(c.buffers, env.now));
    assert |Gc(c, env).buffers| == |c.buffers| - |StaleKeys(c.buffers, env.now)|;
    var nacked := Say(Gc(c, env), Reply(peer, Nack(msg.reqId)));
    assert |nacked.effects| == |c.effects| + 1;
  }

  /** So the node's own loads can shut every peer's pushes out. */
  lemma PullsShutOut(threshold: int, n: nat, peer: string, size: int, env: Env, msg: Message, later: Env)
    requires n >= MAX_INBOUND_STREAMS && later.now - env.now <= INBOUND_STREAM_TIMEOUT
    requires msg.StoreBlock? && msg.chunked && Acceptable(msg.totalSize)
    requires !IsAnswer(Run(Start(threshold), ManyPulls(n, peer, size, env)), msg)
    ensures var c := Run(Start(threshold), ManyPulls(n, peer, size, env));
            Handle(c, peer, msg, later) == Say(c, Reply(peer, Nack(msg.reqId)))
  {
    PullsReach(threshold, n, peer, size, env);
    var c := Run(Start(threshold), ManyPulls(n, peer, size, env));
    assert StaleKeys(c.buffers, later.now) == {};
    assert c.buffers - {} == c.buffers;
    assert Gc(c, later) == c;
  }

  // --- what the pull table keeps --------------------------------------------------------

  /** A chunked answer met the waiting request `id`, and no load of that id has ended since. */
  ghost predicate Kept(c: Coord, h: History, id: string) {
    h.After? &&
      (OpensPull(Run(c, h.before), h.event, Some(id)) || (h.event != EndLoad(id) && Kept(c, h.before, id)))
  }

  /** The ids in the pull table after any run. */
  lemma {:induction false} PullsHeldExactly(threshold: int, h: History, id: string)
    ensures id in Run(Start(threshold), h).pulls <==> Kept(Start(threshold), h, id)
    decreases h
  {
    if h.After? {
      PullsHeldExactly(threshold, h.before, id);
      PullEntryExactly(Run(Start(threshold), h.before), h.event, id);
    }
  }

  /** n stores, each answered by a chunked header and ended. */
  function AnsweredStores(n: nat, peer: string, size: int, env: Env): History {
    if n == 0 then Nothing
    else After(After(After(AnsweredStores(n - 1, peer, size, env), Begin(Name(n - 1))),
                     Receive(peer, PullHeader(Name(n - 1), size), env)),
               EndStore(Name(n - 1)))
  }

  /** No request waits, and the pull table has n entries. */
  ghost predicate LeftBehind(c: Coord, n: nat, size: int, now: real) {
    ArePulls(c, n, size, now) && c.pending == map[] && |c.pulls| == n && forall id <- c.pulls :: |id| <= n
  }

  lemma OneStore(c: Coord, n: nat, peer: string, size: int, env: Env)
    requires LeftBehind(c, n, size, env.now)
    ensures var b := Apply(c, Begin(Name(n)));
            var d := Apply(b, Receive(peer, PullHeader(Name(n), size), env));
            LeftBehind(Apply(d, EndStore(Name(n))), n + 1, size, env.now)
  {
    NameLength(n);
    OneMorePull(c, n, peer, size, env);
    EntryStays(c, Name(n), peer, size, env);
    AddCount(c.pulls, Name(n), |c.futures| + 1);
  }

  lemma EntryStays(c: Coord, id: string, peer: string, size: int, env: Env)
    requires c.pending == map[] && StaleKeys(c.buffers, env.now) == {}
    ensures var d := Apply(Apply(c, Begin(id)), Receive(peer, PullHeader(id, size), env));
            && d.pulls == c.pulls[id := |c.futures| + 1] && d.pending == map[]
            && Apply(d, EndStore(id)) == d
  {
    var b := Apply(c, Begin(id));
    PullOpens(b, id, peer, size, env);
    assert b.pending - {id} == map[];
  }

  /** A store that is answered by a chunked reply leaves its entry behind: for every n a run with
      no request under way keeps n entries. */
  lemma {:induction false} StoresLeaveEntries(threshold: int, n: nat, peer: string, size: int, env: Env)
    ensures LeftBehind(Run(Start(threshold), AnsweredStores(n, peer, size, env)), n, size, env.now)
    decreases n
  {
    if n > 0 {
      var before := AnsweredStores(n - 1, peer, size, env);
      StoresLeaveEntries(threshold, n - 1, peer, size, env);
      OneStore(Run(Start(threshold), before), n - 1, peer, size, env);
      RunThree(Start(threshold), before, Begin(Name(n - 1)), Receive(peer, PullHeader(Name(n - 1), size), env),
               EndStore(Name(n - 1)));
    }
  }

  lemma RunThree(c: Coord, h: History, x: Event, y: Event, z: Event)
    ensures Run(c, After(After(After(h, x), y), z)) == Apply(Apply(Apply(Run(c, h), x), y), z)
  {
    RunOn(c, h, x, y);
    RunOn(c, After(h, x), y, z);
  }
}
