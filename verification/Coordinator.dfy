/** The code's form of the coordinator: tables changed in place by message handlers and by
    local requests, proved to take the steps of `Replication`. */
module Coordinators {
  import opened Common
  import opened Config
  import opened Messages
  import opened Replication
  import opened Chunking

  class ReplicationCoordinator {
    const chunkSize: nat
    const threshold: int
    var pending: map<string, nat>
    var buffers: map<Option<string>, Buffer>
    var pulls: map<string, nat>
    /** Every future ever created, by number. */
    var futures: seq<FutureState>
    /** What has been sent, stored and handed to waiters, in order. */
    var effects: seq<Effect>
    /** The number of entries made in `buffers`: the order that a dictionary keeps. */
    var slots: nat
    ghost var owners: seq<string>

    ghost function View(): Coord
      reads this
    {
      Coord(threshold, pending, buffers, pulls, futures, owners, effects, slots)
    }

    constructor (chunkSize: nat, threshold: int)
      requires chunkSize >= 1
      ensures View() == Start(threshold) && this.chunkSize == chunkSize
    {
      this.chunkSize, this.threshold := chunkSize, threshold;
      pending, buffers, pulls, futures, effects, slots := map[], map[], map[], [], [], 0;
      owners := [];
    }

    method NewFuture(ghost id: string) returns (n: nat)
      modifies this`futures, this`owners
      ensures n == old(|futures|)
      ensures futures == old(futures) + [Waiting] && owners == old(owners) + [id]
    {
      n := |futures|;
      futures := futures + [Waiting];
      owners := owners + [id];
    }

    method SettleFuture(n: Option<nat>, outcome: FutureState)
      modifies this`futures
      ensures futures == Settle(old(futures), n, outcome)
    {
      if n.Some? && n.value < |futures| && futures[n.value].Waiting? {
        futures := futures[n.value := outcome];
      }
    }

    method Emit(e: Effect)
      modifies this`effects
      ensures View() == Say(old(View()), e)
    {
      effects := effects + [e];
    }

    /** False stands for the exception of a stale buffer under a missing request id, which
        leaves the stale buffers listed after it. */
    method GcBuffers(env: Env) returns (ok: bool)
      modifies this`buffers, this`futures
      ensures ok == !GcRaises(old(View()), env)
      ensures View() == Gc(old(View()), env)
    {
      var stale := set rid | rid in buffers && env.now - buffers[rid].startedAt > INBOUND_STREAM_TIMEOUT;
      assert stale == StaleKeys(buffers, env.now);
      ghost var gone := Gone(View(), env);
      if None !in stale {
        assert gone - {None} == stale;
        DropAll(stale);
        return true;
      }
      var before := set rid | rid in stale && rid != None && buffers[rid].slot <= buffers[None].slot;
      assert gone - {None} == before;
      assert buffers - before - {None} == buffers - gone;
      DropAll(before);
      buffers := buffers - {None};
      return false;
    }

    method DropAll(stale: set<Option<string>>)
      requires stale <= buffers.Keys
      modifies this`buffers, this`futures
      ensures buffers == old(buffers) - stale
      ensures futures == FailAll(old(futures), Waiters(old(buffers), stale))
    {
      var todo := stale;
      ghost var was := buffers;
      assert FailAll(futures, {}) == futures;
      while todo != {}
        invariant todo <= stale
        invariant buffers == was - (stale - todo)
        invariant futures == FailAll(old(futures), Waiters(was, stale - todo))
        decreases todo
      {
        var rid :| rid in todo;
        FailOneMore(old(futures), was, stale - todo, rid);
        assert stale - (todo - {rid}) == stale - todo + {rid};
        SettleFuture(buffers[rid].future, Failed);
        buffers := buffers - {rid};
        todo := todo - {rid};
      }
      assert stale - todo == stale;
    }

    /** A dictionary keeps the place of a key that it has. */
    method EnterBuffer(rid: Option<string>, b: Buffer)
      modifies this`buffers, this`slots
      ensures buffers == old(buffers)[rid := b.(slot := SlotFor(old(View()), rid))]
      ensures slots == old(slots) + 1
    {
      var slot := if rid in buffers then buffers[rid].slot else slots;
      buffers := buffers[rid := b.(slot := slot)];
      slots := slots + 1;
    }

    method OpenPullBuffer(id: string, size: int, env: Env) returns (ok: bool)
      modifies this
      ensures ok == !GcRaises(old(View()), env)
      ensures View() == if ok then OpenPull(old(View()), id, size, env) else Gc(old(View()), env)
    {
      ok := GcBuffers(env);
      if !ok {
        return;
      }
      var n := NewFuture(id);
      EnterBuffer(Some(id), Buffer(Pull, size, [], 0, Some(n), env.now, Some(Cache), None, 0));
      pulls := pulls[id := n];
    }

    method AbortBuffer(reqId: Option<string>)
      modifies this`buffers, this`futures
      ensures View() == Abort(old(View()), reqId)
    {
      if reqId.None? || reqId !in buffers {
        return;
      }
      var b := buffers[reqId];
      buffers := buffers - {reqId};
      SettleFuture(b.future, Failed);
    }

    method HandleChunkMessage(peer: string, msg: Message, env: Env)
      requires msg.BlockChunk?
      modifies this
      ensures View() == HandleChunk(old(View()), peer, msg, env)
    {
      var reqId := msg.reqId;
      if reqId.None? || reqId.value == "" || reqId !in buffers {
        return;
      }
      if msg.chunk.None? {
        AbortBuffer(reqId);
        return;
      }
      var b := Add(buffers[reqId], msg.chunk.value);
      if b.received > b.totalSize {
        buffers := buffers - {reqId};
        if b.mode == Store {
          Emit(Reply(peer, Nack(reqId)));
        } else {
          SettleFuture(b.future, Failed);
        }
        return;
      }
      if !msg.final {
        buffers := buffers[reqId := b];
        return;
      }
      buffers := buffers - {reqId};
      FinishTransfer(peer, reqId, b, env);
    }

    method FinishTransfer(peer: string, reqId: Option<string>, b: Buffer, env: Env)
      modifies this
      ensures View() == Finish(old(View()), peer, reqId, b, env)
    {
      var data := Join(b.parts);
      if b.mode == Pull {
        if IsWaiting(futures, b.future) {
          SettleFuture(b.future, Collected(data));
          Emit(Gathered(reqId, data));
        }
        return;
      }
      if b.durability.None? {
        return;
      }
      Emit(Commit(reqId, data, b.durability.value, b.key));
      Emit(Reply(peer, StoreReply(reqId, env.stored)));
    }

    method ServeStoreBlock(peer: string, msg: Message, env: Env)
      requires msg.StoreBlock?
      modifies this
      ensures View() == ServeStore(old(View()), peer, msg, env)
    {
      if msg.chunked {
        if !Acceptable(msg.totalSize) {
          Emit(Reply(peer, Nack(msg.reqId)));
          return;
        }
        var ok := GcBuffers(env);
        if !ok {
          return;
        }
        if |buffers| >= MAX_INBOUND_STREAMS {
          Emit(Reply(peer, Nack(msg.reqId)));
          return;
        }
        EnterBuffer(msg.reqId, Buffer(Store, msg.totalSize.value, [], 0, None, env.now, msg.durability, msg.key, 0));
        return;
      }
      if msg.payload.None? || msg.durability.None? {
        Emit(Reply(peer, Nack(msg.reqId)));
        return;
      }
      Emit(Commit(msg.reqId, msg.payload.value, msg.durability.value, msg.key));
      Emit(Reply(peer, StoreReply(msg.reqId, env.stored)));
    }

    method ServeRequestBlock(peer: string, msg: Message, env: Env)
      requires msg.RequestBlock?
      modifies this`effects
      ensures View() == ServeRequest(old(View()), peer, msg, env)
    {
      if env.loaded.None? {
        Emit(Reply(peer, BlockNotFound(msg.reqId)));
        return;
      }
      var data := env.loaded.value;
      if |data| <= threshold {
        Emit(Reply(peer, BlockData(msg.reqId, false, 0, Some(data), None)));
        return;
      }
      Emit(Reply(peer, BlockData(msg.reqId, true, |data|, None, None)));
      if env.accepts {
        Emit(Stream(peer, msg.reqId, data));
      }
    }

    method HandleMessage(peer: string, msg: Message, env: Env)
      modifies this
      ensures View() == Handle(old(View()), peer, msg, env)
    {
      if msg.BlockChunk? {
        HandleChunkMessage(peer, msg, env);
        return;
      }
      if msg.StreamAbort? {
        AbortBuffer(msg.reqId);
        return;
      }
      if msg.reqId.Some? && msg.reqId.value in pending {
        ResolveWaiter(msg.reqId.value, msg, env);
        return;
      }
      match msg
      case StoreBlock(_, _, _, _, _, _) => ServeStoreBlock(peer, msg, env);
      case RequestBlock(_, _, _) => ServeRequestBlock(peer, msg, env);
      case FreeBlock(reqId, _) => Emit(Reply(peer, Freed(reqId, env.freed)));
      case Ping(reqId) => Emit(Reply(peer, Pong(reqId)));
      case _ =>
    }

    method ResolveWaiter(id: string, msg: Message, env: Env)
      requires id in pending
      modifies this
      ensures View() == Resolve(old(View()), id, msg, env)
    {
      if msg.BlockData? && msg.chunked {
        var ok := OpenPullBuffer(id, msg.size, env);
        if !ok {
          return;
        }
      }
      var n := pending[id];
      pending := pending - {id};
      SettleFuture(Some(n), Answered(msg));
    }

    /** The waiter is registered before the request goes out. */
    method RegisterPending(id: string)
      modifies this
      ensures View() == Apply(old(View()), Begin(id))
    {
      var n := NewFuture(id);
      pending := pending[id := n];
    }

    method EndLoadRemote(id: string)
      modifies this
      ensures View() == Apply(old(View()), EndLoad(id))
    {
      pending := pending - {id};
      buffers := buffers - {Some(id)};
      pulls := pulls - {id};
    }

    /** The chunks handed to the peer manager, which takes the first `accepted` of them and
        then reports the peer gone. */
    method SendChunks(id: string, data: Bytes, accepted: nat) returns (msgs: seq<Message>, ok: bool)
      requires chunkSize >= 1
      ensures ok <==> |ChunkMessages(id, data, chunkSize)| <= accepted
      ensures ok ==> msgs == ChunkMessages(id, data, chunkSize)
      ensures !ok ==> msgs == ChunkMessages(id, data, chunkSize)[..accepted]
    {
      ghost var all := ChunkMessages(id, data, chunkSize);
      ghost var pieces := Pieces(data, chunkSize);
      msgs, ok := [], true;
      var offset := 0;
      while offset < |data|
        invariant offset <= |data| && |msgs| <= |pieces| && |msgs| <= accepted
        invariant Pieces(data[offset..], chunkSize) == pieces[|msgs|..]
        invariant msgs == all[..|msgs|]
      {
        var end := if offset + chunkSize <= |data| then offset + chunkSize else |data|;
        var piece := data[offset..end];
        var final := end >= |data|;
        ghost var k := |msgs|;
        PieceAt(data, chunkSize, offset, pieces, k);
        if |msgs| >= accepted {
          return msgs, false;
        }
        msgs := msgs + [Chunk(id, |msgs|, piece, final)];
        assert all[k] == Chunk(id, k, piece, final);
        offset := end;
      }
    }
  }

  lemma FailOneMore(futures: seq<FutureState>, buffers: map<Option<string>, Buffer>,
                    done: set<Option<string>>, rid: Option<string>)
    requires done <= buffers.Keys && rid in buffers
    ensures FailAll(futures, Waiters(buffers, done + {rid})) ==
            Settle(FailAll(futures, Waiters(buffers, done)), buffers[rid].future, Failed)
  {
    assert Waiters(buffers, done + {rid}) == Waiters(buffers, done) + {buffers[rid].future};
  }

  /** The piece at an offset is the next one, and final exactly when nothing follows. */
  lemma PieceAt(data: Bytes, size: nat, offset: nat, pieces: seq<Bytes>, k: nat)
    requires size >= 1 && offset < |data| && k <= |pieces|
    requires Pieces(data[offset..], size) == pieces[k..]
    ensures k < |pieces|
    ensures var end := if offset + size <= |data| then offset + size else |data|;
            && pieces[k] == data[offset..end]
            && (end >= |data| <==> k == |pieces| - 1)
            && Pieces(data[end..], size) == pieces[k + 1..]
  {
    var rest := data[offset..];
    if |rest| <= size {
      assert data[offset..|data|] == rest;
      assert pieces[k..] == [rest];
    } else {
      assert rest[size..] == data[offset + size..] && rest[..size] == data[offset..offset + size];
      assert pieces[k..] == [rest[..size]] + Pieces(rest[size..], size);
      assert Pieces(rest[size..], size) == pieces[k..][1..] == pieces[k + 1..];
      assert |Pieces(rest[size..], size)| >= 1;
    }
  }
}
