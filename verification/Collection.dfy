/** The collection of stalled transfers over whole runs: when it is complete, and what happens
    when it raises. */
module Collecting {
  import opened Common
  import opened Config
  import opened Messages
  import opened Replication
  import opened ReplicationTheorems
  import opened Reassembly

  // --- the order of the table -----------------------------------------------------------

  /** Every buffer has a place of its own in the order of the table. */
  ghost predicate Ordered(c: Coord) {
    && (forall rid <- c.buffers :: c.buffers[rid].slot < c.slots)
    && forall a, b | a in c.buffers && b in c.buffers && a != b :: c.buffers[a].slot != c.buffers[b].slot
  }

  /** A table with fewer buffers, or with their contents changed. */
  lemma KeepsOrder(c: Coord, d: Coord)
    requires Ordered(c) && d.slots == c.slots && d.buffers.Keys <= c.buffers.Keys
    requires forall rid <- d.buffers :: d.buffers[rid].slot == c.buffers[rid].slot
    ensures Ordered(d)
  {
  }

  lemma EntersOrdered(c: Coord, d: Coord, rid: Option<string>, b: Buffer)
    requires Ordered(c) && b.slot == SlotFor(c, rid)
    requires d.buffers == c.buffers[rid := b] && d.slots == c.slots + 1
    ensures Ordered(d)
  {
  }

  lemma StoreOrdered(c: Coord, ev: Event)
    requires Ordered(c) && ev.Receive? && ev.msg.StoreBlock? && !IsAnswer(c, ev.msg)
    ensures Ordered(Apply(c, ev))
  {
    var g, d := Gc(c, ev.env), Apply(c, ev);
    KeepsOrder(c, g);
    ServeStoreShape(c, ev.peer, ev.msg, ev.env);
    if OnlySays(c, d) {
      KeepsOrder(c, d);
    } else if OnlySays(g, d) {
      KeepsOrder(g, d);
    } else {
      EntersOrdered(g, d, ev.msg.reqId, NewPush(ev.msg, ev.env, SlotFor(g, ev.msg.reqId)));
    }
  }

  lemma ResolveOrdered(c: Coord, id: string, msg: Message, env: Env)
    requires Ordered(c) && id in c.pending
    ensures Ordered(Resolve(c, id, msg, env))
  {
    var g, d := Gc(c, env), Resolve(c, id, msg, env);
    KeepsOrder(c, g);
    if msg.BlockData? && msg.chunked && !GcRaises(c, env) {
      EntersOrdered(g, d, Some(id), d.buffers[Some(id)]);
    }
  }

  /** Anything but a header at most drops buffers or extends one. */
  lemma OtherOrdered(c: Coord, ev: Event)
    requires Ordered(c) && (ev.Receive? ==> !IsAnswer(c, ev.msg) && !ev.msg.StoreBlock?)
    ensures Ordered(Apply(c, ev))
  {
    if ev.Receive? && ev.msg.BlockChunk? {
      ChunkShape(c, ev.peer, ev.msg, ev.env);
    } else if ev.Receive? && !ev.msg.StreamAbort? {
      ServesQuietly(c, ev.peer, ev.msg, ev.env);
    }
    KeepsOrder(c, Apply(c, ev));
  }

  lemma StepOrdered(c: Coord, ev: Event)
    requires Ordered(c)
    ensures Ordered(Apply(c, ev))
  {
    if ev.Receive? && IsAnswer(c, ev.msg) {
      ResolveOrdered(c, ev.msg.reqId.value, ev.msg, ev.env);
    } else if ev.Receive? && ev.msg.StoreBlock? {
      StoreOrdered(c, ev);
    } else {
      OtherOrdered(c, ev);
    }
  }

  lemma {:induction false} RunOrdered(threshold: int, h: History)
    ensures Ordered(Run(Start(threshold), h))
    decreases h
  {
    if h.After? {
      RunOrdered(threshold, h.before);
      StepOrdered(Run(Start(threshold), h.before), h.event);
    }
  }

  /** In every reachable state collection removes all that is stale exactly when no stale buffer
      has a missing id, or all others were entered before that one. */
  lemma CollectsExactly(threshold: int, h: History, env: Env)
    ensures var c := Run(Start(threshold), h);
            var stale := StaleKeys(c.buffers, env.now);
            Gc(c, env).buffers == c.buffers - stale <==>
            None !in stale || forall rid <- stale | rid != None :: c.buffers[rid].slot < c.buffers[None].slot
  {
    RunOrdered(threshold, h);
    var c := Run(Start(threshold), h);
    var stale, gone := StaleKeys(c.buffers, env.now), Gone(c, env);
    if None in stale {
      if rid :| rid in stale && rid != None && c.buffers[rid].slot > c.buffers[None].slot {
        assert rid in c.buffers - gone && rid !in c.buffers - stale;
      } else {
        forall rid <- stale ensures rid in gone {
          assert rid == None || c.buffers[rid].slot != c.buffers[None].slot;
        }
        assert gone == stale;
      }
    }
  }

  // --- runs in which it raises ----------------------------------------------------------

  /** The event makes the coordinator collect. */
  predicate Collects(c: Coord, ev: Event) {
    ev.Receive? &&
    if IsAnswer(c, ev.msg) then ev.msg.BlockData? && ev.msg.chunked
    else ev.msg.StoreBlock? && ev.msg.chunked && Acceptable(ev.msg.totalSize)
  }

  predicate Raises(c: Coord, ev: Event) {
    Collects(c, ev) && GcRaises(c, ev.env)
  }

  predicate Completes(c: Coord, ev: Event) {
    Collects(c, ev) && !GcRaises(c, ev.env)
  }

  /** Some collection of the run is complete. */
  ghost predicate SomeComplete(c: Coord, h: History) {
    h.After? && (SomeComplete(c, h.before) || Completes(Run(c, h.before), h.event))
  }

  /** No message of the run is handled before `now`. */
  predicate NotBefore(h: History, now: real) {
    h.After? ==> NotBefore(h.before, now) && (h.event.Receive? ==> h.event.env.now >= now)
  }

  /** A collection that raises is all that its message does: it opens nothing, answers nothing
      and settles no request, and the buffer that made it raise is gone. */
  lemma RaiseEnds(c: Coord, ev: Event)
    requires Raises(c, ev)
    ensures Apply(c, ev) == Gc(c, ev.env) && None !in Apply(c, ev).buffers
  {
    assert None in Gone(c, ev.env);
  }

  /** A buffer under a missing id is entered only by a message whose collection was complete. */
  lemma MissingEnters(c: Coord, ev: Event)
    requires None !in c.buffers && None in Apply(c, ev).buffers
    ensures Completes(c, ev)
  {
    EventMoves(c, ev, None);
  }

  /** No buffer was stale at `now`. */
  ghost predicate NoneStale(buffers: map<Option<string>, Buffer>, now: real) {
    forall rid <- buffers :: !Stale(buffers[rid], now)
  }

  lemma StoreClears(c: Coord, ev: Event)
    requires Completes(c, ev) && !IsAnswer(c, ev.msg)
    ensures NoneStale(Apply(c, ev).buffers, ev.env.now)
  {
    var g := Gc(c, ev.env);
    assert NoneStale(g.buffers, ev.env.now);
    assert Apply(c, ev) == ServeStore(c, ev.peer, ev.msg, ev.env);
    if |g.buffers| >= MAX_INBOUND_STREAMS {
      assert Apply(c, ev).buffers == g.buffers;
    } else {
      assert Apply(c, ev).buffers == g.buffers[ev.msg.reqId := NewPush(ev.msg, ev.env, SlotFor(g, ev.msg.reqId))];
    }
  }

  lemma AnswerClears(c: Coord, ev: Event)
    requires Completes(c, ev) && IsAnswer(c, ev.msg)
    ensures NoneStale(Apply(c, ev).buffers, ev.env.now)
  {
    assert NoneStale(Gc(c, ev.env).buffers, ev.env.now);
    assert Apply(c, ev) == Resolve(c, ev.msg.reqId.value, ev.msg, ev.env);
  }

  /** A complete collection leaves nothing that was stale before. */
  lemma CompleteClears(c: Coord, ev: Event, now: real)
    requires Completes(c, ev) && ev.env.now >= now
    ensures NoneStale(Apply(c, ev).buffers, now)
  {
    if IsAnswer(c, ev.msg) { AnswerClears(c, ev); } else { StoreClears(c, ev); }
  }

  /** What stays stale was there, and what comes is not stale. */
  lemma NoneGrowsStale(c: Coord, ev: Event, now: real)
    requires NoneStale(c.buffers, now)
    requires ev.Receive? ==> ev.env.now >= now
    ensures NoneStale(Apply(c, ev).buffers, now)
  {
    var d := Apply(c, ev);
    forall rid <- d.buffers ensures !Stale(d.buffers[rid], now) {
      EventMoves(c, ev, rid);
      if Opens(c, ev, rid) { CompleteClears(c, ev, now); }
    }
  }

  /** After a raise at `now`: no buffer has a missing id, or a complete collection has come and
      nothing is left that was stale then. */
  lemma {:induction false} SinceRaise(c: Coord, h: History, now: real)
    requires None !in c.buffers && NotBefore(h, now)
    ensures None in Run(c, h).buffers ==> SomeComplete(c, h)
    ensures SomeComplete(c, h) ==> NoneStale(Run(c, h).buffers, now)
    decreases h
  {
    if h.After? {
      SinceRaise(c, h.before, now);
      var m := Run(c, h.before);
      if None !in m.buffers && None in Run(c, h).buffers { MissingEnters(m, h.event); }
      if Completes(m, h.event) {
        CompleteClears(m, h.event, now);
      } else if SomeComplete(c, h.before) {
        NoneGrowsStale(m, h.event, now);
      }
    }
  }

  /** Between two collections that raise there is a complete one, and no buffer that was stale at
      the first is still there at the second. */
  lemma RaisesApart(c: Coord, first: Event, h: History, second: Event)
    requires Raises(c, first) && NotBefore(h, first.env.now)
    requires Raises(Run(Apply(c, first), h), second)
    ensures SomeComplete(Apply(c, first), h)
    ensures NoneStale(Run(Apply(c, first), h).buffers, first.env.now)
  {
    RaiseEnds(c, first);
    SinceRaise(Apply(c, first), h, first.env.now);
  }

  // --- a run in which it does -----------------------------------------------------------

  function HeaderOf(rid: Option<string>, size: int): Message {
    StoreBlock(rid, true, Some(size), None, Some(Cache), None)
  }

  /** A push under a missing id, a push under x, and a push under y when both have stalled. */
  function Stalled(peer: string, x: string, y: string, size: int, env: Env, later: Env): History {
    After(After(After(Nothing, Receive(peer, HeaderOf(None, size), env)),
                Receive(peer, HeaderOf(Some(x), size), env)),
          Receive(peer, HeaderOf(Some(y), size), later))
  }

  lemma OpensNext(c: Coord, peer: string, rid: Option<string>, size: int, env: Env)
    requires c.pending == map[] && StaleKeys(c.buffers, env.now) == {} && |c.buffers| < MAX_INBOUND_STREAMS
    requires 0 < size <= MAX_BLOCK_SIZE
    ensures Apply(c, Receive(peer, HeaderOf(rid, size), env)) ==
            c.(buffers := c.buffers[rid := PushBuffer(size, env.now, SlotFor(c, rid))], slots := c.slots + 1)
  {
    assert Gone(c, env) == {} && Gc(c, env) == c;
    assert Handle(c, peer, HeaderOf(rid, size), env) == ServeStore(c, peer, HeaderOf(rid, size), env);
  }

  lemma LastRaises(c: Coord, peer: string, x: string, y: string, size: int, env: Env, later: Env)
    requires 0 < size <= MAX_BLOCK_SIZE && later.now - env.now > INBOUND_STREAM_TIMEOUT && c.pending == map[]
    requires c.buffers == map[None := PushBuffer(size, env.now, 0), Some(x) := PushBuffer(size, env.now, 1)]
    ensures var last := Receive(peer, HeaderOf(Some(y), size), later);
            Raises(c, last) && Apply(c, last) == c.(buffers := map[Some(x) := PushBuffer(size, env.now, 1)])
  {
    assert None in StaleKeys(c.buffers, later.now);
    RaiseEnds(c, Receive(peer, HeaderOf(Some(y), size), later));
    DropsMissing(c, Some(x), PushBuffer(size, env.now, 0), PushBuffer(size, env.now, 1), later);
  }

  lemma DropsMissing(c: Coord, rid: Option<string>, a: Buffer, b: Buffer, env: Env)
    requires rid != None && c.buffers == map[None := a, rid := b] && Stale(a, env.now) && a.slot < b.slot
    ensures Gc(c, env) == c.(buffers := map[rid := b])
  {
    var gone := Gone(c, env);
    assert gone == {None} && gone - {None} == {};
    assert c.buffers - gone == map[rid := b];
    var none: set<Option<nat>> := {};
    assert Waiters(c.buffers, {}) == none && FailAll(c.futures, none) == c.futures;
  }

  /** The push under x stays although it has stalled, the push under y is not opened, and nobody
      is answered. */
  lemma StalledStays(threshold: int, peer: string, x: string, y: string, size: int, env: Env, later: Env)
    requires 0 < size <= MAX_BLOCK_SIZE && later.now - env.now > INBOUND_STREAM_TIMEOUT
    ensures var c := Run(Start(threshold), Stalled(peer, x, y, size, env, later));
            && c.buffers == map[Some(x) := PushBuffer(size, env.now, 1)] && c.effects == []
            && Stale(c.buffers[Some(x)], later.now)
  {
    var a := Start(threshold);
    OpensNext(a, peer, None, size, env);
    var b := Apply(a, Receive(peer, HeaderOf(None, size), env));
    OpensNext(b, peer, Some(x), size, env);
    var c := Apply(b, Receive(peer, HeaderOf(Some(x), size), env));
    LastRaises(c, peer, x, y, size, env, later);
    RunTwo(a, Receive(peer, HeaderOf(None, size), env), Receive(peer, HeaderOf(Some(x), size), env));
  }
}
