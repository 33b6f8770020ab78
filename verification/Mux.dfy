/** The multiplexer of memnode/mux.py as a step system: what it conserves and how
    fairly it schedules. */
module Muxes {
  import opened Common
  import opened Sums
  import opened Messages

  datatype Item = Item(stream: int, msg: Message)

  /** `accepted`, `sent` and `lost` are histories: what `send` queued, what the channel
      took, and what the writer dropped when it failed. */
  datatype Mux = Mux(
    capacity: nat,
    queues: map<int, seq<Message>>,
    order: seq<int>,
    slots: nat,
    inflight: Option<Item>,
    closed: bool,
    accepted: seq<Item>,
    sent: seq<Item>,
    lost: seq<Item>)

  function Start(capacity: nat): Mux {
    Mux(capacity, map[], [], capacity, None, false, [], [], [])
  }

  /** `Enqueue` is `send` past its semaphore; `Take` is the writer picking a message,
      `Done` and `Fail` the two ends of that message's write. */
  datatype Step = Enqueue(stream: int, msg: Message) | Take | Done | Fail | Close

  predicate Enabled(m: Mux, step: Step) {
    match step
    case Enqueue(_, _) => m.slots > 0
    case Take => !m.closed && m.inflight.None? && m.order != []
    case Done => m.inflight.Some?
    case Fail => m.inflight.Some?
    case Close => true
  }

  function EnqueueStep(m: Mux, stream: int, msg: Message): Mux
    requires m.slots > 0
  {
    var known := stream in m.queues;
    m.(slots := m.slots - 1,
       queues := m.queues[stream := (if known then m.queues[stream] else []) + [msg]],
       order := if known then m.order else m.order + [stream],
       accepted := m.accepted + [Item(stream, msg)])
  }

  function TakeStep(m: Mux): Mux
    requires m.order != []
  {
    var stream := m.order[0];
    if stream !in m.queues || m.queues[stream] == [] then
      m.(order := m.order[1..], queues := m.queues - {stream})
    else
      var rest := m.queues[stream][1..];
      m.(order := m.order[1..] + (if rest != [] then [stream] else []),
         queues := if rest != [] then m.queues[stream := rest] else m.queues - {stream},
         inflight := Some(Item(stream, m.queues[stream][0])))
  }

  function Apply(m: Mux, step: Step): Mux
    requires Enabled(m, step)
  {
    match step
    case Enqueue(stream, msg) => EnqueueStep(m, stream, msg)
    case Take => TakeStep(m)
    case Done => m.(inflight := None, slots := m.slots + 1, sent := m.sent + [m.inflight.value])
    case Fail => m.(inflight := None, slots := m.slots + 1, lost := m.lost + [m.inflight.value], closed := true)
    case Close => m.(closed := true)
  }

  // --- conservation ---------------------------------------------------------------

  function OfStream(items: seq<Item>, stream: int): seq<Message> {
    if items == [] then []
    else
      var n := |items| - 1;
      OfStream(items[..n], stream) + if items[n].stream == stream then [items[n].msg] else []
  }

  function QueueOf(m: Mux, stream: int): seq<Message> {
    if stream in m.queues then m.queues[stream] else []
  }

  function InflightOf(m: Mux, stream: int): seq<Message> {
    if m.inflight.Some? && m.inflight.value.stream == stream then [m.inflight.value.msg] else []
  }

  function Len(q: seq<Message>): nat {
    |q|
  }

  /** `_order` lists each stream with a queue once, and no queue is empty. */
  ghost predicate Scheduled(m: Mux) {
    && NoDup(m.order)
    && (forall i | 0 <= i < |m.order| :: m.order[i] in m.queues && |m.queues[m.order[i]]| > 0)
    && (forall s <- m.queues :: s in m.order)
  }

  /** A slot is held by each queued message and by the one being written. */
  ghost predicate Bounded(m: Mux) {
    m.slots + SumOf(m.queues, Len) + (if m.inflight.Some? then 1 else 0) == m.capacity
  }

  /** Everything `send` queued on a stream is, in order, sent, lost to a failed writer,
      being written or still queued. */
  ghost predicate Conserved(m: Mux, stream: int) {
    OfStream(m.accepted, stream) ==
    OfStream(m.sent, stream) + OfStream(m.lost, stream) + InflightOf(m, stream) + QueueOf(m, stream)
  }

  ghost predicate Inv(m: Mux) {
    && Scheduled(m)
    && Bounded(m)
    && (forall s {:trigger Conserved(m, s)} :: Conserved(m, s))
    && (m.lost != [] ==> m.closed && m.inflight.None?)
  }

  lemma OfStreamSnoc(items: seq<Item>, item: Item, stream: int)
    ensures OfStream(items + [item], stream) ==
            OfStream(items, stream) + if item.stream == stream then [item.msg] else []
  {
    assert (items + [item])[..|items|] == items;
  }

  lemma StepScheduled(m: Mux, step: Step)
    requires Scheduled(m) && Enabled(m, step)
    ensures Scheduled(Apply(m, step))
  {
    if step.Take? { TakeScheduled(m); }
  }

  lemma EnqueueInv(m: Mux, stream: int, msg: Message)
    requires Inv(m) && m.slots > 0
    ensures Inv(EnqueueStep(m, stream, msg))
  {
    var n := EnqueueStep(m, stream, msg);
    StepScheduled(m, Enqueue(stream, msg));
    SumUpdate(m.queues, stream, n.queues[stream], Len);
    forall s ensures Conserved(n, s) {
      EnqueueConserved(m, stream, msg, s);
    }
  }

  lemma EnqueueConserved(m: Mux, stream: int, msg: Message, s: int)
    requires Conserved(m, s) && m.slots > 0
    ensures Conserved(EnqueueStep(m, stream, msg), s)
  {
    var n := EnqueueStep(m, stream, msg);
    OfStreamSnoc(m.accepted, Item(stream, msg), s);
    var before, queue := OfStream(m.sent, s) + OfStream(m.lost, s) + InflightOf(m, s), QueueOf(m, s);
    if stream == s {
      assert QueueOf(n, s) == queue + [msg];
      Associative(before, queue, [msg]);
    } else {
      assert QueueOf(n, s) == queue;
      assert OfStream(m.accepted, s) + [] == OfStream(m.accepted, s);
    }
  }

  lemma TakeInv(m: Mux)
    requires Inv(m) && Enabled(m, Take)
    ensures Inv(TakeStep(m))
  {
    var stream := m.order[0];
    assert stream in m.order;
    var n := TakeStep(m);
    var rest := m.queues[stream][1..];
    if rest != [] {
      SumUpdate(m.queues, stream, rest, Len);
    } else {
      SumRemove(m.queues, stream, Len);
    }
    TakeScheduled(m);
    forall s ensures Conserved(n, s) {
      TakeConserved(m, s);
    }
  }

  lemma TakeConserved(m: Mux, s: int)
    requires Scheduled(m) && Enabled(m, Take) && Conserved(m, s)
    ensures Conserved(TakeStep(m), s)
  {
    var n, stream := TakeStep(m), m.order[0];
    assert stream in m.order;
    TakeMoves(m, s);
    Regroup(OfStream(m.sent, s) + OfStream(m.lost, s), InflightOf(n, s), QueueOf(n, s));
  }

  lemma TakeMoves(m: Mux, s: int)
    requires Scheduled(m) && Enabled(m, Take)
    ensures InflightOf(m, s) == []
    ensures InflightOf(TakeStep(m), s) + QueueOf(TakeStep(m), s) == QueueOf(m, s)
  {
    var stream := m.order[0];
    assert stream in m.order;
    var q := m.queues[stream];
    assert q == [q[0]] + q[1..];
  }

  lemma Regroup<T>(a: seq<T>, b: seq<T>, c: seq<T>)
    ensures a + [] + (b + c) == a + b + c
  {
  }

  lemma TakeScheduled(m: Mux)
    requires Scheduled(m) && m.order != []
    ensures Scheduled(TakeStep(m))
  {
    var n := TakeStep(m);
    assert m.order[0] in m.order;
    assert m.order == [m.order[0]] + m.order[1..];
  }

  lemma StepInv(m: Mux, step: Step)
    requires Inv(m) && Enabled(m, step)
    ensures Inv(Apply(m, step))
  {
    match step
    case Enqueue(stream, msg) => EnqueueInv(m, stream, msg);
    case Take => TakeInv(m);
    case Done => EndInv(m, Done);
    case Fail => EndInv(m, Fail);
    case Close => assert forall s :: Conserved(m, s) ==> Conserved(Apply(m, step), s);
  }

  lemma EndInv(m: Mux, step: Step)
    requires Inv(m) && m.inflight.Some? && (step.Done? || step.Fail?)
    ensures Inv(Apply(m, step))
  {
    forall s ensures Conserved(Apply(m, step), s) {
      EndConserved(m, step, s);
    }
  }

  lemma EndConserved(m: Mux, step: Step, stream: int)
    requires Conserved(m, stream) && m.lost == [] && m.inflight.Some? && (step.Done? || step.Fail?)
    ensures Conserved(Apply(m, step), stream)
  {
    OfStreamSnoc(if step.Done? then m.sent else m.lost, m.inflight.value, stream);
    EndRegroup(OfStream(m.sent, stream), InflightOf(m, stream), QueueOf(m, stream));
  }

  lemma EndRegroup<T>(sent: seq<T>, mine: seq<T>, queued: seq<T>)
    ensures sent + [] + mine + queued == (sent + mine) + [] + [] + queued
    ensures sent + [] + mine + queued == sent + ([] + mine) + [] + queued
  {
  }

  // --- runs -----------------------------------------------------------------------

  datatype Schedule = End | Then(step: Step, rest: Schedule)

  ghost predicate Legal(m: Mux, run: Schedule)
    decreases run
  {
    run.Then? ==> Enabled(m, run.step) && Legal(Apply(m, run.step), run.rest)
  }

  ghost function Run(m: Mux, run: Schedule): Mux
    requires Legal(m, run)
    decreases run
  {
    if run.End? then m else Run(Apply(m, run.step), run.rest)
  }

  /** The messages the writer picks over a run, in order. */
  ghost function Turns(m: Mux, run: Schedule): seq<Item>
    requires Legal(m, run)
    decreases run
  {
    if run.End? then []
    else
      var n := Apply(m, run.step);
      (if run.step.Take? && n.inflight.Some? then [n.inflight.value] else []) + Turns(n, run.rest)
  }

  /** Mux conservation: the invariant holds in every reachable state. */
  lemma {:induction false} RunInv(m: Mux, run: Schedule)
    requires Inv(m) && Legal(m, run)
    ensures Inv(Run(m, run))
    decreases run
  {
    if run.Then? {
      StepInv(m, run.step);
      RunInv(Apply(m, run.step), run.rest);
    }
  }

  lemma StartInv(capacity: nat)
    ensures Inv(Start(capacity))
  {
    assert forall s {:trigger Conserved(Start(capacity), s)} :: Conserved(Start(capacity), s);
  }

  // --- fairness -------------------------------------------------------------------

  lemma HasHead(m: Mux, k: nat)
    requires Scheduled(m) && k < |m.order|
    ensures m.order[k] in m.queues && |m.queues[m.order[k]]| > 0
  {
  }

  /** A run's turns, split at its first step. */
  lemma TurnsSplit(m: Mux, run: Schedule)
    requires Scheduled(m) && Legal(m, run) && run.Then?
    ensures var rest := Turns(Apply(m, run.step), run.rest);
            if run.step.Take?
            then m.order[0] in m.queues && m.queues[m.order[0]] != []
                 && Turns(m, run) == [Item(m.order[0], m.queues[m.order[0]][0])] + rest
            else Turns(m, run) == rest
  {
    var rest := Turns(Apply(m, run.step), run.rest);
    if run.step.Take? {
      HasHead(m, 0);
      assert TakeStep(m).inflight == Some(Item(m.order[0], m.queues[m.order[0]][0]));
    } else {
      assert [] + rest == rest;
    }
  }

  /** The stream of `item` is at index i of `_order` and its message at depth d. */
  ghost predicate At(m: Mux, i: nat, d: nat, item: Item) {
    && i < |m.order| && m.order[i] == item.stream
    && item.stream in m.queues && d < |m.queues[item.stream]|
    && m.queues[item.stream][d] == item.msg
  }

  lemma AfterTake(m: Mux, i: nat, d: nat, item: Item)
    requires Scheduled(m) && Enabled(m, Take) && At(m, i, d, item) && i + d > 0
    ensures i > 0 ==> At(TakeStep(m), i - 1, d, item)
    ensures i == 0 ==> TakeStep(m).order == m.order[1..] + [item.stream]
    ensures i == 0 ==> At(TakeStep(m), |m.order| - 1, d - 1, item)
  {
    HasHead(m, 0);
  }

  lemma AfterOther(m: Mux, step: Step, i: nat, d: nat, item: Item)
    requires Enabled(m, step) && !step.Take? && At(m, i, d, item)
    ensures At(Apply(m, step), i, d, item)
  {
  }

  /** Whatever arrives meanwhile, the next turns go to the heads of the streams in
      `_order`, one each and in that order. */
  lemma {:induction false} NextTurn(m: Mux, run: Schedule, k: nat, item: Item)
    requires Scheduled(m) && Legal(m, run)
    requires At(m, k, 0, item) && k < |Turns(m, run)|
    ensures Turns(m, run)[k] == item
    decreases run
  {
    TurnsSplit(m, run);
    StepScheduled(m, run.step);
    if !run.step.Take? {
      AfterOther(m, run.step, k, 0, item);
      NextTurn(Apply(m, run.step), run.rest, k, item);
    } else if k > 0 {
      AfterTake(m, k, 0, item);
      NextTurn(Apply(m, run.step), run.rest, k - 1, item);
    }
  }

  /** A stream that still has messages after its turn gets its next turn, with its next
      message, once every other stream then waiting has had exactly one. */
  lemma BackloggedTurn(m: Mux, run: Schedule, item: Item)
    requires Scheduled(m) && Legal(m, run) && run.Then? && run.step.Take?
    requires At(m, 0, 1, item) && |Turns(m, run)| > |m.order|
    ensures forall k | 0 < k < |m.order| :: Turns(m, run)[k].stream == m.order[k] != item.stream
    ensures Turns(m, run)[|m.order|] == item
  {
    forall k | 0 < k < |m.order| ensures Turns(m, run)[k].stream == m.order[k] != item.stream {
      TurnOf(m, run, k);
      assert m.order[0] != m.order[k];
    }
    OwnTurn(m, run, item);
  }

  /** The k-th turn is the k-th stream's. */
  lemma TurnOf(m: Mux, run: Schedule, k: nat)
    requires Scheduled(m) && Legal(m, run) && k < |m.order| && k < |Turns(m, run)|
    ensures Turns(m, run)[k].stream == m.order[k]
  {
    HasHead(m, k);
    NextTurn(m, run, k, Item(m.order[k], m.queues[m.order[k]][0]));
  }

  lemma OwnTurn(m: Mux, run: Schedule, item: Item)
    requires Scheduled(m) && Legal(m, run) && run.Then? && run.step.Take?
    requires At(m, 0, 1, item) && |Turns(m, run)| > |m.order|
    ensures Turns(m, run)[|m.order|] == item
  {
    TurnsSplit(m, run);
    StepScheduled(m, Take);
    AfterTake(m, 0, 1, item);
    NextTurn(TakeStep(m), run.rest, |m.order| - 1, item);
  }

  lemma OrderFits(m: Mux)
    requires Inv(m)
    ensures |m.order| + m.slots + (if m.inflight.Some? then 1 else 0) <= m.capacity
  {
    assert forall s :: s in m.order <==> s in m.queues.Keys;
    NoDupCount(m.order, m.queues.Keys);
    assert forall s <- m.queues :: Len(m.queues[s]) >= 1;
    SumAtLeastCount(m.queues, Len);
  }

  /** d * c by repeated addition. */
  function Times(d: nat, c: nat): nat {
    if d == 0 then 0 else Times(d - 1, c) + c
  }

  lemma {:induction false} TimesIsProduct(d: nat, c: nat)
    ensures Times(d, c) == d * c
  {
    if d > 0 {
      TimesIsProduct(d - 1, c);
      assert d * c == (d - 1) * c + c;
    }
  }

  ghost predicate TurnIs(turns: seq<Item>, p: nat, item: Item, before: nat) {
    p < |turns| && turns[p] == item && |OfStream(turns[..p], item.stream)| == before
  }

  /** One turn moves a message up, or round to the back of the order. */
  lemma TurnMoves(m: Mux, run: Schedule, i: nat, d: nat, item: Item, turns: seq<Item>) returns (first: Item)
    requires Scheduled(m) && Legal(m, run) && run.Then? && run.step.Take? && turns == Turns(m, run)
    requires At(m, i, d, item) && i + d > 0
    ensures turns == [first] + Turns(TakeStep(m), run.rest) && (first.stream == item.stream <==> i == 0)
    ensures if i > 0 then At(TakeStep(m), i - 1, d, item)
            else At(TakeStep(m), |m.order| - 1, d - 1, item) && |TakeStep(m).order| == |m.order|
  {
    HasHead(m, 0);
    first := Item(m.order[0], m.queues[m.order[0]][0]);
    TurnsSplit(m, run);
    AfterTake(m, i, d, item);
    if i > 0 { assert m.order[0] != m.order[i]; }
  }

  lemma {:induction false} DepthWithin(m: Mux, run: Schedule, i: nat, d: nat, item: Item, turns: seq<Item>)
    returns (p: nat)
    requires Inv(m) && Legal(m, run) && At(m, i, d, item) && m.capacity >= 1 && turns == Turns(m, run)
    requires |turns| > i + Times(d, m.capacity - 1)
    ensures p <= i + Times(d, m.capacity - 1)
    ensures TurnIs(turns, p, item, d)
    decreases run, 0
  {
    if i == 0 && d == 0 {
      NextTurn(m, run, 0, item);
      return 0;
    }
    StepInv(m, run.step);
    if run.step.Take? {
      var first := TurnMoves(m, run, i, d, item, turns);
      p := DepthAfterTurn(TakeStep(m), run.rest, i, d, item, first, turns);
    } else {
      TurnsSplit(m, run);
      AfterOther(m, run.step, i, d, item);
      p := DepthWithin(Apply(m, run.step), run.rest, i, d, item, turns);
    }
  }

  lemma {:induction false} DepthAfterTurn(n: Mux, run: Schedule, i: nat, d: nat, item: Item, first: Item,
                                          turns: seq<Item>)
    returns (p: nat)
    requires Inv(n) && Legal(n, run) && n.capacity >= 1 && n.inflight.Some? && i + d > 0
    requires turns == [first] + Turns(n, run) && (first.stream == item.stream <==> i == 0)
    requires if i > 0 then At(n, i - 1, d, item) else n.order != [] && At(n, |n.order| - 1, d - 1, item)
    requires |turns| > i + Times(d, n.capacity - 1)
    ensures p <= i + Times(d, n.capacity - 1)
    ensures TurnIs(turns, p, item, d)
    decreases run, 1
  {
    var rest, c := Turns(n, run), n.capacity - 1;
    OrderFits(n);
    if i > 0 {
      p := DepthWithin(n, run, i - 1, d, item, rest);
      TurnCons(first, rest, p, item, d);
    } else {
      assert Times(d, c) == Times(d - 1, c) + c;
      p := DepthWithin(n, run, |n.order| - 1, d - 1, item, rest);
      TurnCons(first, rest, p, item, d - 1);
    }
    p := p + 1;
  }

  /** A message with d others before it in its queue, on the stream at index i, is
      written within i + d * (capacity - 1) other turns, after exactly d of its own. */
  lemma DepthBound(m: Mux, run: Schedule, i: nat, d: nat, item: Item) returns (p: nat)
    requires Inv(m) && Legal(m, run) && At(m, i, d, item)
    requires |Turns(m, run)| > i + d * (m.capacity - 1)
    ensures p <= i + d * (m.capacity - 1)
    ensures TurnIs(Turns(m, run), p, item, d)
  {
    OrderFits(m);
    TimesIsProduct(d, m.capacity - 1);
    p := DepthWithin(m, run, i, d, item, Turns(m, run));
  }

  lemma TurnCons(first: Item, rest: seq<Item>, p: nat, item: Item, before: nat)
    requires TurnIs(rest, p, item, before)
    ensures TurnIs([first] + rest, p + 1, item, before + if first.stream == item.stream then 1 else 0)
  {
    OfStreamCons(first, rest[..p], item.stream);
    assert ([first] + rest)[..p + 1] == [first] + rest[..p];
  }

  lemma {:induction false} OfStreamCons(item: Item, items: seq<Item>, stream: int)
    ensures OfStream([item] + items, stream) ==
            (if item.stream == stream then [item.msg] else []) + OfStream(items, stream)
    decreases |items|
  {
    if items != [] {
      var n := |items| - 1;
      OfStreamCons(item, items[..n], stream);
      assert ([item] + items)[..n + 1] == [item] + items[..n];
    }
  }

  /** The bound between turns needs the backlog: a stream that has drained can watch
      another one take any number of turns before its own next one. */
  ghost function Solo(n: nat, stream: int, msg: Message, rest: Schedule): Schedule {
    if n == 0 then rest
    else Then(Enqueue(stream, msg), Then(Take, Then(Done, Solo(n - 1, stream, msg, rest))))
  }

  function Copies(n: nat, x: Item): seq<Item> {
    if n == 0 then [] else [x] + Copies(n - 1, x)
  }

  ghost predicate Quiet(m: Mux) {
    m.queues == map[] && m.order == [] && m.inflight.None? && !m.closed && m.slots >= 1
  }

  lemma SoloTurn(m: Mux, stream: int, msg: Message)
    requires Quiet(m)
    ensures var a := Apply(m, Enqueue(stream, msg));
            && Enabled(a, Take)
            && TakeStep(a).inflight == Some(Item(stream, msg))
            && Quiet(Apply(TakeStep(a), Done))
  {
    assert TakeStep(Apply(m, Enqueue(stream, msg))).queues == map[];
  }

  lemma TurnThen(m: Mux, step: Step, rest: Schedule)
    requires Enabled(m, step) && Legal(Apply(m, step), rest)
    ensures Legal(m, Then(step, rest))
    ensures Turns(m, Then(step, rest)) ==
            (if step.Take? && Apply(m, step).inflight.Some? then [Apply(m, step).inflight.value] else [])
            + Turns(Apply(m, step), rest)
  {
  }

  lemma {:induction false} DrainedStreamWaits(m: Mux, n: nat, busy: int, msg: Message, idle: int)
    requires Quiet(m)
    ensures var run := Solo(n, busy, msg, Then(Enqueue(idle, msg), Then(Take, End)));
            && Legal(m, run)
            && Turns(m, run) == Copies(n, Item(busy, msg)) + [Item(idle, msg)]
    decreases n
  {
    var stream := if n == 0 then idle else busy;
    SoloTurn(m, stream, msg);
    var a := Apply(m, Enqueue(stream, msg));
    var b := TakeStep(a);
    if n == 0 {
      TurnThen(a, Take, End);
      TurnThen(m, Enqueue(idle, msg), Then(Take, End));
    } else {
      var rest := Solo(n - 1, busy, msg, Then(Enqueue(idle, msg), Then(Take, End)));
      DrainedStreamWaits(Apply(b, Done), n - 1, busy, msg, idle);
      TurnThen(b, Done, rest);
      TurnThen(a, Take, Then(Done, rest));
      TurnThen(m, Enqueue(busy, msg), Then(Take, Then(Done, rest)));
    }
  }

  // --- exactly when turns are shared ------------------------------------------------

  /** From the turn of `s` that opens `turns` up to its next one, `other` has at most one. */
  ghost predicate OneEach(turns: seq<Item>, s: int, other: int) {
    forall p | 1 <= p <= |turns| && OfStream(turns[1..p], s) == [] :: |OfStream(turns[1..p], other)| <= 1
  }

  /** However the run goes on after this turn of `s`. */
  ghost predicate SharesTurns(m: Mux, s: int) {
    forall run: Schedule, other: int | Legal(m, run) && run.Then? && run.step.Take? && other != s ::
      OneEach(Turns(m, run), s, other)
  }

  lemma {:induction false} OfStreamConcat(a: seq<Item>, b: seq<Item>, stream: int)
    ensures OfStream(a + b, stream) == OfStream(a, stream) + OfStream(b, stream)
    decreases |b|
  {
    if b == [] {
      assert a + b == a;
    } else {
      var n := |b| - 1;
      assert (a + b)[..|a| + n] == a + b[..n];
      OfStreamConcat(a, b[..n], stream);
    }
  }

  lemma {:induction false} OncePerStream(items: seq<Item>, other: int)
    requires forall i, j | 0 <= i < j < |items| :: items[i].stream != items[j].stream
    ensures |OfStream(items, other)| <= 1
    ensures OfStream(items, other) != [] ==> exists i :: 0 <= i < |items| && items[i].stream == other
    decreases |items|
  {
    if items != [] { OncePerStream(items[..|items| - 1], other); }
  }

  lemma HasTurn(items: seq<Item>, k: nat)
    requires k < |items|
    ensures OfStream(items, items[k].stream) != []
  {
    var s, front := items[k].stream, items[..k];
    assert items[..k + 1] == front + [items[k]];
    OfStreamSnoc(front, items[k], s);
    OfStreamConcat(items[..k + 1], items[k + 1..], s);
    assert items == items[..k + 1] + items[k + 1..];
  }

  /** The turns that follow go to the streams then waiting, one each. */
  lemma TurnsByOrder(m: Mux, run: Schedule, p: nat)
    requires Scheduled(m) && Legal(m, run) && 1 <= p <= |Turns(m, run)| && p <= |m.order|
    ensures forall i, j | 1 <= i < j < p :: Turns(m, run)[i].stream != Turns(m, run)[j].stream
  {
    forall k | 1 <= k < p ensures Turns(m, run)[k].stream == m.order[k] { TurnOf(m, run, k); }
  }

  /** Up to place p no stream has had two turns, if `s` has not had its next one. */
  lemma NoneTwice(m: Mux, run: Schedule, s: int, other: int, p: nat, turns: seq<Item>)
    requires Scheduled(m) && Legal(m, run) && turns == Turns(m, run) && 1 <= p <= |turns|
    requires |turns| > |m.order| >= 1 ==> turns[|m.order|].stream == s
    requires m.order != [] && OfStream(turns[1..p], s) == []
    ensures |OfStream(turns[1..p], other)| <= 1
  {
    if p > |m.order| { HasTurn(turns[1..p], |m.order| - 1); }
    TurnsByOrder(m, run, p);
    OncePerStream(turns[1..p], other);
  }

  /** A backlogged stream shares its turns. */
  lemma BackloggedShares(m: Mux, run: Schedule, s: int, other: int)
    requires Scheduled(m) && Legal(m, run) && run.Then? && run.step.Take?
    requires m.order[0] == s && s in m.queues && |m.queues[s]| >= 2
    ensures OneEach(Turns(m, run), s, other)
  {
    var turns := Turns(m, run);
    if |turns| > |m.order| { BackloggedTurn(m, run, Item(s, m.queues[s][1])); }
    forall p | 1 <= p <= |turns| && OfStream(turns[1..p], s) == []
      ensures |OfStream(turns[1..p], other)| <= 1
    {
      NoneTwice(m, run, s, other, p, turns);
    }
  }

  ghost function Drain(k: nat, rest: Schedule): Schedule {
    if k == 0 then rest else Then(Take, Then(Done, Drain(k - 1, rest)))
  }

  /** The writer is idle and k messages wait, none of them on `s`. */
  ghost predicate Idle(m: Mux, k: nat, s: int) {
    && Inv(m) && !m.closed && m.inflight.None? && m.capacity >= 1
    && SumOf(m.queues, Len) == k && s !in m.queues
  }

  lemma IdleQuiet(m: Mux, s: int)
    requires Idle(m, 0, s)
    ensures Quiet(m)
  {
    if m.order != [] {
      HasHead(m, 0);
      SumRemove(m.queues, m.order[0], Len);
    }
    NothingListed(m);
  }

  lemma NothingListed(m: Mux)
    requires Scheduled(m) && m.order == []
    ensures m.queues == map[] && SumOf(m.queues, Len) == 0
  {
    assert forall s <- m.queues :: s in m.order;
    assert m.queues == map[];
  }

  lemma IdleBusy(m: Mux, k: nat, s: int)
    requires Idle(m, k, s) && k > 0
    ensures Enabled(m, Take) && Idle(Apply(TakeStep(m), Done), k - 1, s)
    ensures TakeStep(m).inflight.Some? && TakeStep(m).inflight.value.stream != s
  {
    if m.order == [] { NothingListed(m); }
    HasHead(m, 0);
    TakeInv(m);
    EndInv(TakeStep(m), Done);
  }

  /** The run in which `other` takes n turns and then `s` one. */
  ghost function Alone(n: nat, other: int, s: int, msg: Message): Schedule {
    Solo(n, other, msg, Then(Enqueue(s, msg), Then(Take, End)))
  }

  /** The run's turns are some without `s` and then `last`. */
  ghost predicate EndsWith(m: Mux, run: Schedule, s: int, pre: seq<Item>, last: seq<Item>) {
    Legal(m, run) && OfStream(pre, s) == [] && Turns(m, run) == pre + last
  }

  lemma Associative<T>(a: seq<T>, b: seq<T>, c: seq<T>)
    ensures a + (b + c) == a + b + c
  {
  }

  lemma {:induction false} DrainTurns(m: Mux, k: nat, s: int, end: Schedule, last: seq<Item>, run: Schedule)
    returns (pre: seq<Item>)
    requires Idle(m, k, s) && run == Drain(k, end)
    requires forall q: Mux | Quiet(q) :: EndsWith(q, end, s, [], last)
    ensures EndsWith(m, run, s, pre, last)
    decreases k
  {
    if k == 0 {
      IdleQuiet(m, s);
      pre := [];
    } else {
      IdleBusy(m, k, s);
      var first, next, tail := TakeStep(m).inflight.value, Apply(TakeStep(m), Done), Drain(k - 1, end);
      var rest := DrainTurns(next, k - 1, s, end, last, tail);
      OneDrained(m, tail, first, next);
      pre := [first] + rest;
      OfStreamCons(first, rest, s);
      Associative([first], rest, last);
    }
  }

  lemma OneDrained(m: Mux, tail: Schedule, first: Item, next: Mux)
    requires Enabled(m, Take) && TakeStep(m).inflight == Some(first) && next == Apply(TakeStep(m), Done)
             && Legal(next, tail)
    ensures Legal(m, Then(Take, Then(Done, tail)))
    ensures Turns(m, Then(Take, Then(Done, tail))) == [first] + Turns(next, tail)
  {
    TurnThen(TakeStep(m), Done, tail);
    TurnThen(m, Take, Then(Done, tail));
  }

  lemma {:induction false} CopiesTurns(n: nat, x: Item, stream: int)
    ensures |OfStream(Copies(n, x), stream)| == if x.stream == stream then n else 0
  {
    if n > 0 {
      CopiesTurns(n - 1, x, stream);
      OfStreamConcat([x], Copies(n - 1, x), stream);
      assert [x][..0] == [];
    }
  }

  /** From every state in which the turn of `s` empties its queue some run gives any other
      stream n turns, or more, before the next turn of `s`. */
  lemma EmptiedStreamWaits(m: Mux, s: int, n: nat, other: int, msg: Message) returns (run: Schedule, p: nat)
    requires Inv(m) && Enabled(m, Take) && m.order[0] == s != other
    requires s in m.queues && |m.queues[s]| == 1
    ensures Legal(m, run) && run.Then? && run.step.Take?
    ensures 1 <= p < |Turns(m, run)| && Turns(m, run)[p].stream == s
    ensures OfStream(Turns(m, run)[1..p], s) == [] && |OfStream(Turns(m, run)[1..p], other)| >= n
  {
    var a := TakeStep(m);
    var b := Apply(a, Done);
    TakeInv(m);
    EndInv(a, Done);
    OrderFits(m);
    var copies, end := Copies(n, Item(other, msg)), Alone(n, other, s, msg);
    var last := copies + [Item(s, msg)];
    AloneEnds(n, other, s, msg, end, last);
    var tail := Drain(SumOf(b.queues, Len), end);
    var pre := DrainTurns(b, SumOf(b.queues, Len), s, end, last, tail);
    run := Then(Take, Then(Done, tail));
    OneDrained(m, tail, a.inflight.value, b);
    p := 1 + |pre| + |copies|;
    Located(Turns(m, run), a.inflight.value, pre, copies, Item(s, msg), p);
    CopiesBefore(pre, n, Item(other, msg), s);
  }

  lemma AloneEnds(n: nat, other: int, s: int, msg: Message, end: Schedule, last: seq<Item>)
    requires end == Alone(n, other, s, msg) && last == Copies(n, Item(other, msg)) + [Item(s, msg)]
    ensures forall q: Mux | Quiet(q) :: EndsWith(q, end, s, [], last)
  {
    forall q: Mux | Quiet(q) ensures EndsWith(q, end, s, [], last) {
      DrainedStreamWaits(q, n, other, msg, s);
      assert [] + last == last;
    }
  }

  lemma Located<T>(turns: seq<T>, first: T, pre: seq<T>, copies: seq<T>, last: T, p: nat)
    requires turns == [first] + (pre + (copies + [last])) && p == 1 + |pre| + |copies|
    ensures p < |turns| && turns[p] == last && turns[1..p] == pre + copies
  {
  }

  lemma CopiesBefore(pre: seq<Item>, n: nat, x: Item, s: int)
    requires OfStream(pre, s) == [] && x.stream != s
    ensures OfStream(pre + Copies(n, x), s) == [] && |OfStream(pre + Copies(n, x), x.stream)| >= n
  {
    OfStreamConcat(pre, Copies(n, x), s);
    OfStreamConcat(pre, Copies(n, x), x.stream);
    CopiesTurns(n, x, s);
    CopiesTurns(n, x, x.stream);
  }

  /** Between a turn of a stream and its next one every other stream has at most one, in all
      continuations, exactly when the stream has a second message queued at its turn. */
  lemma SharesExactly(m: Mux, s: int)
    requires Inv(m) && Enabled(m, Take) && m.order[0] == s
    ensures s in m.queues && (SharesTurns(m, s) <==> |m.queues[s]| >= 2)
  {
    HasHead(m, 0);
    if |m.queues[s]| >= 2 {
      forall run: Schedule, other: int | Legal(m, run) && run.Then? && run.step.Take? && other != s
        ensures OneEach(Turns(m, run), s, other)
      {
        BackloggedShares(m, run, s, other);
      }
    } else {
      var run, p := EmptiedStreamWaits(m, s, 2, s + 1, m.queues[s][0]);
      assert !OneEach(Turns(m, run), s, s + 1);
    }
  }
}
