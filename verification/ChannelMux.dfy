/** The code's form of the multiplexer, proved to take the steps of `Muxes`. */
module ChannelMuxes {
  import opened Common
  import opened Sums
  import opened Messages
  import opened Muxes

  /** `Waiting` is a caller parked on the semaphore: nothing has changed yet. */
  datatype SendResult = Refused | Waiting | Queued

  class ChannelMux {
    const capacity: nat
    var queues: map<int, seq<Message>>
    var order: seq<int>
    var slots: nat
    var closed: bool
    /** The message the writer coroutine holds across its write. */
    var writing: Option<Item>
    var messagesSent: nat
    var maxQueueDepth: nat
    ghost var accepted: seq<Item>
    ghost var sent: seq<Item>
    ghost var lost: seq<Item>

    ghost function View(): Mux
      reads this
    {
      Mux(capacity, queues, order, slots, writing, closed, accepted, sent, lost)
    }

    ghost predicate Valid()
      reads this
    {
      Inv(View()) && messagesSent == |sent| && maxQueueDepth <= capacity
    }

    constructor (maxQueued: nat)
      ensures Valid() && View() == Start(maxQueued)
    {
      capacity, slots := maxQueued, maxQueued;
      queues, order, closed, writing := map[], [], false, None;
      messagesSent, maxQueueDepth := 0, 0;
      accepted, sent, lost := [], [], [];
      new;
      StartInv(maxQueued);
    }

    method Depth() returns (n: nat)
      ensures n == SumOf(queues, Len)
    {
      n := 0;
      var rest := queues;
      while |rest| > 0
        invariant n + SumOf(rest, Len) == SumOf(queues, Len)
        decreases |rest|
      {
        ghost var some := SomeKey(rest);
        var s :| s in rest;
        n := n + |rest[s]|;
        SumRemove(rest, s, Len);
        RemoveCount(rest, s);
        rest := rest - {s};
      }
    }

    method Send(stream: int, msg: Message) returns (r: SendResult)
      requires Valid()
      modifies this
      ensures Valid()
      ensures r == if old(closed) then Refused else if old(slots) == 0 then Waiting else Queued
      ensures View() == if r == Queued then Apply(old(View()), Enqueue(stream, msg)) else old(View())
    {
      if closed {
        return Refused;
      }
      if slots == 0 {
        return Waiting;
      }
      Admit(stream, msg);
      return Queued;
    }

    /** `send` from the point where the semaphore lets it through, which may be after a
        wait and does not look at `closed` again. */
    method Admit(stream: int, msg: Message)
      requires Valid() && slots > 0
      modifies this
      ensures Valid()
      ensures View() == Apply(old(View()), Enqueue(stream, msg))
    {
      StepInv(View(), Enqueue(stream, msg));
      Enter(stream, msg);
      NoteDepth();
    }

    /** Takes a slot and appends to the stream's queue; a stream without one goes to the back of
        the order. */
    method Enter(stream: int, msg: Message)
      requires slots > 0
      modifies this`slots, this`queues, this`order, this`accepted
      ensures View() == EnqueueStep(old(View()), stream, msg)
    {
      slots := slots - 1;
      if stream !in queues {
        queues := queues[stream := []];
        order := order + [stream];
      }
      queues := queues[stream := queues[stream] + [msg]];
      accepted := accepted + [Item(stream, msg)];
    }

    method NoteDepth()
      requires Valid()
      modifies this`maxQueueDepth
      ensures Valid()
      ensures maxQueueDepth >= SumOf(queues, Len) && maxQueueDepth >= old(maxQueueDepth)
      ensures maxQueueDepth in {SumOf(queues, Len), old(maxQueueDepth)}
    {
      var depth := Depth();
      if depth > maxQueueDepth {
        maxQueueDepth := depth;
      }
    }

    /** One pass of the writer loop up to its write.  `HasHead` rules out the loop's branch
        for a listed stream without messages. */
    method WriterTake() returns (msg: Option<Item>)
      requires Valid() && writing.None?
      modifies this
      ensures Valid()
      ensures old(Enabled(View(), Take)) ==> View() == Apply(old(View()), Take) && msg == writing && msg.Some?
      ensures !old(Enabled(View(), Take)) ==> View() == old(View()) && msg.None?
    {
      if closed || order == [] {
        return None;
      }
      StepInv(View(), Take);
      HasHead(View(), 0);
      var stream := order[0];
      order := order[1..];
      var queue := queues[stream];
      writing := Some(Item(stream, queue[0]));
      if |queue| > 1 {
        queues := queues[stream := queue[1..]];
        order := order + [stream];
      } else {
        queues := queues - {stream};
      }
      assert View() == TakeStep(old(View()));
      msg := writing;
    }

    method WriterDone()
      requires Valid() && writing.Some?
      modifies this
      ensures Valid()
      ensures View() == Apply(old(View()), Done)
    {
      StepInv(View(), Done);
      sent := sent + [writing.value];
      messagesSent := messagesSent + 1;
      slots, writing := slots + 1, None;
    }

    /** The write raised, or the writer was cancelled during it. */
    method WriterFailed()
      requires Valid() && writing.Some?
      modifies this
      ensures Valid()
      ensures View() == Apply(old(View()), Fail)
    {
      StepInv(View(), Fail);
      lost := lost + [writing.value];
      slots, writing, closed := slots + 1, None, true;
    }

    method CloseMux()
      requires Valid()
      modifies this
      ensures Valid()
      ensures View() == Apply(old(View()), Close)
    {
      StepInv(View(), Close);
      closed := true;
    }
  }
}
