/** Length-prefixed frames of memnode/protocol.py over a byte stream. */
module Framing {
  import opened Common
  import opened Config

  /** `struct.pack(">I", n)` */
  function PackLength(n: nat): (b: Bytes)
    requires n < 0x1_0000_0000
    ensures |b| == 4
  {
    [(n / 0x100_0000) as byte, (n / 0x1_0000 % 0x100) as byte, (n / 0x100 % 0x100) as byte, (n % 0x100) as byte]
  }

  /** `struct.unpack(">I", b)` */
  function UnpackLength(b: Bytes): nat
    requires |b| == 4
  {
    b[0] as nat * 0x100_0000 + b[1] as nat * 0x1_0000 + b[2] as nat * 0x100 + b[3] as nat
  }

  lemma Halves(n: nat)
    ensures n == n / 0x1_0000 * 0x1_0000 + n % 0x1_0000
    ensures n / 0x100_0000 == n / 0x1_0000 / 0x100
    ensures n / 0x100 % 0x100 == n % 0x1_0000 / 0x100 && n % 0x100 == n % 0x1_0000 % 0x100
  {
  }

  lemma UnpackPacked(n: nat)
    requires n < 0x1_0000_0000
    ensures UnpackLength(PackLength(n)) == n
  {
    var h, m := n / 0x1_0000, n % 0x1_0000;
    Halves(n);
    assert h == h / 0x100 * 0x100 + h % 0x100 && m == m / 0x100 * 0x100 + m % 0x100;
  }

  lemma PackUnpacked(b: Bytes)
    requires |b| == 4
    ensures UnpackLength(b) < 0x1_0000_0000
    ensures PackLength(UnpackLength(b)) == b
  {
    var b0, b1, b2, b3 := b[0] as nat, b[1] as nat, b[2] as nat, b[3] as nat;
    Digit(b0, b1);
    Digit(b0 * 0x100 + b1, b2);
    Digit((b0 * 0x100 + b1) * 0x100 + b2, b3);
    var n := UnpackLength(b);
    assert n / 0x100 == (b0 * 0x100 + b1) * 0x100 + b2;
    assert n / 0x1_0000 == n / 0x100 / 0x100 && n / 0x100_0000 == n / 0x1_0000 / 0x100;
  }

  lemma Digit(high: nat, low: nat)
    requires low < 0x100
    ensures (high * 0x100 + low) / 0x100 == high && (high * 0x100 + low) % 0x100 == low
  {
  }

  function Frame(payload: Bytes): Bytes
    requires |payload| < 0x1_0000_0000
  {
    PackLength(|payload|) + payload
  }

  /** `next` is the position after the frame.  `Cut` is a stream that ends inside the length,
      `Broken` one that ends inside the body. */
  datatype ReadResult = Got(payload: Bytes, next: nat) | TooLarge | Cut | Broken

  function ReadFrame(s: Bytes, pos: nat, maxSize: nat): ReadResult
    requires pos <= |s|
  {
    if |s| - pos < 4 then Cut
    else
      var length := UnpackLength(s[pos..pos + 4]);
      if length > maxSize then TooLarge
      else if |s| - (pos + 4) < length then Broken
      else Got(s[pos + 4..pos + 4 + length], pos + 4 + length)
  }

  /** A written frame is read back, whatever precedes and follows it. */
  lemma ReadWritten(before: Bytes, payload: Bytes, after: Bytes, maxSize: nat)
    requires |payload| <= maxSize < 0x1_0000_0000
    ensures ReadFrame(before + Frame(payload) + after, |before|, maxSize) == Got(payload, |before + Frame(payload)|)
  {
    var s, pos := before + Frame(payload) + after, |before|;
    assert s[pos..pos + 4] == PackLength(|payload|);
    UnpackPacked(|payload|);
    var frame := Frame(payload);
    assert s[pos..pos + |frame|] == frame && frame[4..] == payload;
    assert s[pos + 4..pos + |frame|] == frame[4..];
  }

  /** Only written frames are read: the bytes consumed are the frame of what is returned. */
  lemma ReadIsWritten(s: Bytes, pos: nat, maxSize: nat)
    requires pos <= |s| && maxSize < 0x1_0000_0000 && ReadFrame(s, pos, maxSize).Got?
    ensures var r := ReadFrame(s, pos, maxSize);
            && |r.payload| <= maxSize
            && pos < r.next <= |s|
            && s[pos..r.next] == Frame(r.payload)
  {
    PackUnpacked(s[pos..pos + 4]);
    var r := ReadFrame(s, pos, maxSize);
    assert s[pos..r.next] == s[pos..pos + 4] + s[pos + 4..r.next];
  }

  /** A frame cut anywhere is never mistaken for another one. */
  lemma CutFrameFails(before: Bytes, payload: Bytes, k: nat, maxSize: nat)
    requires |payload| <= maxSize < 0x1_0000_0000 && k < |Frame(payload)|
    ensures var s := before + Frame(payload)[..k];
            ReadFrame(s, |before|, maxSize) == if k < 4 then Cut else Broken
  {
    var s, pos := before + Frame(payload)[..k], |before|;
    if k >= 4 {
      assert s[pos..pos + 4] == PackLength(|payload|);
      UnpackPacked(|payload|);
    }
  }

  // --- streams ----------------------------------------------------------------------------

  ghost predicate Legal(payloads: seq<Bytes>, maxSize: nat) {
    forall i | 0 <= i < |payloads| :: |payloads[i]| <= maxSize < 0x1_0000_0000
  }

  ghost function Stream(payloads: seq<Bytes>, maxSize: nat): Bytes
    requires Legal(payloads, maxSize)
  {
    if payloads == [] then [] else Frame(payloads[0]) + Stream(payloads[1..], maxSize)
  }

  /** Reads frames until the stream ends or breaks; the position is after the last frame. */
  function ReadAll(s: Bytes, pos: nat, maxSize: nat): (seq<Bytes>, nat)
    requires pos <= |s|
    decreases |s| - pos
  {
    match ReadFrame(s, pos, maxSize)
    case Got(payload, next) => var (rest, end) := ReadAll(s, next, maxSize); ([payload] + rest, end)
    case _ => ([], pos)
  }

  /** Reading the concatenation of legal frames returns exactly their payloads and stops at
      exactly the end. */
  lemma {:induction false} ReadAllWritten(before: Bytes, payloads: seq<Bytes>, maxSize: nat)
    requires Legal(payloads, maxSize)
    ensures var s := before + Stream(payloads, maxSize);
            ReadAll(s, |before|, maxSize) == (payloads, |s|)
    decreases |payloads|
  {
    var s := before + Stream(payloads, maxSize);
    if payloads == [] {
      assert s == before;
    } else {
      var next, rest := before + Frame(payloads[0]), Stream(payloads[1..], maxSize);
      assert s == next + rest;
      ReadWritten(before, payloads[0], rest, maxSize);
      ReadAllWritten(next, payloads[1..], maxSize);
      assert ReadAll(s, |next|, maxSize) == (payloads[1..], |s|);
      assert payloads == [payloads[0]] + payloads[1..];
    }
  }

  // --- the code's form ----------------------------------------------------------------------

  class StreamReader {
    const data: Bytes
    var pos: nat

    ghost predicate Valid()
      reads this
    {
      pos <= |data|
    }

    constructor (data: Bytes)
      ensures Valid() && this.data == data && pos == 0
    {
      this.data, pos := data, 0;
    }

    /** `None` is asyncio's IncompleteReadError, which leaves nothing to read. */
    method ReadExactly(n: nat) returns (r: Option<Bytes>)
      requires Valid()
      modifies this`pos
      ensures Valid()
      ensures old(pos) + n <= |data| ==> r == Some(data[old(pos)..old(pos) + n]) && pos == old(pos) + n
      ensures old(pos) + n > |data| ==> r == None && pos == |data|
    {
      if pos + n > |data| {
        pos := |data|;
        return None;
      }
      r := Some(data[pos..pos + n]);
      pos := pos + n;
    }

    /** The body of an over-long frame is never read: the position stays after its length. */
    method ReadOne(maxSize: nat) returns (r: ReadResult)
      requires Valid()
      modifies this`pos
      ensures Valid()
      ensures r == ReadFrame(data, old(pos), maxSize)
      ensures r.Got? ==> pos == r.next
      ensures r.TooLarge? ==> pos == old(pos) + 4
    {
      var head := ReadExactly(4);
      if head.None? {
        return Cut;
      }
      var length := UnpackLength(head.value);
      if length > maxSize {
        return TooLarge;
      }
      if length == 0 {
        return Got([], pos);
      }
      var body := ReadExactly(length);
      if body.None? {
        return Broken;
      }
      return Got(body.value, pos);
    }
  }

  class StreamWriter {
    var data: Bytes

    constructor ()
      ensures data == []
    {
      data := [];
    }

    /** Refuses what the other end would refuse, and otherwise appends one frame. */
    method WriteOne(payload: Bytes) returns (ok: bool)
      modifies this
      ensures ok == (|payload| <= MAX_FRAME_SIZE)
      ensures data == if ok then old(data) + Frame(payload) else old(data)
      ensures ok ==> ReadFrame(data, |old(data)|, MAX_FRAME_SIZE) == Got(payload, |data|)
    {
      if |payload| > MAX_FRAME_SIZE {
        return false;
      }
      ReadWritten(data, payload, [], MAX_FRAME_SIZE);
      assert data + Frame(payload) + [] == data + Frame(payload);
      data := data + Frame(payload);
      return true;
    }
  }
}

/** Codec negotiation and request reading of memnode/rpc.py. */
module RpcServer {
  import opened Common
  import opened Config
  import opened Framing

  /** The preamble "MNB1". */
  const MAGIC: Bytes := [0x4D, 0x4E, 0x42, 0x31]

  /** Which bodies the codec in use accepts. */
  type Codec = (bool, Bytes) -> bool

  /** The requests dispatched from a position on: reading stops at the end of the stream, at an
      over-long frame and at a body the codec rejects. */
  function Requests(s: Bytes, pos: nat, binary: bool, accepts: Codec): seq<Bytes>
    requires pos <= |s|
    decreases |s| - pos
  {
    match ReadFrame(s, pos, MAX_RPC_MESSAGE_SIZE)
    case Got(payload, next) =>
      if accepts(binary, payload) then [payload] + Requests(s, next, binary, accepts) else []
    case _ => []
  }

  /** The codec chosen and the requests dispatched for a client's byte stream. */
  function Serve(s: Bytes, accepts: Codec): (bool, seq<Bytes>) {
    if |s| < 4 then (false, [])
    else if s[..4] == MAGIC then (true, Requests(s, 4, true, accepts))
    else (false, Requests(s, 0, false, accepts))
  }

  ghost predicate Acceptable(requests: seq<Bytes>, binary: bool, accepts: Codec) {
    Legal(requests, MAX_RPC_MESSAGE_SIZE) && forall i | 0 <= i < |requests| :: accepts(binary, requests[i])
  }

  lemma {:induction false} RequestsRead(before: Bytes, requests: seq<Bytes>, binary: bool, accepts: Codec)
    requires Acceptable(requests, binary, accepts)
    ensures Requests(before + Stream(requests, MAX_RPC_MESSAGE_SIZE), |before|, binary, accepts) == requests
    decreases |requests|
  {
    var s := before + Stream(requests, MAX_RPC_MESSAGE_SIZE);
    if requests != [] {
      var rest := Stream(requests[1..], MAX_RPC_MESSAGE_SIZE);
      assert s == before + Frame(requests[0]) + rest;
      ReadWritten(before, requests[0], rest, MAX_RPC_MESSAGE_SIZE);
      RequestsRead(before + Frame(requests[0]), requests[1..], binary, accepts);
    }
  }

  /** No legal frame starts with the preamble, because as a length it is out of bounds. */
  lemma MagicIsNoLength(payload: Bytes)
    requires |payload| <= MAX_RPC_MESSAGE_SIZE
    ensures PackLength(|payload|) != MAGIC
  {
    UnpackPacked(|payload|);
    assert UnpackLength(MAGIC) == 0x4D4E4231;
  }

  /** The server recovers the requests of every legal client, whichever codec it speaks. */
  lemma RecoversRequests(requests: seq<Bytes>, binary: bool, accepts: Codec)
    requires Acceptable(requests, binary, accepts)
    ensures var frames := Stream(requests, MAX_RPC_MESSAGE_SIZE);
            var sent := if binary then MAGIC + frames else frames;
            Serve(sent, accepts).1 == requests && (requests != [] || binary ==> Serve(sent, accepts).0 == binary)
  {
    var frames := Stream(requests, MAX_RPC_MESSAGE_SIZE);
    if binary {
      assert (MAGIC + frames)[..4] == MAGIC;
      RequestsRead(MAGIC, requests, true, accepts);
    } else if requests != [] {
      assert frames[..4] == PackLength(|requests[0]|);
      MagicIsNoLength(requests[0]);
      RequestsRead([], requests, false, accepts);
      assert [] + frames == frames;
    }
  }

  /** `_handle_client` after authentication, up to dispatching.  A classic client's first four
      bytes are kept as the length of its first frame. */
  method HandleClient(reader: StreamReader, accepts: Codec) returns (binary: bool, dispatched: seq<Bytes>)
    requires reader.Valid() && reader.pos == 0
    modifies reader
    ensures (binary, dispatched) == Serve(reader.data, accepts)
  {
    binary, dispatched := false, [];
    var prefix := reader.ReadExactly(4);
    if prefix.None? {
      return;
    }
    var pending: Option<Bytes> := None;
    if prefix.value == MAGIC {
      binary := true;
    } else {
      pending := prefix;
    }
    dispatched := ReadRequests(reader, pending, binary, accepts);
  }

  /** Where the next frame starts, counting a length already read. */
  function StartOf(pos: nat, pending: Option<Bytes>): nat {
    if pending.Some? then 0 else pos
  }

  lemma NextRequest(s: Bytes, pos: nat, binary: bool, accepts: Codec, before: seq<Bytes>)
    requires pos <= |s| && ReadFrame(s, pos, MAX_RPC_MESSAGE_SIZE).Got?
    requires accepts(binary, ReadFrame(s, pos, MAX_RPC_MESSAGE_SIZE).payload)
    ensures var r := ReadFrame(s, pos, MAX_RPC_MESSAGE_SIZE);
            before + Requests(s, pos, binary, accepts) ==
            (before + [r.payload]) + Requests(s, r.next, binary, accepts)
  {
  }

  lemma LastRequest(s: Bytes, pos: nat, binary: bool, accepts: Codec, before: seq<Bytes>)
    requires pos <= |s|
    requires var r := ReadFrame(s, pos, MAX_RPC_MESSAGE_SIZE); r.Got? ==> !accepts(binary, r.payload)
    ensures before + Requests(s, pos, binary, accepts) == before
  {
  }

  method ReadRequests(reader: StreamReader, first: Option<Bytes>, binary: bool, accepts: Codec)
    returns (dispatched: seq<Bytes>)
    requires reader.Valid()
    requires first.Some? ==> reader.pos == 4 && first.value == reader.data[..4]
    modifies reader
    ensures dispatched == Requests(reader.data, StartOf(old(reader.pos), first), binary, accepts)
  {
    dispatched := [];
    var pending := first;
    ghost var all := Requests(reader.data, StartOf(reader.pos, first), binary, accepts);
    while true
      invariant reader.Valid()
      invariant pending.Some? ==> reader.pos == 4 && pending.value == reader.data[..4]
      invariant all == dispatched + Requests(reader.data, StartOf(reader.pos, pending), binary, accepts)
      decreases |reader.data| - reader.pos, pending.Some?
    {
      ghost var pos := StartOf(reader.pos, pending);
      var r := ReadRequest(reader, pending);
      pending := None;
      if !r.Got? || !accepts(binary, r.payload) {
        LastRequest(reader.data, pos, binary, accepts, dispatched);
        return;
      }
      NextRequest(reader.data, pos, binary, accepts, dispatched);
      dispatched := dispatched + [r.payload];
    }
  }

  method ReadRequest(reader: StreamReader, pending: Option<Bytes>) returns (r: ReadResult)
    requires reader.Valid()
    requires pending.Some? ==> reader.pos == 4 && pending.value == reader.data[..4]
    modifies reader
    ensures reader.Valid()
    ensures r == ReadFrame(reader.data, if pending.Some? then 0 else old(reader.pos), MAX_RPC_MESSAGE_SIZE)
    ensures r.Got? ==> reader.pos == r.next
  {
    var head := pending;
    if head.None? {
      head := reader.ReadExactly(4);
      if head.None? {
        return Cut;
      }
    }
    var length := UnpackLength(head.value);
    if length > MAX_RPC_MESSAGE_SIZE {
      return TooLarge;
    }
    var body := reader.ReadExactly(length);
    if body.None? {
      return Broken;
    }
    return Got(body.value, reader.pos);
  }
}
