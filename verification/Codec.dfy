/** A message codec, in place of msgpack: the end-to-end results hold for any codec of which
    decoding undoes encoding, and this is one. */
module Codec {
  import opened Common
  import opened Messages

  // --- numbers as bytes -----------------------------------------------------------------

  function Tally(n: nat): Bytes {
    if n == 0 then [0] else [1] + Tally(n - 1)
  }

  function Tallies(ns: seq<nat>): Bytes {
    if ns == [] then [] else Tally(ns[0]) + Tallies(ns[1..])
  }

  function Count(b: Bytes, so: nat): seq<nat>
    decreases |b|
  {
    if b == [] then [] else if b[0] == 0 then [so] + Count(b[1..], 0) else Count(b[1..], so + 1)
  }

  lemma {:induction false} CountTally(n: nat, rest: Bytes, so: nat)
    ensures Count(Tally(n) + rest, so) == [so + n] + Count(rest, 0)
    decreases n
  {
    var b := Tally(n) + rest;
    if n == 0 {
      assert b[1..] == rest;
    } else {
      assert b[1..] == Tally(n - 1) + rest;
      CountTally(n - 1, rest, so + 1);
    }
  }

  lemma {:induction false} CountTallies(ns: seq<nat>)
    ensures Count(Tallies(ns), 0) == ns
    decreases |ns|
  {
    if ns != [] {
      CountTally(ns[0], Tallies(ns[1..]), 0);
      CountTallies(ns[1..]);
    }
  }

  // --- fields as numbers ----------------------------------------------------------------

  type Field = seq<nat>

  function Flatten(fields: seq<Field>): seq<nat> {
    if fields == [] then [] else [|fields[0]|] + fields[0] + Flatten(fields[1..])
  }

  function Unflatten(ns: seq<nat>): seq<Field>
    decreases |ns|
  {
    if ns == [] || ns[0] >= |ns| then [] else [ns[1..ns[0] + 1]] + Unflatten(ns[ns[0] + 1..])
  }

  lemma {:induction false} UnflattenFlat(fields: seq<Field>)
    ensures Unflatten(Flatten(fields)) == fields
    decreases |fields|
  {
    if fields != [] {
      var f, ns := fields[0], Flatten(fields);
      UnflattenFlat(fields[1..]);
      assert ns[0] == |f| && ns[1..|f| + 1] == f && ns[|f| + 1..] == Flatten(fields[1..]);
    }
  }

  // --- values as fields -----------------------------------------------------------------

  function OfInt(x: int): nat {
    if x >= 0 then 2 * x else -2 * x - 1
  }

  function ToInt(n: nat): int {
    if n % 2 == 0 then n / 2 else -((n + 1) / 2)
  }

  function OfText(s: string): Field {
    if s == [] then [] else [s[0] as int] + OfText(s[1..])
  }

  function ToChar(n: nat): char {
    if n < 0xD800 || 0xE000 <= n < 0x11_0000 then n as char else ' '
  }

  function ToText(f: Field): string {
    if f == [] then [] else [ToChar(f[0])] + ToText(f[1..])
  }

  function OfBytes(b: Bytes): Field {
    if b == [] then [] else [b[0] as int] + OfBytes(b[1..])
  }

  function ToBytes(f: Field): Bytes {
    if f == [] then [] else [if f[0] < 256 then f[0] as byte else 0] + ToBytes(f[1..])
  }

  lemma {:induction false} TextBack(s: string)
    ensures ToText(OfText(s)) == s
  {
    if s != [] { TextBack(s[1..]); }
  }

  lemma {:induction false} BytesBack(b: Bytes)
    ensures ToBytes(OfBytes(b)) == b
  {
    if b != [] { BytesBack(b[1..]); }
  }

  function TextField(o: Option<string>): Field {
    match o case None => [] case Some(s) => [0] + OfText(s)
  }

  function FieldText(f: Field): Option<string> {
    if f == [] then None else Some(ToText(f[1..]))
  }

  function BytesField(o: Option<Bytes>): Field {
    match o case None => [] case Some(b) => [0] + OfBytes(b)
  }

  function FieldBytes(f: Field): Option<Bytes> {
    if f == [] then None else Some(ToBytes(f[1..]))
  }

  function IntField(o: Option<int>): Field {
    match o case None => [] case Some(x) => [OfInt(x)]
  }

  function FieldInt(f: Field): Option<int> {
    if f == [] then None else Some(ToInt(f[0]))
  }

  function DurabilityField(o: Option<Durability>): Field {
    match o case None => [] case Some(d) => [if d.Pinned? then 0 else 1]
  }

  function FieldDurability(f: Field): Option<Durability> {
    if f == [] then None else Some(if f[0] == 0 then Pinned else Cache)
  }

  function FlagField(b: bool): Field {
    [if b then 1 else 0]
  }

  function FieldNumber(f: Field): nat {
    if f == [] then 0 else f[0]
  }

  lemma FieldsBack(t: Option<string>, b: Option<Bytes>, i: Option<int>, d: Option<Durability>)
    ensures FieldText(TextField(t)) == t && FieldBytes(BytesField(b)) == b
    ensures FieldInt(IntField(i)) == i && FieldDurability(DurabilityField(d)) == d
  {
    if t.Some? {
      TextBack(t.value);
      assert TextField(t)[1..] == OfText(t.value);
    }
    if b.Some? {
      BytesBack(b.value);
      assert BytesField(b)[1..] == OfBytes(b.value);
    }
  }

  // --- messages -------------------------------------------------------------------------

  /** Seven fields for every message, with its kind and request id first. */
  function FieldsOf(m: Message): (r: seq<Field>)
    ensures |r| == 7
  {
    var id := TextField(m.reqId);
    match m
    case BlockChunk(_, number, chunk, final) => [[0], id, [number], BytesField(chunk), FlagField(final), [], []]
    case StreamAbort(_) => [[1], id, [], [], [], [], []]
    case StoreBlock(_, chunked, size, payload, durability, key) =>
      [[2], id, FlagField(chunked), IntField(size), BytesField(payload), DurabilityField(durability), TextField(key)]
    case RequestBlock(_, block, key) => [[3], id, IntField(block), TextField(key), [], [], []]
    case FreeBlock(_, block) => [[4], id, IntField(block), [], [], [], []]
    case Ping(_) => [[5], id, [], [], [], [], []]
    case BlockData(_, chunked, size, payload, block) =>
      [[6], id, FlagField(chunked), [OfInt(size)], BytesField(payload), IntField(block), []]
    case BlockNotFound(_) => [[7], id, [], [], [], [], []]
    case Nack(_) => [[8], id, [], [], [], [], []]
    case Pong(_) => [[9], id, [], [], [], [], []]
    case Freed(_, freed) => [[10], id, FlagField(freed), [], [], [], []]
    case Unhandled(_) => [[11], id, [], [], [], [], []]
  }

  function MessageOf(f: seq<Field>): Option<Message> {
    if |f| != 7 then None
    else
      var kind, id := FieldNumber(f[0]), FieldText(f[1]);
      match kind
      case 0 => Some(BlockChunk(id, FieldNumber(f[2]), FieldBytes(f[3]), FieldNumber(f[4]) == 1))
      case 1 => Some(StreamAbort(id))
      case 2 => Some(StoreBlock(id, FieldNumber(f[2]) == 1, FieldInt(f[3]), FieldBytes(f[4]), FieldDurability(f[5]),
                                FieldText(f[6])))
      case 3 => Some(RequestBlock(id, FieldInt(f[2]), FieldText(f[3])))
      case 4 => Some(FreeBlock(id, FieldInt(f[2])))
      case 5 => Some(Ping(id))
      case 6 => Some(BlockData(id, FieldNumber(f[2]) == 1, ToInt(FieldNumber(f[3])), FieldBytes(f[4]), FieldInt(f[5])))
      case 7 => Some(BlockNotFound(id))
      case 8 => Some(Nack(id))
      case 9 => Some(Pong(id))
      case 10 => Some(Freed(id, FieldNumber(f[2]) == 1))
      case 11 => Some(Unhandled(id))
      case _ => None
  }

  lemma StoreBack(m: Message)
    requires m.StoreBlock?
    ensures MessageOf(FieldsOf(m)) == Some(m)
  {
    FieldsBack(m.reqId, m.payload, m.totalSize, m.durability);
    FieldsBack(m.key, None, None, None);
  }

  lemma BlockBack(m: Message)
    requires m.RequestBlock? || m.FreeBlock? || m.BlockData?
    ensures MessageOf(FieldsOf(m)) == Some(m)
  {
    FieldsBack(m.reqId, if m.BlockData? then m.payload else None, m.blockId, None);
    FieldsBack(if m.RequestBlock? then m.key else None, None, None, None);
  }

  lemma ChunkBack(m: Message)
    requires m.BlockChunk?
    ensures MessageOf(FieldsOf(m)) == Some(m)
  {
    FieldsBack(m.reqId, m.chunk, None, None);
  }

  /** A message with a request id and at most a flag. */
  lemma BareBack(m: Message)
    requires !m.BlockChunk? && !m.StoreBlock? && !m.RequestBlock? && !m.FreeBlock? && !m.BlockData?
    ensures MessageOf(FieldsOf(m)) == Some(m)
  {
    FieldsBack(m.reqId, None, None, None);
    var f := FieldsOf(m);
    assert f[1] == TextField(m.reqId) && FieldText(f[1]) == m.reqId;
  }

  lemma MessageBack(m: Message)
    ensures MessageOf(FieldsOf(m)) == Some(m)
  {
    match m
    case BlockChunk(_, _, _, _) => ChunkBack(m);
    case StoreBlock(_, _, _, _, _, _) => StoreBack(m);
    case RequestBlock(_, _, _) => BlockBack(m);
    case FreeBlock(_, _) => BlockBack(m);
    case BlockData(_, _, _, _, _) => BlockBack(m);
    case _ => BareBack(m);
  }

  function Encode(m: Message): Bytes {
    Tallies(Flatten(FieldsOf(m)))
  }

  function Decode(b: Bytes): Option<Message> {
    MessageOf(Unflatten(Count(b, 0)))
  }

  /** Decoding undoes encoding. */
  lemma DecodeEncoded(m: Message)
    ensures Decode(Encode(m)) == Some(m)
  {
    CountTallies(Flatten(FieldsOf(m)));
    UnflattenFlat(FieldsOf(m));
    MessageBack(m);
  }
}

/** The whole path with that codec: the results about it speak of something. */
module Instances {
  import opened Common
  import opened KeySchedule
  import opened Codec
  import S = Senders
  import R = Receivers
  import X = Muxes
  import C = Replication
  import N = Network
  import E = EndToEnd

  function Fresh(u: N.Setup, side: Side, capacity: nat, interval: nat, maxSkip: int, windowSize: nat,
                 threshold: int): E.Link {
    E.Link(X.Start(capacity), S.Start(side, interval), [], [], false,
           R.Start(side, interval, maxSkip, windowSize), 0, [], C.Start(threshold), map id | id in u.plan :: 0)
  }

  /** Every plan of transfers has a start, with any capacity, role and channel parameters. */
  lemma HasStart(u: N.Setup, side: Side, capacity: nat, interval: nat, maxSkip: int, windowSize: nat, threshold: int)
    requires N.SetupOk(u) && interval >= 1 && maxSkip >= 1 && windowSize >= 1
    ensures E.Initial(E.Ends(u, Encode, Decode), Fresh(u, side, capacity, interval, maxSkip, windowSize, threshold))
  {
    forall msg ensures Decode(Encode(msg)) == Some(msg) { DecodeEncoded(msg); }
  }
}
