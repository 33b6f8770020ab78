/** The block store of memnode/blocks.py with atomic operations, as the event loop runs
    them.  The key table is kept the plain way: freeing a block scans it for every key that
    points there. */
module Blocks {
  import opened Common
  import opened Config
  import opened Messages
  import opened Sums
  import opened Eviction

  datatype Entry = Entry(data: Bytes, durability: Durability, key: Option<string>)

  datatype State = State(max: nat, blocks: map<nat, Entry>, latest: map<string, nat>, nextId: nat)

  datatype Result = Stored(id: nat) | TooLarge | OutOfMemory

  function Start(max: nat): State {
    State(max, map[], map[], 1)
  }

  function Size(e: Entry): nat {
    |e.data|
  }

  ghost function Used(s: State): nat {
    SumOf(s.blocks, Size)
  }

  function SizeIn(blocks: map<nat, Entry>): nat -> nat {
    (id: nat) => if id in blocks then |blocks[id].data| else 0
  }

  function CacheIds(blocks: map<nat, Entry>): set<nat> {
    set id | id in blocks && blocks[id].durability.Cache?
  }

  ghost function PinnedBytes(s: State): nat {
    SumOf(s.blocks - CacheIds(s.blocks), Size)
  }

  function Elements(ids: Ids): set<nat> {
    match ids
    case Nil => {}
    case Cons(id, rest) => {id} + Elements(rest)
  }

  predicate Distinct(ids: Ids) {
    ids.Cons? ==> ids.id !in Elements(ids.rest) && Distinct(ids.rest)
  }

  /** The plan lists every evictable block once. */
  predicate PlanOk(blocks: map<nat, Entry>, plan: Plan) {
    Distinct(Flat(plan)) && Elements(Flat(plan)) == CacheIds(blocks)
  }

  /** The full scan: every key that points at a block in `gone` is deleted. */
  function Scan(latest: map<string, nat>, gone: set<nat>): map<string, nat> {
    map k | k in latest && latest[k] !in gone :: latest[k]
  }

  function Remove(s: State, gone: set<nat>): State {
    s.(blocks := s.blocks - gone, latest := Scan(s.latest, gone))
  }

  /** The bytes missing for `size` more. */
  ghost function Short(s: State, size: nat): int {
    Used(s) + size - s.max
  }

  ghost function MakeRoom(s: State, size: nat, plan: Plan): State {
    if Short(s, size) <= 0 then s
    else Remove(s, Elements(Evict(SizeIn(s.blocks), plan, Short(s, size), 0)))
  }

  /** Adds a block and lets its key point at it; the block the key pointed at goes. */
  function Insert(s: State, e: Entry): State {
    var id := s.nextId;
    var t := s.(blocks := s.blocks[id := e], nextId := id + 1);
    if e.key.None? then t
    else
      var key := e.key.value;
      var old' := if key in s.latest then {s.latest[key]} else {};
      t.(blocks := t.blocks - old', latest := s.latest[key := id])
  }

  ghost function Store(s: State, e: Entry, plan: Plan): (State, Result) {
    if |e.data| > MAX_BLOCK_SIZE then (s, TooLarge)
    else
      var t := MakeRoom(s, |e.data|, plan);
      if Short(t, |e.data|) > 0 then (t, OutOfMemory) else (Insert(t, e), Stored(t.nextId))
  }

  function Free(s: State, id: nat): (State, bool) {
    if id !in s.blocks then (s, false) else (Remove(s, {id}), true)
  }

  function FreeByKey(s: State, key: string): (State, bool) {
    if key !in s.latest then (s, false) else Free(s, s.latest[key])
  }

  function LoadByKey(s: State, key: string): Option<Bytes> {
    if key in s.latest && s.latest[key] in s.blocks then Some(s.blocks[s.latest[key]].data) else None
  }

  // --- invariant ------------------------------------------------------------------------

  /** Keys and keyed blocks correspond one to one. */
  ghost predicate Bijective(blocks: map<nat, Entry>, latest: map<string, nat>) {
    && (forall k <- latest :: latest[k] in blocks && blocks[latest[k]].key == Some(k))
    && (forall id <- blocks :: blocks[id].key.Some? ==>
          blocks[id].key.value in latest && latest[blocks[id].key.value] == id)
  }

  ghost predicate Inv(s: State) {
    && Bijective(s.blocks, s.latest)
    && Used(s) <= s.max
    && forall id <- s.blocks :: id < s.nextId
  }

  /** Because each block knows its key, the one-entry removal is the full scan. */
  lemma OneEntryIsScan(blocks: map<nat, Entry>, latest: map<string, nat>, id: nat)
    requires Bijective(blocks, latest) && id in blocks
    ensures Scan(latest, {id}) == if blocks[id].key.Some? then latest - {blocks[id].key.value} else latest
  {
    var key := blocks[id].key;
    if key.Some? {
      assert forall k <- latest :: latest[k] == id <==> k == key.value;
    } else {
      assert forall k <- latest :: latest[k] != id;
    }
  }

  lemma RemoveBijective(blocks: map<nat, Entry>, latest: map<string, nat>, gone: set<nat>)
    requires Bijective(blocks, latest)
    ensures Bijective(blocks - gone, Scan(latest, gone))
  {
  }

  lemma RemoveInv(s: State, gone: set<nat>)
    requires Inv(s)
    ensures Inv(Remove(s, gone))
    ensures Used(Remove(s, gone)) <= Used(s)
  {
    RemoveBijective(s.blocks, s.latest, gone);
    var inside := gone * s.blocks.Keys;
    assert s.blocks - gone == s.blocks - inside;
    SumSplit(s.blocks, inside, Size);
  }

  lemma InsertBijective(s: State, e: Entry)
    requires Bijective(s.blocks, s.latest) && s.nextId !in s.blocks
    ensures Bijective(Insert(s, e).blocks, Insert(s, e).latest)
  {
  }

  /** Rebinding a key never adds to what is used beyond the new block. */
  lemma InsertUsed(s: State, e: Entry)
    requires s.nextId !in s.blocks && Bijective(s.blocks, s.latest)
    ensures Used(Insert(s, e)) ==
            Used(s) + |e.data| -
            (if e.key.Some? && e.key.value in s.latest then |s.blocks[s.latest[e.key.value]].data| else 0)
  {
    var id := s.nextId;
    SumUpdate(s.blocks, id, e, Size);
    if e.key.Some? && e.key.value in s.latest {
      var old' := s.latest[e.key.value];
      SumRemove(s.blocks[id := e], old', Size);
    } else {
      assert s.blocks[id := e] - {} == s.blocks[id := e];
    }
  }

  lemma StoreInv(s: State, e: Entry, plan: Plan)
    requires Inv(s)
    ensures Inv(Store(s, e, plan).0)
  {
    var size := |e.data|;
    var t := MakeRoom(s, size, plan);
    RemoveInv(s, Elements(Evict(SizeIn(s.blocks), plan, Short(s, size), 0)));
    if size <= MAX_BLOCK_SIZE && Short(t, size) <= 0 {
      InsertBijective(t, e);
      InsertUsed(t, e);
    }
  }

  datatype Operation = DoStore(e: Entry, plan: Plan) | DoFree(id: nat) | DoFreeByKey(key: string)

  datatype History = Nothing | After(before: History, op: Operation)

  ghost function Apply(s: State, op: Operation): State {
    match op
    case DoStore(e, plan) => Store(s, e, plan).0
    case DoFree(id) => Free(s, id).0
    case DoFreeByKey(key) => FreeByKey(s, key).0
  }

  ghost function Run(max: nat, h: History): State {
    match h
    case Nothing => Start(max)
    case After(before, op) => Apply(Run(max, before), op)
  }

  /** After any run of stores, rebindings, frees and evictions, keys and keyed blocks are in
      bijection, the quota holds and ids are fresh. */
  lemma {:induction false} RunInv(max: nat, h: History)
    ensures Inv(Run(max, h))
    decreases h
  {
    if h.After? {
      RunInv(max, h.before);
      var s := Run(max, h.before);
      match h.op
      case DoStore(e, plan) => StoreInv(s, e, plan);
      case DoFree(id) => RemoveInv(s, {id});
      case DoFreeByKey(key) => if key in s.latest { RemoveInv(s, {s.latest[key]}); }
    }
  }
}
