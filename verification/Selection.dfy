/** A receiver that takes the messages of a transfer in any order, with any of them missing:
    what it then hands over, and when that is the payload. */
module Selections {
  import opened Common
  import opened Config
  import opened Messages
  import opened Chunking
  import opened Sums
  import C = Replication
  import B = Reassembly
  import N = Network

  /** The messages of one transfer's script as they reach the coordinator, by their index, with
      anything else in between. */
  datatype Mix = Idle | Gets(before: Mix, k: nat, env: C.Env) | Aside(before: Mix, event: C.Event)

  function Taken(mix: Mix): set<nat> {
    match mix
    case Idle => {}
    case Gets(before, k, _) => Taken(before) + {k}
    case Aside(before, _) => Taken(before)
  }

  /** Each message comes at most once, and nothing else is about the transfer but an abort. */
  ghost predicate MixOk(mix: Mix, id: string, sc: seq<Message>) {
    match mix
    case Idle => true
    case Gets(before, k, _) => MixOk(before, id, sc) && k < |sc| && k !in Taken(before)
    case Aside(before, ev) => MixOk(before, id, sc) && (ev.Receive? ==> ev.msg.StreamAbort? || ev.msg.reqId != Some(id))
  }

  ghost function HistoryOf(mix: Mix, peer: string, id: string, sc: seq<Message>): C.History
    requires MixOk(mix, id, sc)
  {
    match mix
    case Idle => C.Nothing
    case Gets(before, k, env) => C.After(HistoryOf(before, peer, id, sc), C.Receive(peer, sc[k], env))
    case Aside(before, ev) => C.After(HistoryOf(before, peer, id, sc), ev)
  }

  /** The chunks since the header, by index. */
  function Picked(mix: Mix): seq<nat> {
    match mix
    case Idle => []
    case Gets(before, k, _) => if k == 0 then [] else Picked(before) + [k]
    case Aside(before, _) => Picked(before)
  }

  /** The chunks from the header to the final one. */
  function Given(mix: Mix, last: nat): seq<nat> {
    match mix
    case Idle => []
    case Gets(before, k, _) => if k == last then Picked(before) + [k] else Given(before, last)
    case Aside(before, _) => Given(before, last)
  }

  function PartsAt(sc: seq<Message>, picks: seq<nat>): (parts: seq<Bytes>)
    ensures |parts| == |picks|
    ensures forall i | 0 <= i < |picks| && picks[i] < |sc| :: parts[i] == ChunkOf(sc[picks[i]])
  {
    if picks == [] then []
    else
      var n := |picks| - 1;
      PartsAt(sc, picks[..n]) + [if picks[n] < |sc| then ChunkOf(sc[picks[n]]) else []]
  }

  lemma PartsSnoc(sc: seq<Message>, picks: seq<nat>, k: nat)
    requires k < |sc|
    ensures PartsAt(sc, picks + [k]) == PartsAt(sc, picks) + [ChunkOf(sc[k])]
  {
    assert (picks + [k])[..|picks|] == picks;
  }

  /** Distinct chunk indices. */
  ghost predicate Picks(picks: seq<nat>, sc: seq<Message>, taken: set<nat>) {
    && NoDup(picks)
    && forall i | 0 <= i < |picks| :: 1 <= picks[i] < |sc| && picks[i] in taken
  }

  /** Distinct chunk indices of which the last is the final chunk's. */
  ghost predicate Selection(picks: seq<nat>, sc: seq<Message>) {
    && picks != [] && NoDup(picks) && picks[|picks| - 1] == |sc| - 1
    && forall i | 0 <= i < |picks| :: 1 <= picks[i] < |sc|
  }

  /** No chunk is missing, and each one stands where a chunk of the same content belongs. */
  ghost predicate InPlace(picks: seq<nat>, sc: seq<Message>)
    requires forall i | 0 <= i < |picks| :: picks[i] < |sc|
  {
    |picks| == |sc| - 1 && forall i | 0 <= i < |picks| :: ChunkOf(sc[picks[i]]) == ChunkOf(sc[i + 1])
  }

  lemma {:induction false} PickedOk(mix: Mix, id: string, sc: seq<Message>)
    requires MixOk(mix, id, sc) && |sc| >= 2
    ensures Picks(Picked(mix), sc, Taken(mix))
    ensures |sc| - 1 in Taken(mix) ==> Selection(Given(mix, |sc| - 1), sc)
    decreases mix
  {
    if !mix.Idle? { PickedOk(mix.before, id, sc); }
  }

  // --- what is handed over --------------------------------------------------------------

  /** The transfer as if `data` were its payload. */
  function Instead(t: Transfer, data: Bytes): Transfer {
    t.(payload := data)
  }

  ghost predicate Filled(b: C.Buffer, t: Transfer, parts: seq<Bytes>) {
    b.parts == parts && b.totalSize == |t.payload| && N.Labelled(b, t.kind)
  }

  /** The buffer holds `parts`, which needs the header to have come (`begun`); what was handed
      over is `given`, which needs the final chunk to have come too (`ended`). */
  ghost predicate Stands(c: C.Coord, id: string, t: Transfer, parts: seq<Bytes>, begun: bool, ended: bool,
                         given: seq<Bytes>) {
    var done := N.Commits(c.effects, id);
    && (Some(id) in c.buffers ==> Filled(c.buffers[Some(id)], t, parts) && begun && done == [])
    && (done == [] || (begun && ended && done == [N.Expected(Instead(t, C.Join(given)))]))
  }

  ghost predicate MixStands(c: C.Coord, mix: Mix, id: string, t: Transfer, sc: seq<Message>)
    requires sc != []
  {
    Stands(c, id, t, PartsAt(sc, Picked(mix)), 0 in Taken(mix), |sc| - 1 in Taken(mix),
           PartsAt(sc, Given(mix, |sc| - 1)))
  }

  lemma AsideStands(c: C.Coord, d: C.Coord, id: string, t: Transfer,
                    parts: seq<Bytes>, begun: bool, ended: bool, given: seq<Bytes>)
    requires Stands(c, id, t, parts, begun, ended, given) && N.Spares(c, d, id)
    ensures Stands(d, id, t, parts, begun, ended, given)
  {
  }

  lemma HeaderStands(c: C.Coord, d: C.Coord, ev: C.Event, id: string, t: Transfer,
                     parts: seq<Bytes>, ended: bool, given: seq<Bytes>)
    requires Stands(c, id, t, parts, false, ended, given) && ev.Receive? && ev.msg == Header(id, t)
    requires B.BufferMoves(c, d, ev, Some(id)) && N.Commits(d.effects, id) == N.Commits(c.effects, id)
    ensures Stands(d, id, t, [], true, ended, given)
  {
  }

  /** A header hands nothing over. */
  lemma HeaderCommits(c: C.Coord, peer: string, id: string, t: Transfer, env: C.Env)
    ensures N.Commits(C.Handle(c, peer, Header(id, t), env).effects, id) == N.Commits(c.effects, id)
  {
    var msg := Header(id, t);
    if !C.IsAnswer(c, msg) {
      if msg.StoreBlock? {
        PushCommits(c, peer, id, msg, env);
      } else {
        assert C.Handle(c, peer, msg, env) == c;
      }
    } else {
      assert C.Handle(c, peer, msg, env) == C.Resolve(c, id, msg, env);
    }
  }

  lemma PushCommits(c: C.Coord, peer: string, id: string, msg: Message, env: C.Env)
    requires msg.StoreBlock? && msg.chunked && msg.reqId == Some(id)
    ensures N.Commits(C.ServeStore(c, peer, msg, env).effects, id) == N.Commits(c.effects, id)
  {
    var nack, g := C.Reply(peer, Nack(Some(id))), C.Gc(c, env);
    N.SayOther(c, nack, id);
    N.SayOther(g, nack, id);
    assert g.effects == c.effects;
  }

  /** A chunk that finds a buffer extends it, ends it for nothing, or hands over what is in it. */
  ghost predicate Extends(c: C.Coord, d: C.Coord, msg: Message, id: string, t: Transfer)
    requires msg.BlockChunk? && msg.chunk.Some? && Some(id) in c.buffers
  {
    var b := C.Add(c.buffers[Some(id)], msg.chunk.value);
    && (N.Commits(d.effects, id) == [] ||
        (msg.final && N.Commits(d.effects, id) == [N.Expected(Instead(t, C.Join(b.parts)))]))
    && (Some(id) in d.buffers ==> !msg.final && d.buffers[Some(id)] == b)
  }

  lemma ChunkHandsOver(c: C.Coord, peer: string, msg: Message, env: C.Env, id: string, t: Transfer)
    requires msg.BlockChunk? && msg.reqId == Some(id) && id != "" && msg.chunk.Some?
    requires Some(id) in c.buffers && N.Labelled(c.buffers[Some(id)], t.kind) && N.Commits(c.effects, id) == []
    ensures Extends(c, C.Handle(c, peer, msg, env), msg, id, t)
  {
    var b := C.Add(c.buffers[Some(id)], msg.chunk.value);
    var without := c.(buffers := c.buffers - {Some(id)});
    if b.received > b.totalSize {
      N.SayOther(without, C.Reply(peer, Nack(Some(id))), id);
    } else if msg.final {
      N.FinalCommits(without, peer, id, Instead(t, C.Join(b.parts)), b, env);
    }
  }

  lemma ChunkStands(c: C.Coord, d: C.Coord, msg: Message, id: string, t: Transfer,
                    parts: seq<Bytes>, begun: bool, ended: bool, given: seq<Bytes>)
    requires Stands(c, id, t, parts, begun, ended, given) && msg.BlockChunk? && msg.chunk.Some?
    requires msg.final ==> !ended
    requires if Some(id) in c.buffers then Extends(c, d, msg, id, t) else d == c
    ensures var all := parts + [msg.chunk.value];
            Stands(d, id, t, all, begun, ended || msg.final, if msg.final then all else given)
  {
  }

  lemma {:induction false} MixHolds(c: C.Coord, mix: Mix, peer: string, id: string, t: Transfer, sc: seq<Message>)
    requires N.IsScript(sc, id, t) && id != "" && MixOk(mix, id, sc)
    requires Some(id) !in c.buffers && N.Commits(c.effects, id) == []
    ensures MixStands(C.Run(c, HistoryOf(mix, peer, id, sc)), mix, id, t, sc)
    decreases mix
  {
    if !mix.Idle? {
      MixHolds(c, mix.before, peer, id, t, sc);
      MixStep(C.Run(c, HistoryOf(mix.before, peer, id, sc)), C.Run(c, HistoryOf(mix, peer, id, sc)), mix, peer,
              id, t, sc);
    }
  }

  lemma MixStep(m: C.Coord, d: C.Coord, mix: Mix, peer: string, id: string, t: Transfer, sc: seq<Message>)
    requires N.IsScript(sc, id, t) && id != "" && MixOk(mix, id, sc) && !mix.Idle?
             && MixStands(m, mix.before, id, t, sc)
    requires d == C.Apply(m, if mix.Gets? then C.Receive(peer, sc[mix.k], mix.env) else mix.event)
    ensures MixStands(d, mix, id, t, sc)
  {
    if mix.Aside? {
      N.OtherSpares(m, mix.event, id);
      AsideStep(m, d, mix, id, t, sc);
    } else if mix.k == 0 {
      HeaderStep(m, d, mix, peer, id, t, sc);
    } else {
      ChunkStep(m, d, mix, peer, id, t, sc);
    }
  }

  lemma AsideStep(m: C.Coord, d: C.Coord, mix: Mix, id: string, t: Transfer, sc: seq<Message>)
    requires sc != [] && mix.Aside? && MixStands(m, mix.before, id, t, sc) && N.Spares(m, d, id)
    ensures MixStands(d, mix, id, t, sc)
  {
    var before, last := mix.before, |sc| - 1;
    AsideStands(m, d, id, t, PartsAt(sc, Picked(before)), 0 in Taken(before), last in Taken(before),
                PartsAt(sc, Given(before, last)));
  }

  lemma HeaderStep(m: C.Coord, d: C.Coord, mix: Mix, peer: string, id: string, t: Transfer, sc: seq<Message>)
    requires N.IsScript(sc, id, t) && MixOk(mix, id, sc) && mix.Gets? && mix.k == 0
    requires MixStands(m, mix.before, id, t, sc) && d == C.Handle(m, peer, sc[0], mix.env)
    ensures MixStands(d, mix, id, t, sc)
  {
    var before, last, ev := mix.before, |sc| - 1, C.Receive(peer, sc[0], mix.env);
    HeaderCommits(m, peer, id, t, mix.env);
    B.EventMoves(m, ev, Some(id));
    HeaderStands(m, d, ev, id, t, PartsAt(sc, Picked(before)), last in Taken(before), PartsAt(sc, Given(before, last)));
  }

  lemma ChunkStep(m: C.Coord, d: C.Coord, mix: Mix, peer: string, id: string, t: Transfer, sc: seq<Message>)
    requires N.IsScript(sc, id, t) && id != "" && MixOk(mix, id, sc) && mix.Gets? && mix.k >= 1
    requires MixStands(m, mix.before, id, t, sc) && d == C.Handle(m, peer, sc[mix.k], mix.env)
    ensures MixStands(d, mix, id, t, sc)
  {
    var before, last, msg := mix.before, |sc| - 1, sc[mix.k];
    var parts, given := PartsAt(sc, Picked(before)), PartsAt(sc, Given(before, last));
    if Some(id) in m.buffers {
      ChunkHandsOver(m, peer, msg, mix.env, id, t);
    } else {
      assert d == m;
    }
    ChunkStands(m, d, msg, id, t, parts, 0 in Taken(before), last in Taken(before), given);
    PartsSnoc(sc, Picked(before), mix.k);
    assert Picked(mix) == Picked(before) + [mix.k] && PartsAt(sc, Picked(mix)) == parts + [msg.chunk.value];
    assert Given(mix, last) == if mix.k == last then Picked(mix) else Given(before, last);
  }

  // --- when it is the payload -----------------------------------------------------------

  lemma {:induction false} JoinInjective(a: seq<Bytes>, b: seq<Bytes>)
    requires |a| == |b| && (forall i | 0 <= i < |a| :: |a[i]| == |b[i]|) && C.Join(a) == C.Join(b)
    ensures a == b
    decreases |a|
  {
    if a != [] {
      var n := |a| - 1;
      var x, y := C.Join(a[..n]), C.Join(b[..n]);
      assert |x| == |y| by { B.JoinLength(a[..n]); B.JoinLength(b[..n]); SameLengths(a[..n], b[..n]); }
      assert (x + a[n])[..|x|] == x && (y + b[n])[..|y|] == y;
      assert (x + a[n])[|x|..] == a[n] && (y + b[n])[|y|..] == b[n];
      JoinInjective(a[..n], b[..n]);
      assert a == a[..n] + [a[n]] && b == b[..n] + [b[n]];
    }
  }

  lemma {:induction false} SameLengths(a: seq<Bytes>, b: seq<Bytes>)
    requires |a| == |b| && forall i | 0 <= i < |a| :: |a[i]| == |b[i]|
    ensures B.Lengths(a) == B.Lengths(b)
    decreases |a|
  {
    if a != [] { SameLengths(a[..|a| - 1], b[..|b| - 1]); }
  }

  lemma {:induction false} LengthsGrow(parts: seq<Bytes>, i: nat, j: nat)
    requires i <= j <= |parts| && forall k | 0 <= k < |parts| :: parts[k] != []
    ensures B.Lengths(parts[..i]) <= B.Lengths(parts[..j])
    ensures i < j ==> B.Lengths(parts[..i]) < B.Lengths(parts[..j])
    decreases j
  {
    if i < j {
      assert parts[..j][..j - 1] == parts[..j - 1];
      LengthsGrow(parts, i, j - 1);
    }
  }

  /** Parts as long as the pieces of a payload, but fewer. */
  ghost predicate Sized(parts: seq<Bytes>, pieces: seq<Bytes>, size: nat) {
    && 1 <= |parts| <= |pieces|
    && (forall i | 0 <= i < |parts| - 1 :: |parts[i]| == size)
    && (forall i | 0 <= i < |pieces| :: pieces[i] != [])
    && (forall i | 0 <= i < |pieces| - 1 :: |pieces[i]| == size)
    && parts[|parts| - 1] == pieces[|pieces| - 1]
  }

  lemma SizedPrefix(parts: seq<Bytes>, pieces: seq<Bytes>, size: nat, j: nat)
    requires Sized(parts, pieces, size) && j < |parts|
    ensures B.Lengths(parts[..j]) == B.Lengths(pieces[..j]) <= B.Lengths(pieces)
  {
    SameLengths(parts[..j], pieces[..j]);
    LengthsGrow(pieces, j, |pieces|);
    assert pieces[..|pieces|] == pieces;
  }

  lemma SizedWhole(parts: seq<Bytes>, pieces: seq<Bytes>, size: nat)
    requires Sized(parts, pieces, size)
    ensures B.Lengths(parts) <= B.Lengths(pieces)
    ensures B.Lengths(parts) == B.Lengths(pieces) <==> |parts| == |pieces|
  {
    var n, m := |parts| - 1, |pieces| - 1;
    SizedPrefix(parts, pieces, size, n);
    LengthsGrow(pieces, n, m);
  }

  /** Every message of a script carries the piece of its number. */
  lemma ScriptPieces(id: string, t: Transfer, size: nat, k: nat)
    requires size >= 1 && 1 <= k < |Script(id, t, size)|
    ensures |Script(id, t, size)| == |Pieces(t.payload, size)| + 1
    ensures ChunkOf(Script(id, t, size)[k]) == Pieces(t.payload, size)[k - 1]
  {
  }

  lemma SelectionFits(picks: seq<nat>, sc: seq<Message>)
    requires Selection(picks, sc)
    ensures |picks| <= |sc| - 1
  {
    var all := set k | k in picks;
    NoDupCount(picks, all);
    SubsetSize(all, Range(1, |sc| - 1));
  }

  /** All chunks of a selection but the last are full, and the last is the final one. */
  lemma SelectionSized(id: string, t: Transfer, size: nat, picks: seq<nat>)
    requires size >= 1 && Selection(picks, Script(id, t, size))
    ensures Sized(PartsAt(Script(id, t, size), picks), Pieces(t.payload, size), size)
  {
    var sc := Script(id, t, size);
    PiecesFit(t.payload, size);
    SelectionFits(picks, sc);
    forall i | 0 <= i < |picks| ensures ChunkOf(sc[picks[i]]) == Pieces(t.payload, size)[picks[i] - 1] {
      ScriptPieces(id, t, size, picks[i]);
    }
    forall i | 0 <= i < |picks| - 1 ensures picks[i] < |sc| - 1 {
      assert picks[i] != picks[|picks| - 1];
    }
  }

  /** Sized parts join to what the pieces do exactly when they are the pieces. */
  lemma SizedExactly(parts: seq<Bytes>, pieces: seq<Bytes>, size: nat)
    requires Sized(parts, pieces, size)
    ensures C.Join(parts) == C.Join(pieces) <==> parts == pieces
  {
    if C.Join(parts) == C.Join(pieces) {
      B.JoinLength(parts);
      B.JoinLength(pieces);
      SizedWhole(parts, pieces, size);
      JoinInjective(parts, pieces);
    }
  }

  /** A selection makes up the payload exactly when no chunk is missing and each one stands
      where a chunk of the same content belongs. */
  lemma SelectionExactly(id: string, t: Transfer, size: nat, picks: seq<nat>)
    requires size >= 1 && Selection(picks, Script(id, t, size))
    ensures var sc := Script(id, t, size);
            C.Join(PartsAt(sc, picks)) == t.payload <==>
            InPlace(picks, sc)
  {
    SelectionSized(id, t, size, picks);
    PiecesJoin(t.payload, size);
    ScriptIsPieces(id, t, size);
    SelectionOf(Script(id, t, size), picks, Pieces(t.payload, size), size);
  }

  lemma ScriptIsPieces(id: string, t: Transfer, size: nat)
    requires size >= 1
    ensures var sc, pieces := Script(id, t, size), Pieces(t.payload, size);
            |pieces| == |sc| - 1 && forall i | 0 <= i < |pieces| :: ChunkOf(sc[i + 1]) == pieces[i]
  {
  }

  lemma SelectionOf(sc: seq<Message>, picks: seq<nat>, pieces: seq<Bytes>, size: nat)
    requires Selection(picks, sc) && Sized(PartsAt(sc, picks), pieces, size)
    requires |pieces| == |sc| - 1 && forall i | 0 <= i < |pieces| :: ChunkOf(sc[i + 1]) == pieces[i]
    ensures C.Join(PartsAt(sc, picks)) == C.Join(pieces) <==>
            InPlace(picks, sc)
  {
    SizedExactly(PartsAt(sc, picks), pieces, size);
    SamePieces(sc, picks, PartsAt(sc, picks), pieces);
  }

  lemma SamePieces(sc: seq<Message>, picks: seq<nat>, parts: seq<Bytes>, pieces: seq<Bytes>)
    requires (forall i | 0 <= i < |picks| :: picks[i] < |sc|) && parts == PartsAt(sc, picks)
    requires |pieces| == |sc| - 1 && forall i | 0 <= i < |pieces| :: ChunkOf(sc[i + 1]) == pieces[i]
    ensures parts == pieces <==>
            InPlace(picks, sc)
  {
    if parts == pieces {
      assert forall i | 0 <= i < |picks| :: ChunkOf(sc[picks[i]]) == parts[i] == pieces[i];
    }
  }

  // --- every selection can come about ---------------------------------------------------

  /** A beginning of a selection never exceeds what its header declared. */
  lemma BeginningFits(id: string, t: Transfer, size: nat, picks: seq<nat>, j: nat)
    requires size >= 1 && Selection(picks, Script(id, t, size)) && j <= |picks|
    ensures B.Lengths(PartsAt(Script(id, t, size), picks[..j])) <= |t.payload|
  {
    var parts, pieces := PartsAt(Script(id, t, size), picks), Pieces(t.payload, size);
    SelectionSized(id, t, size, picks);
    PiecesJoin(t.payload, size);
    B.JoinLength(pieces);
    assert PartsAt(Script(id, t, size), picks[..j]) == parts[..j];
    if j < |picks| {
      SizedPrefix(parts, pieces, size, j);
    } else {
      SizedWhole(parts, pieces, size);
      assert parts[..j] == parts;
    }
  }

  /** The push is open and holds the chunks picked so far. */
  ghost predicate Going(c: C.Coord, id: string, t: Transfer, parts: seq<Bytes>) {
    && Some(id) in c.buffers && Filled(c.buffers[Some(id)], t, parts)
    && c.buffers[Some(id)].received == B.Lengths(parts) && N.Commits(c.effects, id) == []
  }

  lemma HeaderGoes(threshold: int, peer: string, env: C.Env, id: string, t: Transfer)
    requires t.kind.Push? && 0 < |t.payload| <= MAX_BLOCK_SIZE
    ensures Going(C.Apply(C.Start(threshold), C.Receive(peer, Header(id, t), env)), id, t, [])
  {
    var c, msg := C.Start(threshold), Header(id, t);
    assert C.Gc(c, env) == c;
    assert C.Handle(c, peer, msg, env) == C.ServeStore(c, peer, msg, env);
  }

  lemma ChunkGoes(c: C.Coord, peer: string, msg: Message, env: C.Env, id: string, t: Transfer, parts: seq<Bytes>)
    requires t.kind.Push? && id != "" && Going(c, id, t, parts)
    requires msg.BlockChunk? && msg.reqId == Some(id) && msg.chunk.Some?
    requires B.Lengths(parts + [msg.chunk.value]) <= |t.payload|
    ensures var d, all := C.Apply(c, C.Receive(peer, msg, env)), parts + [msg.chunk.value];
            if msg.final then N.Commits(d.effects, id) == [N.Expected(Instead(t, C.Join(all)))]
            else Going(d, id, t, all)
  {
    var b := C.Add(c.buffers[Some(id)], msg.chunk.value);
    assert (parts + [msg.chunk.value])[..|parts|] == parts;
    if msg.final {
      N.FinalCommits(c.(buffers := c.buffers - {Some(id)}), peer, id, Instead(t, C.Join(b.parts)), b, env);
    }
  }

  /** A fresh coordinator that receives the header and then the first j chunks of a selection. */
  ghost function Beginning(threshold: int, peer: string, env: C.Env, sc: seq<Message>, picks: seq<nat>): C.Coord
    requires sc != [] && forall i | 0 <= i < |picks| :: picks[i] < |sc|
    decreases |picks|
  {
    if picks == [] then C.Apply(C.Start(threshold), C.Receive(peer, sc[0], env))
    else
      var n := |picks| - 1;
      C.Apply(Beginning(threshold, peer, env, sc, picks[..n]), C.Receive(peer, sc[picks[n]], env))
  }

  lemma ScriptIs(id: string, t: Transfer, size: nat)
    requires size >= 1 && t.payload != []
    ensures N.IsScript(Script(id, t, size), id, t)
  {
    ScriptData(id, t, size);
  }

  /** The next chunk of a selection. */
  lemma GoesOn(c: C.Coord, d: C.Coord, peer: string, env: C.Env, id: string, t: Transfer, sc: seq<Message>,
               picks: seq<nat>, j: nat)
    requires id != "" && t.kind.Push? && N.IsScript(sc, id, t) && Selection(picks, sc) && j < |picks|
    requires B.Lengths(PartsAt(sc, picks[..j + 1])) <= |t.payload|
    requires Going(c, id, t, PartsAt(sc, picks[..j])) && d == C.Apply(c, C.Receive(peer, sc[picks[j]], env))
    ensures var parts := PartsAt(sc, picks[..j + 1]);
            if j + 1 < |picks| then Going(d, id, t, parts)
            else N.Commits(d.effects, id) == [N.Expected(Instead(t, C.Join(parts)))]
  {
    var k := picks[j];
    assert picks[..j + 1] == picks[..j] + [k];
    PartsSnoc(sc, picks[..j], k);
    if j + 1 < |picks| { assert k != picks[|picks| - 1]; }
    ChunkGoes(c, peer, sc[k], env, id, t, PartsAt(sc, picks[..j]));
  }

  /** No beginning of the selection exceeds `total`. */
  ghost predicate Within(sc: seq<Message>, picks: seq<nat>, total: nat) {
    forall j | 0 <= j <= |picks| :: B.Lengths(PartsAt(sc, picks[..j])) <= total
  }

  lemma {:induction false} BeginningGoes(threshold: int, peer: string, env: C.Env, id: string, t: Transfer,
                                         sc: seq<Message>,
                                         picks: seq<nat>, j: nat)
    requires id != "" && t.kind.Push? && 0 < |t.payload| <= MAX_BLOCK_SIZE && N.IsScript(sc, id, t)
    requires Selection(picks, sc) && Within(sc, picks, |t.payload|) && j < |picks|
    ensures Going(Beginning(threshold, peer, env, sc, picks[..j]), id, t, PartsAt(sc, picks[..j]))
    decreases j
  {
    if j == 0 {
      HeaderGoes(threshold, peer, env, id, t);
    } else {
      BeginningGoes(threshold, peer, env, id, t, sc, picks, j - 1);
      assert picks[..j][..j - 1] == picks[..j - 1];
      GoesOn(Beginning(threshold, peer, env, sc, picks[..j - 1]), Beginning(threshold, peer, env, sc, picks[..j]),
             peer, env, id, t, sc, picks, j - 1);
    }
  }

  /** Whichever chunks come, in whichever order: a push commits them when the final one does. */
  lemma SelectionCommits(threshold: int, peer: string, env: C.Env, id: string, t: Transfer, size: nat, picks: seq<nat>)
    requires size >= 1 && id != "" && t.kind.Push? && 0 < |t.payload| <= MAX_BLOCK_SIZE
    requires Selection(picks, Script(id, t, size))
    ensures var sc := Script(id, t, size);
            N.Commits(Beginning(threshold, peer, env, sc, picks).effects, id) ==
            [N.Expected(Instead(t, C.Join(PartsAt(sc, picks))))]
  {
    forall j | 0 <= j <= |picks| ensures B.Lengths(PartsAt(Script(id, t, size), picks[..j])) <= |t.payload| {
      BeginningFits(id, t, size, picks, j);
    }
    ScriptIs(id, t, size);
    BeginningEnds(threshold, peer, env, id, t, Script(id, t, size), picks);
  }

  lemma BeginningEnds(threshold: int, peer: string, env: C.Env, id: string, t: Transfer, sc: seq<Message>,
                      picks: seq<nat>)
    requires id != "" && t.kind.Push? && 0 < |t.payload| <= MAX_BLOCK_SIZE && N.IsScript(sc, id, t)
    requires Selection(picks, sc) && Within(sc, picks, |t.payload|)
    ensures N.Commits(Beginning(threshold, peer, env, sc, picks).effects, id) ==
            [N.Expected(Instead(t, C.Join(PartsAt(sc, picks))))]
  {
    var n := |picks| - 1;
    BeginningGoes(threshold, peer, env, id, t, sc, picks, n);
    assert picks[..n + 1] == picks;
    GoesOn(Beginning(threshold, peer, env, sc, picks[..n]), Beginning(threshold, peer, env, sc, picks),
           peer, env, id, t, sc, picks, n);
  }
}
