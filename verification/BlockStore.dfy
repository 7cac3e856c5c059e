/**
 * Blocks of an entry and the chunks derived from their text. A block's stored chunks must always be what the
 * splitter makes of its current text.
 */
module BlockStore {
  import opened Prelude
  import opened Chunking

  type Id = nat
  type Name = nat

  datatype Error = NotFound(id: Id) | Validation

  datatype Block = Block(entry: Id, ordinal: nat, kind: Name, text: string, attrs: AttrsValue)

  /** A chunk's attributes are its block's, plus the block's kind, as they were when it was derived. */
  datatype Mark = Mark(attrs: AttrsValue, kind: Name)

  datatype Chunk = Chunk(block: Id, ordinal: nat, text: string, mark: Mark)

  datatype Tables = Tables(entries: set<Id>, blocks: map<Id, Block>, chunks: map<Id, Chunk>)

  // ---- What must hold ----

  predicate At(blocks: map<Id, Block>, i: Id, e: Id, ordinal: nat) {
    i in blocks && blocks[i].entry == e && blocks[i].ordinal == ordinal
  }

  /** `UNIQUE(entry_id, ordinal)` and the range of the column. */
  ghost predicate OrdinalsUnique(blocks: map<Id, Block>) {
    && (forall i, j :: i in blocks && j in blocks && blocks[i].entry == blocks[j].entry && blocks[i].ordinal == blocks[j].ordinal ==> i == j)
    && (forall i :: i in blocks ==> blocks[i].ordinal < U32_LIMIT)
  }

  ghost predicate Linked(s: Tables) {
    && (forall i :: i in s.blocks ==> s.blocks[i].entry in s.entries)
    && (forall c :: c in s.chunks ==> s.chunks[c].block in s.blocks)
  }

  ghost predicate Holds(chunks: map<Id, Chunk>, c: Id, b: Id, k: nat, piece: string) {
    c in chunks && chunks[c].block == b && chunks[c].ordinal == k && chunks[c].text == piece
  }

  ghost predicate HasPiece(chunks: map<Id, Chunk>, b: Id, k: nat, piece: string) {
    exists c :: Holds(chunks, c, b, k, piece)
  }

  /** The chunks of `b` are exactly `pieces`: ordinals 0 to n - 1, one chunk each. */
  ghost predicate ChunkedAs(chunks: map<Id, Chunk>, b: Id, pieces: seq<string>) {
    && (forall c :: c in chunks && chunks[c].block == b ==>
          chunks[c].ordinal < |pieces| && Holds(chunks, c, b, chunks[c].ordinal, pieces[chunks[c].ordinal]))
    && (forall c, d :: c in chunks && d in chunks && chunks[c].block == b && chunks[d].block == b && chunks[c].ordinal == chunks[d].ordinal ==> c == d)
    && (forall k :: 0 <= k < |pieces| ==> HasPiece(chunks, b, k, pieces[k]))
  }

  ghost predicate Agrees(s: Tables, target: nat) {
    forall b {:trigger s.blocks[b]} {:trigger b in s.blocks} :: b in s.blocks ==> ChunkedAs(s.chunks, b, ChunkText(s.blocks[b].text, target))
  }

  ghost predicate Sound(s: Tables, target: nat) {
    OrdinalsUnique(s.blocks) && Linked(s) && Agrees(s, target)
  }

  // ---- Operations ----

  /** Ids the generator hands out: new and distinct. */
  ghost predicate NewIds(s: Tables, ids: seq<Id>) {
    && Distinct(ids)
    && forall i :: 0 <= i < |ids| ==> ids[i] !in s.chunks && ids[i] !in s.blocks
  }

  function InsertChunks(chunks: map<Id, Chunk>, b: Id, pieces: seq<string>, ids: seq<Id>, mark: Mark): map<Id, Chunk>
    requires |pieces| <= |ids|
  {
    if pieces == [] then chunks
    else
      var n := |pieces| - 1;
      InsertChunks(chunks, b, pieces[..n], ids, mark)[ids[n] := Chunk(b, n, pieces[n], mark)]
  }

  function DropChunksOf(chunks: map<Id, Chunk>, gone: set<Id>): map<Id, Chunk> {
    map c | c in chunks && chunks[c].block !in gone :: chunks[c]
  }

  predicate Taken(blocks: map<Id, Block>, e: Id, ordinal: nat) {
    exists i :: i in blocks && blocks[i].entry == e && blocks[i].ordinal == ordinal
  }

  function Create(s: Tables, target: nat, id: Id, e: Id, ordinal: nat, kind: Name, text: string, attrs: Option<AttrsValue>, ids: seq<Id>): Result<Tables, Error>
    requires |ChunkText(text, target)| <= |ids|
  {
    var pieces := ChunkText(text, target);
    if AttrsOr(attrs) == NotObject then Err(Validation)
    else if e !in s.entries || Taken(s.blocks, e, ordinal) then Err(Validation)
    else if |pieces| > U32_LIMIT then Err(Validation)
    else
      Ok(s.(blocks := s.blocks[id := Block(e, ordinal, kind, text, AttrsOr(attrs))],
            chunks := InsertChunks(s.chunks, id, pieces, ids, Mark(AttrsOr(attrs), kind))))
  }

  function OrdinalsOf(blocks: map<Id, Block>, e: Id): set<nat> {
    set i | i in blocks && blocks[i].entry == e :: blocks[i].ordinal
  }

  /** `MAX(ordinal) + 1` truncated to 32 bits; 0 for an entry without blocks. */
  function NextOrdinal(ordinals: set<nat>): (n: nat)
    ensures n < U32_LIMIT
  {
    if ordinals == {} then 0 else (Greatest(ordinals) + 1) % U32_LIMIT
  }

  function Append(s: Tables, target: nat, id: Id, e: Id, kind: Name, text: string, attrs: Option<AttrsValue>, ids: seq<Id>): Result<Tables, Error>
    requires |ChunkText(text, target)| <= |ids|
  {
    if e !in s.entries then Err(NotFound(e))
    else Create(s, target, id, e, NextOrdinal(OrdinalsOf(s.blocks, e)), kind, text, attrs, ids)
  }

  function Update(s: Tables, target: nat, id: Id, kind: Option<Name>, text: Option<string>, attrs: Option<AttrsValue>, ids: seq<Id>): Result<Tables, Error>
    requires text.Some? ==> |ChunkText(text.value, target)| <= |ids|
  {
    if id !in s.blocks then Err(NotFound(id))
    else
      var was := s.blocks[id];
      var block := Block(was.entry, was.ordinal, if kind.Some? then kind.value else was.kind,
                         if text.Some? then text.value else was.text, if attrs.Some? then attrs.value else was.attrs);
      if block.attrs == NotObject then Err(Validation)
      else if block.text == was.text then Ok(s.(blocks := s.blocks[id := block]))
      else if |ChunkText(block.text, target)| > U32_LIMIT then Err(Validation)
      else
        Ok(s.(blocks := s.blocks[id := block],
              chunks := InsertChunks(DropChunksOf(s.chunks, {id}), id, ChunkText(block.text, target), ids, Mark(block.attrs, block.kind))))
  }

  /** Deleting a block takes its chunks with it. */
  function Delete(s: Tables, id: Id): Result<Tables, Error> {
    if id !in s.blocks then Err(NotFound(id))
    else Ok(s.(blocks := s.blocks - {id}, chunks := DropChunksOf(s.chunks, {id})))
  }

  /** Deleting an entry takes its blocks, and those their chunks. */
  function DeleteEntry(s: Tables, e: Id): Tables {
    var gone := set i | i in s.blocks && s.blocks[i].entry == e;
    Tables(s.entries - {e}, s.blocks - gone, DropChunksOf(s.chunks, gone))
  }

  // ---- Every operation keeps the tables sound ----

  /** What inserting pieces does: old chunks stay, piece `j` gets id `ids[j]`. */
  ghost predicate Inserted(was: map<Id, Chunk>, now: map<Id, Chunk>, b: Id, pieces: seq<string>, ids: seq<Id>, mark: Mark)
    requires |pieces| <= |ids|
  {
    && (forall c :: c in was ==> c in now && now[c] == was[c])
    && (forall j :: 0 <= j < |pieces| ==> ids[j] in now && now[ids[j]] == Chunk(b, j, pieces[j], mark))
    && (forall c :: c in now ==> c in was || c in ids[..|pieces|])
  }

  lemma {:induction false} ChunksInserted(was: map<Id, Chunk>, b: Id, pieces: seq<string>, ids: seq<Id>, mark: Mark)
    requires |pieces| <= |ids| && Distinct(ids) && forall i :: 0 <= i < |ids| ==> ids[i] !in was
    ensures Inserted(was, InsertChunks(was, b, pieces, ids, mark), b, pieces, ids, mark)
  {
    if pieces != [] {
      var n := |pieces| - 1;
      ChunksInserted(was, b, pieces[..n], ids, mark);
      assert ids[..n + 1] == ids[..n] + [ids[n]];
    } else {
      assert ids[..0] == [];
    }
  }

  /** The block whose pieces were inserted is chunked as them. */
  lemma {:induction false} InsertedChunked(was: map<Id, Chunk>, now: map<Id, Chunk>, b: Id, pieces: seq<string>, ids: seq<Id>, mark: Mark)
    requires |pieces| <= |ids| && Distinct(ids) && Inserted(was, now, b, pieces, ids, mark)
    requires forall c :: c in was ==> was[c].block != b
    ensures ChunkedAs(now, b, pieces)
  {
    forall k | 0 <= k < |pieces|
      ensures HasPiece(now, b, k, pieces[k])
    {
      assert Holds(now, ids[k], b, k, pieces[k]);
    }
    forall c | c in now && now[c].block == b
      ensures now[c].ordinal < |pieces| && c == ids[now[c].ordinal]
    {
      assert c in ids[..|pieces|];
    }
  }

  /** The chunks of every other block are what they were. */
  lemma {:induction false} OthersChunked(was: map<Id, Chunk>, now: map<Id, Chunk>, b: Id, pieces: seq<string>)
    requires ChunkedAs(was, b, pieces)
    requires forall c :: c in was && was[c].block == b ==> c in now && now[c] == was[c]
    requires forall c :: c in now && now[c].block == b ==> c in was && now[c] == was[c]
    ensures ChunkedAs(now, b, pieces)
  {
    forall k | 0 <= k < |pieces|
      ensures HasPiece(now, b, k, pieces[k])
    {
      var c :| Holds(was, c, b, k, pieces[k]);
      assert Holds(now, c, b, k, pieces[k]);
    }
    forall c | c in now && now[c].block == b
      ensures now[c].ordinal < |pieces| && Holds(now, c, b, now[c].ordinal, pieces[now[c].ordinal])
    {
      assert Holds(was, c, b, was[c].ordinal, pieces[was[c].ordinal]);
    }
  }

  lemma {:induction false} WrittenKeepsAgreement(s: Tables, target: nat, id: Id, block: Block, base: map<Id, Chunk>, ids: seq<Id>, mark: Mark)
    requires Agrees(s, target) && |ChunkText(block.text, target)| <= |ids| && NewIds(s, ids)
    requires base == DropChunksOf(s.chunks, {id})
    ensures var now := InsertChunks(base, id, ChunkText(block.text, target), ids, mark);
      Agrees(s.(blocks := s.blocks[id := block], chunks := now), target)
      && forall c :: c in now ==> now[c].block == id || (c in s.chunks && now[c].block == s.chunks[c].block)
  {
    var pieces := ChunkText(block.text, target);
    var now := InsertChunks(base, id, pieces, ids, mark);
    ChunksInserted(base, id, pieces, ids, mark);
    InsertedChunked(base, now, id, pieces, ids, mark);
    forall c | c in now
      ensures c in base || now[c].block == id
    {
      if c !in base {
        assert c in ids[..|pieces|];
      }
    }
    forall b | b in s.blocks && b != id
      ensures ChunkedAs(now, b, ChunkText(s.blocks[b].text, target))
    {
      OthersChunked(s.chunks, now, b, ChunkText(s.blocks[b].text, target));
    }
  }

  lemma {:induction false} DropKeepsAgreement(s: Tables, target: nat, entries: set<Id>, gone: set<Id>)
    requires Agrees(s, target)
    ensures Agrees(Tables(entries, s.blocks - gone, DropChunksOf(s.chunks, gone)), target)
  {
    forall b | b in s.blocks && b !in gone
      ensures ChunkedAs(DropChunksOf(s.chunks, gone), b, ChunkText(s.blocks[b].text, target))
    {
      OthersChunked(s.chunks, DropChunksOf(s.chunks, gone), b, ChunkText(s.blocks[b].text, target));
    }
  }

  lemma {:induction false} NothingToDrop(s: Tables, id: Id)
    requires Linked(s) && id !in s.blocks
    ensures DropChunksOf(s.chunks, {id}) == s.chunks
  {
  }

  lemma {:induction false} NewOrdinalUnique(blocks: map<Id, Block>, id: Id, block: Block)
    requires OrdinalsUnique(blocks) && block.ordinal < U32_LIMIT && !Taken(blocks, block.entry, block.ordinal)
    ensures OrdinalsUnique(blocks[id := block])
  {
  }

  /** Every block outside `touched` is what it was, and so are its chunks. */
  ghost predicate Spared(s: Tables, s': Tables, touched: set<Id>) {
    && (forall i :: i !in touched ==> (i in s'.blocks <==> i in s.blocks) && (i in s.blocks ==> s'.blocks[i] == s.blocks[i]))
    && (forall c :: c in s.chunks && s.chunks[c].block !in touched ==> c in s'.chunks && s'.chunks[c] == s.chunks[c])
    && (forall c :: c in s'.chunks && s'.chunks[c].block !in touched ==> c in s.chunks && s.chunks[c] == s'.chunks[c])
  }

  lemma {:induction false} InsertedSpares(s: Tables, s': Tables, id: Id, was: map<Id, Chunk>, pieces: seq<string>, ids: seq<Id>, mark: Mark)
    requires |pieces| <= |ids| && NewIds(s, ids) && s'.chunks == InsertChunks(was, id, pieces, ids, mark)
    requires was == s.chunks || was == DropChunksOf(s.chunks, {id})
    requires forall i :: i != id ==> (i in s'.blocks <==> i in s.blocks) && (i in s.blocks ==> s'.blocks[i] == s.blocks[i])
    ensures Spared(s, s', {id})
  {
    ChunksInserted(was, id, pieces, ids, mark);
    forall c | c in ids[..|pieces|]
      ensures c in s'.chunks && s'.chunks[c].block == id
    {
      var j :| 0 <= j < |pieces| && ids[j] == c;
    }
  }

  lemma {:induction false} CreateKeeps(s: Tables, target: nat, id: Id, e: Id, ordinal: nat, kind: Name, text: string, attrs: Option<AttrsValue>, ids: seq<Id>)
    requires Sound(s, target) && ordinal < U32_LIMIT && |ChunkText(text, target)| <= |ids| && NewIds(s, ids) && id !in s.blocks
    requires Create(s, target, id, e, ordinal, kind, text, attrs, ids).Ok?
    ensures Sound(Create(s, target, id, e, ordinal, kind, text, attrs, ids).value, target)
    ensures Spared(s, Create(s, target, id, e, ordinal, kind, text, attrs, ids).value, {id})
  {
    var block := Block(e, ordinal, kind, text, AttrsOr(attrs));
    InsertedSpares(s, Create(s, target, id, e, ordinal, kind, text, attrs, ids).value, id, s.chunks, ChunkText(text, target), ids,
                   Mark(AttrsOr(attrs), kind));
    NothingToDrop(s, id);
    NewOrdinalUnique(s.blocks, id, block);
    WrittenKeepsAgreement(s, target, id, block, s.chunks, ids, Mark(AttrsOr(attrs), kind));
  }

  lemma {:induction false} UpdateKeeps(s: Tables, target: nat, id: Id, kind: Option<Name>, text: Option<string>, attrs: Option<AttrsValue>, ids: seq<Id>)
    requires Sound(s, target) && (text.Some? ==> |ChunkText(text.value, target)| <= |ids|) && NewIds(s, ids)
    requires Update(s, target, id, kind, text, attrs, ids).Ok?
    ensures var s' := Update(s, target, id, kind, text, attrs, ids).value;
      Sound(s', target) && Spared(s, s', {id}) && (s'.blocks[id].text == s.blocks[id].text ==> s'.chunks == s.chunks)
  {
    var s' := Update(s, target, id, kind, text, attrs, ids).value;
    if s'.blocks[id].text != s.blocks[id].text {
      InsertedSpares(s, s', id, DropChunksOf(s.chunks, {id}), ChunkText(s'.blocks[id].text, target), ids, Mark(s'.blocks[id].attrs, s'.blocks[id].kind));
      WrittenKeepsAgreement(s, target, id, s'.blocks[id], DropChunksOf(s.chunks, {id}), ids, Mark(s'.blocks[id].attrs, s'.blocks[id].kind));
    }
  }

  lemma {:induction false} DeleteKeeps(s: Tables, target: nat, id: Id)
    requires Sound(s, target) && Delete(s, id).Ok?
    ensures Sound(Delete(s, id).value, target) && Spared(s, Delete(s, id).value, {id})
    ensures id !in Delete(s, id).value.blocks && forall c :: c in Delete(s, id).value.chunks ==> Delete(s, id).value.chunks[c].block != id
  {
    DropKeepsAgreement(s, target, s.entries, {id});
    DropSpares(s, Delete(s, id).value, {id});
  }

  lemma {:induction false} DropSpares(s: Tables, s': Tables, gone: set<Id>)
    requires s'.blocks == s.blocks - gone && s'.chunks == DropChunksOf(s.chunks, gone)
    ensures Spared(s, s', gone)
  {
  }

  lemma {:induction false} DeleteEntryKeeps(s: Tables, target: nat, e: Id)
    requires Sound(s, target)
    ensures Sound(DeleteEntry(s, e), target) && DeleteEntry(s, e).entries == s.entries - {e}
    ensures Spared(s, DeleteEntry(s, e), set i | i in s.blocks && s.blocks[i].entry == e)
    ensures forall i :: i in DeleteEntry(s, e).blocks ==> DeleteEntry(s, e).blocks[i].entry != e
  {
    var gone := set i | i in s.blocks && s.blocks[i].entry == e;
    DropKeepsAgreement(s, target, s.entries - {e}, gone);
    DropSpares(s, DeleteEntry(s, e), gone);
  }

  // ---- Whole runs ----

  datatype Op =
    | AddEntry(entry: Id)
    | RemoveEntry(entry: Id)
    | CreateBlock(id: Id, e: Id, ordinal: nat, kind: Name, text: string, attrs: Option<AttrsValue>, ids: seq<Id>)
    | AppendBlock(id: Id, e: Id, kind: Name, text: string, attrs: Option<AttrsValue>, ids: seq<Id>)
    | UpdateBlock(id: Id, newKind: Option<Name>, newText: Option<string>, attrs: Option<AttrsValue>, ids: seq<Id>)
    | DeleteBlock(id: Id)

  ghost predicate Enabled(s: Tables, target: nat, op: Op) {
    match op
    case CreateBlock(id, _, ordinal, _, text, _, ids) =>
      id !in s.blocks && ordinal < U32_LIMIT && NewIds(s, ids) && |ChunkText(text, target)| <= |ids|
    case AppendBlock(id, _, _, text, _, ids) =>
      id !in s.blocks && NewIds(s, ids) && |ChunkText(text, target)| <= |ids|
    case UpdateBlock(_, _, text, _, ids) =>
      NewIds(s, ids) && (text.Some? ==> |ChunkText(text.value, target)| <= |ids|)
    case _ => true
  }

  /** A refused transaction is rolled back. */
  function Settle(s: Tables, r: Result<Tables, Error>): Tables {
    if r.Ok? then r.value else s
  }

  ghost function Next(s: Tables, target: nat, op: Op): Tables
    requires Enabled(s, target, op)
  {
    match op
    case AddEntry(e) => s.(entries := s.entries + {e})
    case RemoveEntry(e) => DeleteEntry(s, e)
    case CreateBlock(id, e, ordinal, kind, text, attrs, ids) => Settle(s, Create(s, target, id, e, ordinal, kind, text, attrs, ids))
    case AppendBlock(id, e, kind, text, attrs, ids) => Settle(s, Append(s, target, id, e, kind, text, attrs, ids))
    case UpdateBlock(id, kind, text, attrs, ids) => Settle(s, Update(s, target, id, kind, text, attrs, ids))
    case DeleteBlock(id) => Settle(s, Delete(s, id))
  }

  ghost predicate Run(states: seq<Tables>, ops: seq<Op>, target: nat) {
    && |states| == |ops| + 1
    && states[0] == Tables({}, map[], map[])
    && forall i :: 0 <= i < |ops| ==> Enabled(states[i], target, ops[i]) && states[i + 1] == Next(states[i], target, ops[i])
  }

  lemma {:induction false} StepKeeps(s: Tables, target: nat, op: Op)
    requires Sound(s, target) && Enabled(s, target, op)
    ensures Sound(Next(s, target, op), target)
  {
    match op
    case AddEntry(e) =>
    case RemoveEntry(e) => DeleteEntryKeeps(s, target, e);
    case CreateBlock(id, e, ordinal, kind, text, attrs, ids) =>
      if Create(s, target, id, e, ordinal, kind, text, attrs, ids).Ok? {
        CreateKeeps(s, target, id, e, ordinal, kind, text, attrs, ids);
      }
    case AppendBlock(id, e, kind, text, attrs, ids) =>
      if Append(s, target, id, e, kind, text, attrs, ids).Ok? {
        CreateKeeps(s, target, id, e, NextOrdinal(OrdinalsOf(s.blocks, e)), kind, text, attrs, ids);
      }
    case UpdateBlock(id, kind, text, attrs, ids) =>
      if Update(s, target, id, kind, text, attrs, ids).Ok? {
        UpdateKeeps(s, target, id, kind, text, attrs, ids);
      }
    case DeleteBlock(id) =>
      if Delete(s, id).Ok? {
        DeleteKeeps(s, target, id);
      }
  }

  /** Main result: at every moment of every run each live block's chunks are its text split, and ordinals are unique. */
  lemma {:induction false} RunsStaySound(states: seq<Tables>, ops: seq<Op>, target: nat, i: nat)
    requires Run(states, ops, target) && i < |states|
    ensures Sound(states[i], target)
  {
    if i > 0 {
      RunsStaySound(states, ops, target, i - 1);
      StepKeeps(states[i - 1], target, ops[i - 1]);
    }
  }

  // ---- Where an appended block goes ----

  predicate Full(blocks: map<Id, Block>, e: Id) {
    Taken(blocks, e, U32_LIMIT - 1)
  }

  ghost predicate Exceeds(blocks: map<Id, Block>, e: Id, ordinal: nat) {
    forall i :: i in blocks && blocks[i].entry == e ==> blocks[i].ordinal < ordinal
  }

  lemma {:induction false} WrapsAtLimit(m: nat)
    requires m < U32_LIMIT
    ensures (m + 1) % U32_LIMIT == if m == U32_LIMIT - 1 then 0 else m + 1
  {
  }

  lemma {:induction false} InOrdinals(blocks: map<Id, Block>, e: Id, x: nat)
    ensures x in OrdinalsOf(blocks, e) <==> Taken(blocks, e, x)
  {
  }

  lemma {:induction false} GreatestOfSubrange(ordinals: set<nat>)
    requires ordinals != {} && forall x :: x in ordinals ==> x < U32_LIMIT
    ensures U32_LIMIT - 1 in ordinals <==> Greatest(ordinals) == U32_LIMIT - 1
    ensures NextOrdinal(ordinals) == if U32_LIMIT - 1 in ordinals then 0 else Greatest(ordinals) + 1
  {
    WrapsAtLimit(Greatest(ordinals));
  }

  /** The next ordinal exceeds every live one exactly when the last 32-bit ordinal is not in use; otherwise it is 0. */
  lemma {:induction false} NextOrdinalExceeds(s: Tables, target: nat, e: Id)
    requires Sound(s, target)
    ensures Exceeds(s.blocks, e, NextOrdinal(OrdinalsOf(s.blocks, e))) <==> !Full(s.blocks, e)
    ensures Full(s.blocks, e) ==> NextOrdinal(OrdinalsOf(s.blocks, e)) == 0
  {
    var ordinals := OrdinalsOf(s.blocks, e);
    InOrdinals(s.blocks, e, U32_LIMIT - 1);
    forall i | i in s.blocks && s.blocks[i].entry == e
      ensures s.blocks[i].ordinal in ordinals
    {
    }
    if ordinals != {} {
      GreatestOfSubrange(ordinals);
    }
  }

  /** So an append past the last ordinal is refused when ordinal 0 is in use, and otherwise goes first. */
  lemma {:induction false} AppendOutcome(s: Tables, target: nat, id: Id, e: Id, kind: Name, text: string, attrs: Option<AttrsValue>, ids: seq<Id>)
    requires Sound(s, target) && |ChunkText(text, target)| <= |ids|
    requires e in s.entries && AttrsOr(attrs) != NotObject && |ChunkText(text, target)| <= U32_LIMIT
    ensures Append(s, target, id, e, kind, text, attrs, ids).Ok? <==> !(Full(s.blocks, e) && Taken(s.blocks, e, 0))
    ensures Append(s, target, id, e, kind, text, attrs, ids).Ok? ==>
      var added := Append(s, target, id, e, kind, text, attrs, ids).value.blocks[id];
      added.entry == e && (Exceeds(s.blocks, e, added.ordinal) <==> !Full(s.blocks, e))
  {
    NextOrdinalExceeds(s, target, e);
  }

  /** A reachable entry to which an append puts its block before the one already there. */
  lemma {:induction false} AppendGoesFirst() returns (s: Tables, s': Tables)
    ensures s == Next(Next(Tables({}, map[], map[]), 1024, AddEntry(7)), 1024, CreateBlock(1, 7, U32_LIMIT - 1, 0, "", None, []))
    ensures Sound(s, 1024)
    ensures Append(s, 1024, 2, 7, 0, "", None, []) == Ok(s')
    ensures s'.blocks[2].ordinal < s'.blocks[1].ordinal
  {
    var empty := Tables({}, map[], map[]);
    var one := Next(empty, 1024, AddEntry(7));
    StepKeeps(empty, 1024, AddEntry(7));
    StepKeeps(one, 1024, CreateBlock(1, 7, U32_LIMIT - 1, 0, "", None, []));
    s := Next(one, 1024, CreateBlock(1, 7, U32_LIMIT - 1, 0, "", None, []));
    assert s.blocks == map[1 := Block(7, U32_LIMIT - 1, 0, "", Object(0))];
    assert At(s.blocks, 1, 7, U32_LIMIT - 1);
    NextOrdinalExceeds(s, 1024, 7);
    s' := Append(s, 1024, 2, 7, 0, "", None, []).value;
  }

  lemma {:induction false} AscendingAppend(s: set<nat>, m: nat)
    requires forall x :: x in s ==> x < m
    ensures Ascending(s + {m}) == Ascending(s) + [m]
  {
    if s == {} {
      assert s + {m} == {m};
      assert {m} - {Least({m})} == {};
    } else {
      var least := Least(s);
      assert Least(s + {m}) == least;
      assert s + {m} - {least} == s - {least} + {m};
      AscendingAppend(s - {least}, m);
    }
  }

  /** The ordinals of an entry's blocks as listing them shows. */
  function Listing(s: Tables, e: Id): seq<nat> {
    Ascending(OrdinalsOf(s.blocks, e))
  }

  /** Listing after an append shows what it showed before, then the new block. */
  lemma {:induction false} AppendedListsLast(s: Tables, target: nat, id: Id, e: Id, kind: Name, text: string, attrs: Option<AttrsValue>, ids: seq<Id>)
    requires Sound(s, target) && |ChunkText(text, target)| <= |ids| && id !in s.blocks && !Full(s.blocks, e)
    requires Append(s, target, id, e, kind, text, attrs, ids).Ok?
    ensures var s' := Append(s, target, id, e, kind, text, attrs, ids).value;
      Listing(s', e) == Listing(s, e) + [s'.blocks[id].ordinal]
  {
    var s' := Append(s, target, id, e, kind, text, attrs, ids).value;
    var m := s'.blocks[id].ordinal;
    NextOrdinalExceeds(s, target, e);
    forall x
      ensures x in OrdinalsOf(s'.blocks, e) <==> x in OrdinalsOf(s.blocks, e) + {m}
    {
      if x in OrdinalsOf(s.blocks, e) {
        var i :| i in s.blocks && s.blocks[i].entry == e && s.blocks[i].ordinal == x;
        assert s'.blocks[i].ordinal == x;
      }
    }
    assert OrdinalsOf(s'.blocks, e) == OrdinalsOf(s.blocks, e) + {m};
    AscendingAppend(OrdinalsOf(s.blocks, e), m);
  }

  // ---- What is stored, field by field ----

  /** The block's chunks are the pieces, in order, each with these attributes and this kind. */
  ghost predicate MarkedAs(chunks: map<Id, Chunk>, b: Id, attrs: AttrsValue, kind: Name) {
    forall c :: c in chunks && chunks[c].block == b ==> chunks[c].mark.attrs == attrs && chunks[c].mark.kind == kind
  }

  lemma {:induction false} InsertedMarks(was: map<Id, Chunk>, b: Id, pieces: seq<string>, ids: seq<Id>, mark: Mark)
    requires |pieces| <= |ids| && forall c :: c in was ==> was[c].block != b
    ensures MarkedAs(InsertChunks(was, b, pieces, ids, mark), b, mark.attrs, mark.kind)
  {
    if pieces != [] {
      InsertedMarks(was, b, pieces[..|pieces| - 1], ids, mark);
    }
  }

  /** Main result: a block is created exactly when its attributes are an object and its entry has the ordinal free, and stored as given. */
  lemma {:induction false} CreateStores(s: Tables, target: nat, id: Id, e: Id, ordinal: nat, kind: Name, text: string, attrs: Option<AttrsValue>, ids: seq<Id>)
    requires Sound(s, target) && ordinal < U32_LIMIT && |ChunkText(text, target)| <= |ids| && NewIds(s, ids) && id !in s.blocks
    ensures Create(s, target, id, e, ordinal, kind, text, attrs, ids).Ok? <==>
      && attrs != Some(NotObject) && e in s.entries && |ChunkText(text, target)| <= U32_LIMIT
      && forall i :: i in s.blocks && s.blocks[i].entry == e ==> s.blocks[i].ordinal != ordinal
    ensures Create(s, target, id, e, ordinal, kind, text, attrs, ids).Ok? ==>
      var s', given := Create(s, target, id, e, ordinal, kind, text, attrs, ids).value, if attrs.Some? then attrs.value else Object(0);
      && s'.entries == s.entries && id in s'.blocks
      && s'.blocks[id].entry == e && s'.blocks[id].ordinal == ordinal && s'.blocks[id].kind == kind
      && s'.blocks[id].text == text && s'.blocks[id].attrs == given
      && ChunkedAs(s'.chunks, id, ChunkText(text, target)) && MarkedAs(s'.chunks, id, given, kind)
  {
    if Create(s, target, id, e, ordinal, kind, text, attrs, ids).Ok? {
      CreateKeeps(s, target, id, e, ordinal, kind, text, attrs, ids);
      NothingToDrop(s, id);
      InsertedMarks(s.chunks, id, ChunkText(text, target), ids, Mark(AttrsOr(attrs), kind));
    }
  }

  /** The columns after an update: what is given replaces what was. */
  ghost predicate UpdatedTo(was: Block, now: Block, kind: Option<Name>, text: Option<string>, attrs: Option<AttrsValue>) {
    && now.entry == was.entry && now.ordinal == was.ordinal
    && now.kind == (if kind.Some? then kind.value else was.kind)
    && now.text == (if text.Some? then text.value else was.text)
    && now.attrs == (if attrs.Some? then attrs.value else was.attrs)
  }

  /**
   * Main result: an update replaces exactly the columns given; new text brings its own chunks, marked with the new
   * attributes and kind, and unchanged text keeps the old ones.
   */
  lemma {:induction false} UpdateStores(s: Tables, target: nat, id: Id, kind: Option<Name>, text: Option<string>, attrs: Option<AttrsValue>, ids: seq<Id>)
    requires Sound(s, target) && (text.Some? ==> |ChunkText(text.value, target)| <= |ids|) && NewIds(s, ids)
    ensures Update(s, target, id, kind, text, attrs, ids).Ok? <==>
      && id in s.blocks && (if attrs.Some? then attrs.value else s.blocks[id].attrs) != NotObject
      && (text.Some? && text.value != s.blocks[id].text ==> |ChunkText(text.value, target)| <= U32_LIMIT)
    ensures Update(s, target, id, kind, text, attrs, ids).Ok? ==>
      var s' := Update(s, target, id, kind, text, attrs, ids).value;
      && s'.entries == s.entries && id in s'.blocks && UpdatedTo(s.blocks[id], s'.blocks[id], kind, text, attrs)
      && (s'.blocks[id].text == s.blocks[id].text ==> s'.chunks == s.chunks)
      && (s'.blocks[id].text != s.blocks[id].text ==> MarkedAs(s'.chunks, id, s'.blocks[id].attrs, s'.blocks[id].kind))
      && ChunkedAs(s'.chunks, id, ChunkText(s'.blocks[id].text, target))
  {
    if Update(s, target, id, kind, text, attrs, ids).Ok? {
      UpdateKeeps(s, target, id, kind, text, attrs, ids);
      var s' := Update(s, target, id, kind, text, attrs, ids).value;
      if s'.blocks[id].text != s.blocks[id].text {
        InsertedMarks(DropChunksOf(s.chunks, {id}), id, ChunkText(s'.blocks[id].text, target), ids, Mark(s'.blocks[id].attrs, s'.blocks[id].kind));
      }
    }
  }

  /** Block `i` stands last in its entry. */
  ghost predicate StandsLast(blocks: map<Id, Block>, e: Id, i: Id) {
    && i in blocks && blocks[i].entry == e
    && forall j :: j in blocks && blocks[j].entry == e ==> blocks[j].ordinal <= blocks[i].ordinal
  }

  /** The next ordinal is 0 for an entry without blocks, and else one behind the last, 0 behind the greatest there is. */
  lemma {:induction false} NextOrdinalIs(blocks: map<Id, Block>, e: Id)
    requires forall i :: i in blocks ==> blocks[i].ordinal < U32_LIMIT
    ensures (forall i :: i in blocks ==> blocks[i].entry != e) ==> NextOrdinal(OrdinalsOf(blocks, e)) == 0
    ensures forall i :: StandsLast(blocks, e, i) ==>
      NextOrdinal(OrdinalsOf(blocks, e)) == if blocks[i].ordinal == U32_LIMIT - 1 then 0 else blocks[i].ordinal + 1
  {
    var ordinals := OrdinalsOf(blocks, e);
    forall i | StandsLast(blocks, e, i)
      ensures NextOrdinal(ordinals) == if blocks[i].ordinal == U32_LIMIT - 1 then 0 else blocks[i].ordinal + 1
    {
      assert blocks[i].ordinal in ordinals;
      assert Greatest(ordinals) == blocks[i].ordinal;
      WrapsAtLimit(blocks[i].ordinal);
    }
  }

  /** An appended block is stored as given, at the next ordinal. */
  lemma {:induction false} AppendStores(s: Tables, target: nat, id: Id, e: Id, kind: Name, text: string, attrs: Option<AttrsValue>, ids: seq<Id>)
    requires Sound(s, target) && |ChunkText(text, target)| <= |ids| && NewIds(s, ids) && id !in s.blocks
    requires Append(s, target, id, e, kind, text, attrs, ids).Ok?
    ensures var s' := Append(s, target, id, e, kind, text, attrs, ids).value;
      && e in s.entries && id in s'.blocks
      && s'.blocks[id] == Block(e, NextOrdinal(OrdinalsOf(s.blocks, e)), kind, text, if attrs.Some? then attrs.value else Object(0))
      && ChunkedAs(s'.chunks, id, ChunkText(text, target))
      && MarkedAs(s'.chunks, id, if attrs.Some? then attrs.value else Object(0), kind)
  {
    CreateStores(s, target, id, e, NextOrdinal(OrdinalsOf(s.blocks, e)), kind, text, attrs, ids);
  }

  // ---- The service ----

  class BlockService {
    const target: nat
    var db: Tables

    ghost predicate Valid()
      reads this
    {
      Sound(db, target)
    }

    constructor (chunkTargetSize: nat)
      ensures Valid() && target == chunkTargetSize && db == Tables({}, map[], map[])
    {
      target, db := chunkTargetSize, Tables({}, map[], map[]);
    }

    /** Inserts the pieces one row at a time. */
    method InsertPieces(id: Id, pieces: seq<string>, ids: seq<Id>, mark: Mark)
      requires |pieces| <= |ids|
      modifies this
      ensures db == old(db).(chunks := InsertChunks(old(db).chunks, id, pieces, ids, mark))
    {
      for k := 0 to |pieces|
        invariant db == old(db).(chunks := InsertChunks(old(db).chunks, id, pieces[..k], ids, mark))
      {
        assert pieces[..k + 1][..k] == pieces[..k];
        db := db.(chunks := db.chunks[ids[k] := Chunk(id, k, pieces[k], mark)]);
      }
      assert pieces[..|pieces|] == pieces;
    }

    method CreateInTx(id: Id, e: Id, ordinal: nat, kind: Name, text: string, attrs: Option<AttrsValue>, ids: seq<Id>)
      returns (r: Result<Id, Error>)
      requires Valid() && ordinal < U32_LIMIT && id !in db.blocks && NewIds(db, ids) && |ChunkText(text, target)| <= |ids|
      modifies this
      ensures Valid() && db == Settle(old(db), Create(old(db), target, id, e, ordinal, kind, text, attrs, ids))
      ensures r == match Create(old(db), target, id, e, ordinal, kind, text, attrs, ids) case Ok(_) => Ok(id) case Err(x) => Err(x)
    {
      ghost var spec := Create(db, target, id, e, ordinal, kind, text, attrs, ids);
      if spec.Ok? {
        CreateKeeps(db, target, id, e, ordinal, kind, text, attrs, ids);
      }
      var value := if attrs.Some? then attrs.value else Object(0);
      if value == NotObject {
        return Err(Validation);
      }
      if e !in db.entries || Taken(db.blocks, e, ordinal) {
        return Err(Validation);
      }
      var pieces := SplitText(text, target);
      if |pieces| > U32_LIMIT {
        return Err(Validation);
      }
      db := db.(blocks := db.blocks[id := Block(e, ordinal, kind, text, value)]);
      InsertPieces(id, pieces, ids, Mark(value, kind));
      return Ok(id);
    }

    method AppendInTx(id: Id, e: Id, kind: Name, text: string, attrs: Option<AttrsValue>, ids: seq<Id>) returns (r: Result<Id, Error>)
      requires Valid() && id !in db.blocks && NewIds(db, ids) && |ChunkText(text, target)| <= |ids|
      modifies this
      ensures Valid() && db == Settle(old(db), Append(old(db), target, id, e, kind, text, attrs, ids))
      ensures r == match Append(old(db), target, id, e, kind, text, attrs, ids) case Ok(_) => Ok(id) case Err(x) => Err(x)
    {
      if e !in db.entries {
        return Err(NotFound(e));
      }
      var ordinal := NextOrdinal(OrdinalsOf(db.blocks, e));
      r := CreateInTx(id, e, ordinal, kind, text, attrs, ids);
    }

    method UpdateInTx(id: Id, kind: Option<Name>, text: Option<string>, attrs: Option<AttrsValue>, ids: seq<Id>)
      returns (r: Result<Block, Error>)
      requires Valid() && NewIds(db, ids) && (text.Some? ==> |ChunkText(text.value, target)| <= |ids|)
      modifies this
      ensures Valid() && db == Settle(old(db), Update(old(db), target, id, kind, text, attrs, ids))
      ensures r == match Update(old(db), target, id, kind, text, attrs, ids) case Ok(s') => Ok(s'.blocks[id]) case Err(x) => Err(x)
    {
      ghost var spec := Update(db, target, id, kind, text, attrs, ids);
      if spec.Ok? {
        UpdateKeeps(db, target, id, kind, text, attrs, ids);
      }
      if id !in db.blocks {
        return Err(NotFound(id));
      }
      var was := db.blocks[id];
      var block := was;
      if kind.Some? {
        block := block.(kind := kind.value);
      }
      if text.Some? {
        block := block.(text := text.value);
      }
      if attrs.Some? {
        block := block.(attrs := attrs.value);
      }
      if block.attrs == NotObject {
        return Err(Validation);
      }
      if block.text != was.text {
        var pieces := SplitText(block.text, target);
        if |pieces| > U32_LIMIT {
          return Err(Validation);
        }
        db := db.(blocks := db.blocks[id := block]);
        db := db.(chunks := DropChunksOf(db.chunks, {id}));
        InsertPieces(id, pieces, ids, Mark(block.attrs, block.kind));
      } else {
        db := db.(blocks := db.blocks[id := block]);
      }
      return Ok(block);
    }

    method DeleteInTx(id: Id) returns (r: Result<Block, Error>)
      requires Valid()
      modifies this
      ensures Valid() && db == Settle(old(db), Delete(old(db), id))
      ensures r == if id in old(db).blocks then Ok(old(db).blocks[id]) else Err(NotFound(id))
    {
      if id !in db.blocks {
        return Err(NotFound(id));
      }
      DeleteKeeps(db, target, id);
      r := Ok(db.blocks[id]);
      db := db.(blocks := db.blocks - {id}, chunks := DropChunksOf(db.chunks, {id}));
    }
  }
}
