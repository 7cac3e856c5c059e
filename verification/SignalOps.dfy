/**
 * The signal maintenance transactions as functions on the tables: precision loss, entry deletion,
 * reconciliation with the content index and session purging, and what each of them keeps.
 */
module SignalOps {
  import opened Prelude
  import opened SignalTables
  import opened PrecisionMerge

  function IndexOf(s: Store): Index {
    Index(s.affinities, s.vectors)
  }

  function WithIndex(s: Store, ix: Index): Store {
    s.(affinities := ix.rows, vectors := ix.vectors)
  }

  // ---- Precision loss ----

  function ClearPrecision(k: Key): Key {
    k.(block := None, chunk := None)
  }

  function ClearChunk(k: Key): Key {
    k.(chunk := None)
  }

  predicate NamesChunk(k: Key, chunks: set<Id>) {
    k.chunk.Some? && k.chunk.value in chunks
  }

  /** What a degrade pass steers keys away from. */
  datatype Clearing =
    | AwayFromBlock(block: Id, chunks: set<Id>)
    | AwayFromChunks(chunks: set<Id>)
    | ToLiveBlock(content: Content)
    | ToLiveChunk(content: Content)

  function Goal(g: Clearing, k: Key): Key {
    match g
    case AwayFromBlock(b, chunks) =>
      if k.block == Some(b) then ClearPrecision(k) else if NamesChunk(k, chunks) then ClearChunk(k) else k
    case AwayFromChunks(chunks) => if NamesChunk(k, chunks) then ClearChunk(k) else k
    case ToLiveBlock(c) => if BlockResolves(c, k.entry, k.block) then k else ClearPrecision(k)
    case ToLiveChunk(c) => if ChunkResolves(c, k.entry, k.block, k.chunk) then k else ClearChunk(k)
  }

  /** A goal changes precision only, and going there twice changes nothing more. */
  lemma {:induction false} GoalIsStable(g: Clearing, k: Key)
    ensures Goal(g, k) == k.(block := Goal(g, k).block, chunk := Goal(g, k).chunk)
    ensures Goal(g, Goal(g, k)) == Goal(g, k)
  {
  }

  function Moved(rows: map<Id, Affinity>, g: Clearing): set<Id> {
    set i | i in rows && Goal(g, rows[i].key) != rows[i].key
  }

  /** One update per listed id, towards the goal of its row. */
  function UpdatesFor(rows: map<Id, Affinity>, order: seq<Id>, g: Clearing): seq<Update>
    requires forall i :: i in order ==> i in rows
  {
    if order == [] then []
    else [Update(order[0], Goal(g, rows[order[0]].key).block, Goal(g, rows[order[0]].key).chunk)] + UpdatesFor(rows, order[1..], g)
  }

  /** `order` lists, once each, the rows that must move. */
  ghost predicate Lists(order: seq<Id>, rows: map<Id, Affinity>, g: Clearing) {
    && Distinct(order)
    && forall i :: i in order <==> i in Moved(rows, g)
  }

  function Goals(rows: map<Id, Affinity>, g: Clearing): map<Id, Key> {
    map i | i in rows :: Goal(g, rows[i].key)
  }

  lemma {:induction false} UpdatesAim(rows: map<Id, Affinity>, order: seq<Id>, g: Clearing)
    requires Distinct(order) && forall i :: i in order ==> i in rows
    ensures var us := UpdatesFor(rows, order, g);
      && NoRepeats(us)
      && |us| == |order|
      && (forall i :: i in Ids(us) <==> i in order)
      && forall i :: i in rows ==> Targets(rows, us)[i] == if i in order then Goal(g, rows[i].key) else rows[i].key
  {
    if order != [] {
      assert forall i :: i in order <==> i == order[0] || i in order[1..];
      UpdatesAim(rows, order[1..], g);
      GoalIsStable(g, rows[order[0]].key);
      assert UpdatesFor(rows, order, g)[1..] == UpdatesFor(rows, order[1..], g);
    }
  }

  lemma {:induction false} UpdatesSeparated(rows: map<Id, Affinity>, order: seq<Id>, g: Clearing)
    requires Lists(order, rows, g)
    ensures Separated(rows, UpdatesFor(rows, order, g))
    ensures Targets(rows, UpdatesFor(rows, order, g)) == Goals(rows, g)
    ensures |UpdatesFor(rows, order, g)| == |order|
  {
    var us := UpdatesFor(rows, order, g);
    UpdatesAim(rows, order, g);
    UpdatesReachGoals(rows, order, g);
    forall i, j | i in Ids(us) && j in Ids(us)
      ensures rows[j].key != Goals(rows, g)[i]
    {
      MovedMissesGoals(rows, g, i, j);
    }
  }

  lemma {:induction false} UpdatesReachGoals(rows: map<Id, Affinity>, order: seq<Id>, g: Clearing)
    requires Lists(order, rows, g)
    ensures Targets(rows, UpdatesFor(rows, order, g)) == Goals(rows, g)
  {
    UpdatesAim(rows, order, g);
    GoalsAre(rows, order, g, Targets(rows, UpdatesFor(rows, order, g)));
  }

  /** Unlisted rows are at their goals already. */
  lemma {:induction false} GoalsAre(rows: map<Id, Affinity>, order: seq<Id>, g: Clearing, targets: map<Id, Key>)
    requires Lists(order, rows, g) && targets.Keys == rows.Keys
    requires forall i :: i in rows ==> targets[i] == if i in order then Goal(g, rows[i].key) else rows[i].key
    ensures targets == Goals(rows, g)
  {
    forall i | i in rows
      ensures i !in order ==> Goal(g, rows[i].key) == rows[i].key
    {
      assert i in order <==> i in Moved(rows, g);
    }
  }

  /** A row that must move sits at no goal. */
  lemma {:induction false} MovedMissesGoals(rows: map<Id, Affinity>, g: Clearing, i: Id, j: Id)
    requires i in rows && j in Moved(rows, g)
    ensures rows[j].key != Goals(rows, g)[i]
  {
    GoalIsStable(g, rows[i].key);
  }

  /** Moving every listed row to its goal is a group-by over the goals. */
  lemma {:induction false} ReclassIsGroupBy(ix: Index, order: seq<Id>, g: Clearing)
    requires UniqueKeys(ix.rows) && Lists(order, ix.rows, g)
    ensures var out := Degrade(ix, UpdatesFor(ix.rows, order, g));
      && GroupMerged(ix, Goals(ix.rows, g), out.index)
      && out.degraded == |order|
      && out.dropped == |ix.vectors| - |out.index.vectors|
  {
    UpdatesSeparated(ix.rows, order, g);
    DegradeIsGroupBy(ix, UpdatesFor(ix.rows, order, g));
  }

  function OfBlock(rows: map<Id, Affinity>, b: Id): set<Id> {
    set i | i in rows && rows[i].key.block == Some(b)
  }

  function OfChunks(rows: map<Id, Affinity>, chunks: set<Id>): set<Id> {
    set i | i in rows && NamesChunk(rows[i].key, chunks)
  }

  /** Rows of the block first, then the remaining rows of its chunks, each part by id. */
  function BlockOrder(rows: map<Id, Affinity>, b: Id, chunks: set<Id>): seq<Id> {
    Ascending(OfBlock(rows, b)) + Ascending(OfChunks(rows, chunks) - OfBlock(rows, b))
  }

  lemma {:induction false} AscendingLists(rows: map<Id, Affinity>, g: Clearing)
    ensures Lists(Ascending(Moved(rows, g)), rows, g)
    ensures |Ascending(Moved(rows, g))| == |Moved(rows, g)|
  {
    AscendingMembers(Moved(rows, g));
    AscendingDistinct(Moved(rows, g));
  }

  lemma {:induction false} BlockOrderLists(rows: map<Id, Affinity>, b: Id, chunks: set<Id>)
    ensures Lists(BlockOrder(rows, b, chunks), rows, AwayFromBlock(b, chunks))
  {
    var first, second := OfBlock(rows, b), OfChunks(rows, chunks) - OfBlock(rows, b);
    AscendingDistinct(first);
    AscendingDistinct(second);
    DistinctConcat(Ascending(first), Ascending(second));
    forall i
      ensures i in BlockOrder(rows, b, chunks) <==> i in first + second
    {
    }
  }

  /** Affinity rows moved to their goals, in the listed order. */
  ghost function Reclassed(s: Store, order: seq<Id>, g: Clearing): Outcome
    requires forall i :: i in order ==> i in s.affinities
  {
    Degrade(IndexOf(s), UpdatesFor(s.affinities, order, g))
  }

  function AwayFromBlockResult(r: SessionResult, b: Id, chunks: set<Id>): SessionResult {
    if r.block == Some(b) then r.(block := None, chunk := None)
    else if r.chunk.Some? && r.chunk.value in chunks then r.(chunk := None)
    else r
  }

  ghost function DegradeBlock(s: Store, b: Id, chunks: set<Id>): Store {
    BlockOrderLists(s.affinities, b, chunks);
    WithIndex(s, Reclassed(s, BlockOrder(s.affinities, b, chunks), AwayFromBlock(b, chunks)).index)
      .(results := map k | k in s.results :: AwayFromBlockResult(s.results[k], b, chunks))
  }

  function AwayFromChunksResult(r: SessionResult, chunks: set<Id>): SessionResult {
    if r.chunk.Some? && r.chunk.value in chunks then r.(chunk := None) else r
  }

  ghost function DegradeChunks(s: Store, chunks: set<Id>): Store {
    AscendingLists(s.affinities, AwayFromChunks(chunks));
    WithIndex(s, Reclassed(s, Ascending(Moved(s.affinities, AwayFromChunks(chunks))), AwayFromChunks(chunks)).index)
      .(results := map k | k in s.results :: AwayFromChunksResult(s.results[k], chunks))
  }

  // ---- What a merge keeps ----

  ghost predicate KeepsEntry(rows: map<Id, Affinity>, targets: map<Id, Key>) {
    targets.Keys == rows.Keys && forall i :: i in rows ==> targets[i].entry == rows[i].key.entry
  }

  lemma {:induction false} AggregateWithinStats(ix: Index, stats: map<Id, Stats>, targets: map<Id, Key>, k: Key,
                                                row: Affinity, vector: Option<Vector>)
    requires AllWithinStats(ix.rows, stats) && KeepsEntry(ix.rows, targets)
    requires Aggregates(ix, Members(targets, {}, k), row, vector) && row.key == k
    ensures WithinStats(row, stats)
  {
    var src :| Sourced(ix, Members(targets, {}, k), row, vector, src);
    assert WithinStats(ix.rows[src.count], stats);
    assert Below(ix.rows[src.example], VectorOf(ix.vectors, src.example), row, vector);
    assert Below(ix.rows[src.updated], VectorOf(ix.vectors, src.updated), row, vector);
    assert Below(ix.rows[src.created], VectorOf(ix.vectors, src.created), row, vector);
  }

  lemma {:induction false} MergeStaysWithinStats(ix: Index, stats: map<Id, Stats>, targets: map<Id, Key>, out: Index)
    requires AllWithinStats(ix.rows, stats) && KeepsEntry(ix.rows, targets) && GroupMerged(ix, targets, out)
    ensures AllWithinStats(out.rows, stats)
  {
    forall i | i in out.rows
      ensures WithinStats(out.rows[i], stats)
    {
      assert Aggregates(ix, Members(targets, {}, targets[i]), out.rows[i], VectorOf(out.vectors, i));
      AggregateWithinStats(ix, stats, targets, targets[i], out.rows[i], VectorOf(out.vectors, i));
    }
  }

  lemma {:induction false} MergeStaysAttained(ix: Index, stats: map<Id, Stats>, targets: map<Id, Key>, out: Index)
    requires StatsAttained(ix.rows, stats) && KeepsEntry(ix.rows, targets) && GroupMerged(ix, targets, out)
    requires AllWithinStats(out.rows, stats)
    ensures StatsAttained(out.rows, stats)
  {
    forall e | e in stats
      ensures exists i :: Attains(out.rows, i, e, stats[e].last)
    {
      var j :| Attains(ix.rows, j, e, stats[e].last);
      assert Occupied(out.rows, targets[j]);
      var i :| Sits(out.rows, {}, i, targets[j]);
      assert j in Members(targets, {}, targets[i]);
      assert Below(ix.rows[j], VectorOf(ix.vectors, j), out.rows[i], VectorOf(out.vectors, i));
      assert Attains(out.rows, i, e, stats[e].last);
    }
  }

  lemma {:induction false} MergeStaysSized(ix: Index, dim: nat, targets: map<Id, Key>, out: Index)
    requires VectorsSized(ix.rows, ix.vectors, dim) && targets.Keys == ix.rows.Keys && GroupMerged(ix, targets, out)
    ensures VectorsSized(out.rows, out.vectors, dim)
  {
    forall i | i in out.rows && i in out.vectors
      ensures |out.vectors[i]| == dim
    {
      assert Aggregates(ix, Members(targets, {}, targets[i]), out.rows[i], VectorOf(out.vectors, i));
      var src :| Sourced(ix, Members(targets, {}, targets[i]), out.rows[i], VectorOf(out.vectors, i), src);
    }
  }

  lemma {:induction false} MergeStaysCoherent(s: Store, cap: nat, now: Time, targets: map<Id, Key>, out: Index)
    requires Coherent(s, cap, now) && KeepsEntry(s.affinities, targets) && GroupMerged(IndexOf(s), targets, out)
    ensures Coherent(WithIndex(s, out), cap, now)
  {
    MergeStaysWithinStats(IndexOf(s), s.stats, targets, out);
    MergeStaysAttained(IndexOf(s), s.stats, targets, out);
    MergeStaysSized(IndexOf(s), s.vecDim, targets, out);
  }

  /** Moving rows to precision goals keeps everything coherent and leaves every row at its goal. */
  lemma {:induction false} ReclassedStaysCoherent(s: Store, cap: nat, now: Time, order: seq<Id>, g: Clearing)
    requires Coherent(s, cap, now) && Lists(order, s.affinities, g)
    ensures var out := Reclassed(s, order, g);
      && Coherent(WithIndex(s, out.index), cap, now)
      && Orphans(out.index) == Orphans(IndexOf(s))
      && (forall i :: i in out.index.rows ==> Goal(g, out.index.rows[i].key) == out.index.rows[i].key)
  {
    ReclassIsGroupBy(IndexOf(s), order, g);
    GoalsKeepEntry(s.affinities, g);
    MergeStaysCoherent(s, cap, now, Goals(s.affinities, g), Reclassed(s, order, g).index);
    MergedSitAtGoals(IndexOf(s), g, Reclassed(s, order, g).index);
  }

  lemma {:induction false} GoalsKeepEntry(rows: map<Id, Affinity>, g: Clearing)
    ensures KeepsEntry(rows, Goals(rows, g))
  {
    forall i | i in rows
      ensures Goals(rows, g)[i].entry == rows[i].key.entry
    {
      GoalIsStable(g, rows[i].key);
    }
  }

  lemma {:induction false} MergedSitAtGoals(ix: Index, g: Clearing, out: Index)
    requires GroupMerged(ix, Goals(ix.rows, g), out)
    ensures Orphans(out) == Orphans(ix)
    ensures forall i :: i in out.rows ==> Goal(g, out.rows[i].key) == out.rows[i].key
  {
    forall i | i in out.rows
      ensures Goal(g, out.rows[i].key) == out.rows[i].key
    {
      GoalIsStable(g, ix.rows[i].key);
    }
  }

  /** The same for a whole transaction that also rewrites session results, when no orphan was left before. */
  lemma {:induction false} ReclassedKeeps(s: Store, cap: nat, now: Time, order: seq<Id>, g: Clearing, results: map<(Id, Id), SessionResult>)
    requires Consistent(s, cap, now) && Lists(order, s.affinities, g)
    requires results.Keys <= s.results.Keys
    ensures Consistent(WithIndex(s, Reclassed(s, order, g).index).(results := results), cap, now)
  {
    ReclassedStaysCoherent(s, cap, now, order, g);
    var out := Reclassed(s, order, g).index;
    assert Orphans(IndexOf(s)) == {};
    forall i | i in out.vectors
      ensures i in out.rows
    {
      assert i !in Orphans(out);
    }
  }

  /** After a block goes, no affinity names it or its chunks, no result names it, and the tables stay consistent. */
  lemma {:induction false} DegradeBlockKeeps(s: Store, cap: nat, now: Time, b: Id, chunks: set<Id>)
    requires Consistent(s, cap, now)
    ensures Consistent(DegradeBlock(s, b, chunks), cap, now)
    ensures forall i :: i in DegradeBlock(s, b, chunks).affinities ==>
      var k := DegradeBlock(s, b, chunks).affinities[i].key; k.block != Some(b) && !NamesChunk(k, chunks)
    ensures forall k :: k in DegradeBlock(s, b, chunks).results ==>
      var r := DegradeBlock(s, b, chunks).results[k]; r.block != Some(b) && !(r.chunk.Some? && r.chunk.value in chunks)
  {
    var order, g := BlockOrder(s.affinities, b, chunks), AwayFromBlock(b, chunks);
    BlockOrderLists(s.affinities, b, chunks);
    ReclassedKeeps(s, cap, now, order, g, DegradeBlock(s, b, chunks).results);
    ReclassedStaysCoherent(s, cap, now, order, g);
  }

  lemma {:induction false} DegradeChunksKeeps(s: Store, cap: nat, now: Time, chunks: set<Id>)
    requires Consistent(s, cap, now)
    ensures Consistent(DegradeChunks(s, chunks), cap, now)
    ensures forall i :: i in DegradeChunks(s, chunks).affinities ==> !NamesChunk(DegradeChunks(s, chunks).affinities[i].key, chunks)
    ensures forall k :: k in DegradeChunks(s, chunks).results ==>
      var r := DegradeChunks(s, chunks).results[k]; !(r.chunk.Some? && r.chunk.value in chunks)
  {
    var g := AwayFromChunks(chunks);
    var order := Ascending(Moved(s.affinities, g));
    AscendingLists(s.affinities, g);
    ReclassedKeeps(s, cap, now, order, g, DegradeChunks(s, chunks).results);
    ReclassedStaysCoherent(s, cap, now, order, g);
  }

  // ---- Exactly which precision goes ----

  /** The chunk column emptied where it names one of `chunks`. */
  function KeyWithoutChunks(k: Key, chunks: set<Id>): Key {
    Key(k.hash, k.model, k.entry, k.block, if k.chunk.Some? && k.chunk.value in chunks then None else k.chunk)
  }

  function KeysWithoutChunks(rows: map<Id, Affinity>, chunks: set<Id>): map<Id, Key> {
    map i | i in rows :: KeyWithoutChunks(rows[i].key, chunks)
  }

  /** Both columns emptied for the block's own key, and elsewhere the chunk column where it names one of `chunks`. */
  function KeyWithoutBlock(k: Key, b: Id, chunks: set<Id>): Key {
    if k.block == Some(b) then Key(k.hash, k.model, k.entry, None, None)
    else Key(k.hash, k.model, k.entry, k.block, if k.chunk.Some? && k.chunk.value in chunks then None else k.chunk)
  }

  function KeysWithoutBlock(rows: map<Id, Affinity>, b: Id, chunks: set<Id>): map<Id, Key> {
    map i | i in rows :: KeyWithoutBlock(rows[i].key, b, chunks)
  }

  lemma {:induction false} ReclassedExactly(s: Store, order: seq<Id>, g: Clearing, targets: map<Id, Key>)
    requires UniqueKeys(s.affinities) && Lists(order, s.affinities, g) && targets == Goals(s.affinities, g)
    ensures GroupMerged(IndexOf(s), targets, Reclassed(s, order, g).index)
  {
    ReclassIsGroupBy(IndexOf(s), order, g);
  }

  /**
   * Main result: losing chunks groups the rows by their keys without those chunks: the block column stays, and so do
   * the chunks not lost. Session results lose exactly those chunks, and no other table changes.
   */
  lemma {:induction false} DegradeChunksExactly(s: Store, chunks: set<Id>)
    requires UniqueKeys(s.affinities)
    ensures GroupMerged(IndexOf(s), KeysWithoutChunks(s.affinities, chunks), IndexOf(DegradeChunks(s, chunks)))
    ensures var s' := DegradeChunks(s, chunks);
      && s'.results.Keys == s.results.Keys
      && (forall k :: k in s.results ==>
            && s'.results[k].block == s.results[k].block && s'.results[k].rank == s.results[k].rank
            && s'.results[k].chunk == if s.results[k].chunk.Some? && s.results[k].chunk.value in chunks then None else s.results[k].chunk)
      && s' == s.(affinities := s'.affinities, vectors := s'.vectors, results := s'.results)
  {
    var g := AwayFromChunks(chunks);
    AscendingLists(s.affinities, g);
    assert KeysWithoutChunks(s.affinities, chunks) == Goals(s.affinities, g);
    ReclassedExactly(s, Ascending(Moved(s.affinities, g)), g, KeysWithoutChunks(s.affinities, chunks));
  }

  /**
   * Main result: losing a block groups the rows by their keys without it: its own rows lose both columns, others only
   * the chunks lost with it. The same goes for session results, and no other table changes.
   */
  lemma {:induction false} DegradeBlockExactly(s: Store, b: Id, chunks: set<Id>)
    requires UniqueKeys(s.affinities)
    ensures GroupMerged(IndexOf(s), KeysWithoutBlock(s.affinities, b, chunks), IndexOf(DegradeBlock(s, b, chunks)))
    ensures var s' := DegradeBlock(s, b, chunks);
      && s'.results.Keys == s.results.Keys
      && (forall k :: k in s.results ==>
            var r, r' := s.results[k], s'.results[k];
            && r'.rank == r.rank
            && r'.block == (if r.block == Some(b) then None else r.block)
            && r'.chunk == if r.block == Some(b) || (r.chunk.Some? && r.chunk.value in chunks) then None else r.chunk)
      && s' == s.(affinities := s'.affinities, vectors := s'.vectors, results := s'.results)
  {
    var g := AwayFromBlock(b, chunks);
    BlockOrderLists(s.affinities, b, chunks);
    assert KeysWithoutBlock(s.affinities, b, chunks) == Goals(s.affinities, g);
    ReclassedExactly(s, BlockOrder(s.affinities, b, chunks), g, KeysWithoutBlock(s.affinities, b, chunks));
  }

  /** Row by row: what is left is an old row under its key without the lost chunks, and every old row is represented there. */
  lemma {:induction false} LostChunksOnly(s: Store, chunks: set<Id>)
    requires UniqueKeys(s.affinities)
    ensures var left := DegradeChunks(s, chunks).affinities;
      && (forall i :: i in left ==> i in s.affinities && left[i].key == KeyWithoutChunks(s.affinities[i].key, chunks))
      && (forall j :: j in s.affinities ==> Occupied(left, KeyWithoutChunks(s.affinities[j].key, chunks)))
  {
    DegradeChunksExactly(s, chunks);
    MergedIsRekeyed(IndexOf(s), KeysWithoutChunks(s.affinities, chunks), IndexOf(DegradeChunks(s, chunks)));
    LostAtKeys(s.affinities, chunks, DegradeChunks(s, chunks).affinities);
  }

  lemma {:induction false} LostAtKeys(rows: map<Id, Affinity>, chunks: set<Id>, left: map<Id, Affinity>)
    requires Rekeyed(KeysWithoutChunks(rows, chunks), left)
    ensures forall i :: i in left ==> i in rows && left[i].key == KeyWithoutChunks(rows[i].key, chunks)
    ensures forall j :: j in rows ==> Occupied(left, KeyWithoutChunks(rows[j].key, chunks))
  {
    var targets := KeysWithoutChunks(rows, chunks);
    forall j | j in rows
      ensures Occupied(left, KeyWithoutChunks(rows[j].key, chunks))
    {
      assert j in targets && Occupied(left, targets[j]);
    }
  }

  /** The same for a lost block. */
  lemma {:induction false} LostBlockOnly(s: Store, b: Id, chunks: set<Id>)
    requires UniqueKeys(s.affinities)
    ensures var left := DegradeBlock(s, b, chunks).affinities;
      && (forall i :: i in left ==> i in s.affinities && left[i].key == KeyWithoutBlock(s.affinities[i].key, b, chunks))
      && (forall j :: j in s.affinities ==> Occupied(left, KeyWithoutBlock(s.affinities[j].key, b, chunks)))
  {
    DegradeBlockExactly(s, b, chunks);
    MergedIsRekeyed(IndexOf(s), KeysWithoutBlock(s.affinities, b, chunks), IndexOf(DegradeBlock(s, b, chunks)));
    BlockLostAtKeys(s.affinities, b, chunks, DegradeBlock(s, b, chunks).affinities);
  }

  lemma {:induction false} BlockLostAtKeys(rows: map<Id, Affinity>, b: Id, chunks: set<Id>, left: map<Id, Affinity>)
    requires Rekeyed(KeysWithoutBlock(rows, b, chunks), left)
    ensures forall i :: i in left ==> i in rows && left[i].key == KeyWithoutBlock(rows[i].key, b, chunks)
    ensures forall j :: j in rows ==> Occupied(left, KeyWithoutBlock(rows[j].key, b, chunks))
  {
    var targets := KeysWithoutBlock(rows, b, chunks);
    forall j | j in rows
      ensures Occupied(left, KeyWithoutBlock(rows[j].key, b, chunks))
    {
      assert j in targets && Occupied(left, targets[j]);
    }
  }
}
