/** Deleting entries, and reconciling every signal table with the content index. */
module Reconcile {
  import opened Prelude
  import opened SignalTables
  import opened PrecisionMerge
  import opened SignalOps

  // ---- Dropping whole entries ----

  /** Which entries keep their rows. */
  datatype Kept = NotIn(ids: set<Id>) | Among(ids: set<Id>)

  predicate Keeps(kept: Kept, e: Id) {
    match kept
    case NotIn(ids) => e !in ids
    case Among(ids) => e in ids
  }

  function KeptRows(rows: map<Id, Affinity>, kept: Kept): map<Id, Affinity> {
    map i | i in rows && Keeps(kept, rows[i].key.entry) :: rows[i]
  }

  function KeptStats(stats: map<Id, Stats>, kept: Kept): map<Id, Stats> {
    map e | e in stats && Keeps(kept, e) :: stats[e]
  }

  function KeptPairs<V>(table: map<(Id, Id), V>, kept: Kept): map<(Id, Id), V> {
    map k | k in table && Keeps(kept, k.1) :: table[k]
  }

  /** The vectors left when those of the entries' rows go; orphans stay. */
  function VectorsBeside(vectors: map<Id, Vector>, rows: map<Id, Affinity>, kept: Kept): map<Id, Vector> {
    map i | i in vectors && !(i in rows && !Keeps(kept, rows[i].key.entry)) :: vectors[i]
  }

  /** Every row owned by an entry that is not kept goes; `vectors` is what remains of the vector table. */
  function Restrict(s: Store, kept: Kept, vectors: map<Id, Vector>): Store {
    s.(affinities := KeptRows(s.affinities, kept), vectors := vectors, stats := KeptStats(s.stats, kept),
       receipts := KeptPairs(s.receipts, kept), results := KeptPairs(s.results, kept))
  }

  function DeleteEntries(s: Store, ids: set<Id>): Store {
    Restrict(s, NotIn(ids), VectorsBeside(s.vectors, s.affinities, NotIn(ids)))
  }

  lemma {:induction false} RestrictKeepsStats(s: Store, kept: Kept, cap: nat)
    requires StatsMatchReceipts(s.receipts, s.stats, cap)
    ensures var s' := Restrict(s, kept, s.vectors); StatsMatchReceipts(s'.receipts, s'.stats, cap)
  {
    var s' := Restrict(s, kept, s.vectors);
    forall e
      ensures ReceiptsOf(s'.receipts, e) == if Keeps(kept, e) then ReceiptsOf(s.receipts, e) else {}
    {
    }
  }

  lemma {:induction false} RestrictStaysCoherent(s: Store, kept: Kept, vectors: map<Id, Vector>, cap: nat, now: Time)
    requires Coherent(s, cap, now) && forall i :: i in vectors ==> i in s.vectors && vectors[i] == s.vectors[i]
    ensures Coherent(Restrict(s, kept, vectors), cap, now)
  {
    RestrictKeepsStats(s, kept, cap);
    RestrictKeepsAttained(s, kept);
    var s' := Restrict(s, kept, vectors);
    assert AllWithinStats(s'.affinities, s'.stats);
    assert VectorsSized(s'.affinities, s'.vectors, s'.vecDim);
  }

  lemma {:induction false} RestrictKeepsAttained(s: Store, kept: Kept)
    requires StatsAttained(s.affinities, s.stats)
    ensures var s' := Restrict(s, kept, s.vectors); StatsAttained(s'.affinities, s'.stats)
  {
    var s' := Restrict(s, kept, s.vectors);
    forall e | e in s'.stats
      ensures exists i :: Attains(s'.affinities, i, e, s'.stats[e].last)
    {
      var i :| Attains(s.affinities, i, e, s.stats[e].last);
      assert Attains(s'.affinities, i, e, s'.stats[e].last);
    }
  }

  /** Every table but the sessions loses exactly the rows of the deleted entries; what is left keeps its values. */
  lemma {:induction false} DeleteEntriesTakesExactly(s: Store, ids: set<Id>)
    ensures var s' := DeleteEntries(s, ids);
      && (forall e :: e in s'.stats <==> e in s.stats && e !in ids)
      && (forall k :: k in s'.receipts <==> k in s.receipts && k.1 !in ids)
      && (forall k :: k in s'.results <==> k in s.results && k.1 !in ids)
      && (forall i :: i in s'.affinities <==> i in s.affinities && s.affinities[i].key.entry !in ids)
      && s'.sessions == s.sessions && s'.vecDim == s.vecDim
    ensures var s' := DeleteEntries(s, ids);
      && (forall e :: e in s'.stats ==> s'.stats[e] == s.stats[e])
      && (forall k :: k in s'.receipts ==> s'.receipts[k] == s.receipts[k])
      && (forall k :: k in s'.results ==> s'.results[k] == s.results[k])
      && (forall i :: i in s'.affinities ==> s'.affinities[i] == s.affinities[i])
      && (forall i :: i in s'.vectors ==> i in s.vectors && s'.vectors[i] == s.vectors[i])
  {
  }

  /** Deleting entries leaves consistent tables with no row of theirs, and touches no other entry's rows. */
  lemma {:induction false} DeleteEntriesKeeps(s: Store, ids: set<Id>, cap: nat, now: Time)
    requires Consistent(s, cap, now)
    ensures Consistent(DeleteEntries(s, ids), cap, now)
    ensures forall i :: i in DeleteEntries(s, ids).affinities <==> i in s.affinities && s.affinities[i].key.entry !in ids
    ensures forall i :: i in DeleteEntries(s, ids).vectors <==> i in s.vectors && s.affinities[i].key.entry !in ids
  {
    RestrictStaysCoherent(s, NotIn(ids), DeleteEntries(s, ids).vectors, cap, now);
  }

  // ---- Reconciliation ----

  datatype Counts = Counts(statsDeleted: int, affinitiesDeleted: int, feedbackDeleted: int, resultsDeleted: int,
                           affinitiesDegraded: int, resultsDegraded: int, vectorsDeleted: int)

  const NOTHING_DONE := Counts(0, 0, 0, 0, 0, 0, 0)

  function LiveBlockResult(c: Content, e: Id, r: SessionResult): SessionResult {
    if BlockResolves(c, e, r.block) then r else r.(block := None, chunk := None)
  }

  function LiveChunkResult(c: Content, e: Id, r: SessionResult): SessionResult {
    if ChunkResolves(c, e, r.block, r.chunk) then r else r.(chunk := None)
  }

  function LiveBlockResults(c: Content, results: map<(Id, Id), SessionResult>): map<(Id, Id), SessionResult> {
    map k | k in results :: LiveBlockResult(c, k.1, results[k])
  }

  function LiveChunkResults(c: Content, results: map<(Id, Id), SessionResult>): map<(Id, Id), SessionResult> {
    map k | k in results :: LiveChunkResult(c, k.1, results[k])
  }

  function StaleBlockResults(c: Content, results: map<(Id, Id), SessionResult>): set<(Id, Id)> {
    set k | k in results && !BlockResolves(c, k.1, results[k].block)
  }

  function StaleChunkResults(c: Content, results: map<(Id, Id), SessionResult>): set<(Id, Id)> {
    set k | k in results && !ChunkResolves(c, k.1, results[k].block, results[k].chunk)
  }

  /** One degrade pass over all rows that `g` moves, by id. */
  ghost function Pass(s: Store, g: Clearing): Outcome {
    AscendingLists(s.affinities, g);
    Reclassed(s, Ascending(Moved(s.affinities, g)), g)
  }

  function Swept(ix: Index): map<Id, Vector> {
    map i | i in ix.vectors && i in ix.rows :: ix.vectors[i]
  }

  function LiveOnly(s: Store, c: Content): Store {
    Restrict(s, Among(c.entries), s.vectors)
  }

  ghost function BlocksCleared(s: Store, c: Content): Outcome {
    Pass(LiveOnly(s, c), ToLiveBlock(c))
  }

  ghost function ChunksCleared(s: Store, c: Content): Outcome {
    Pass(WithIndex(LiveOnly(s, c), BlocksCleared(s, c).index), ToLiveChunk(c))
  }

  ghost function Reconciled(s: Store, c: Content): Store {
    var ix := ChunksCleared(s, c).index;
    WithIndex(LiveOnly(s, c), Index(ix.rows, Swept(ix)))
      .(results := LiveChunkResults(c, LiveBlockResults(c, LiveOnly(s, c).results)))
  }

  ghost function ReconcileCounts(s: Store, c: Content): Counts {
    var s1, o1, o2 := LiveOnly(s, c), BlocksCleared(s, c), ChunksCleared(s, c);
    var r1 := LiveBlockResults(c, s1.results);
    Counts(|s.stats| - |s1.stats|, |s.affinities| - |s1.affinities|, |s.receipts| - |s1.receipts|, |s.results| - |s1.results|,
           o1.degraded + o2.degraded,
           |StaleBlockResults(c, s1.results)| + |StaleChunkResults(c, r1)|,
           o1.dropped + o2.dropped + (|o2.index.vectors| - |Swept(o2.index)|))
  }

  /** Every reference of affinities and session results resolves to a live target of the row's own entry. */
  ghost predicate AllResolve(s: Store, c: Content) {
    && (forall i :: i in s.affinities ==> KeyResolves(s.affinities[i].key, c))
    && (forall k :: k in s.results ==>
          k.1 in c.entries && BlockResolves(c, k.1, s.results[k].block)
          && ChunkResolves(c, k.1, s.results[k].block, s.results[k].chunk))
  }

  predicate KeyResolves(k: Key, c: Content) {
    k.entry in c.entries && BlockResolves(c, k.entry, k.block) && ChunkResolves(c, k.entry, k.block, k.chunk)
  }

  lemma {:induction false} PassStaysCoherent(s: Store, cap: nat, now: Time, g: Clearing)
    requires Coherent(s, cap, now)
    ensures Coherent(WithIndex(s, Pass(s, g).index), cap, now)
    ensures forall i :: i in Pass(s, g).index.rows ==> Goal(g, Pass(s, g).index.rows[i].key) == Pass(s, g).index.rows[i].key
  {
    AscendingLists(s.affinities, g);
    ReclassedStaysCoherent(s, cap, now, Ascending(Moved(s.affinities, g)), g);
  }

  /** A pass counts the rows it moves and the vectors it loses, and moves each row only along `g`. */
  lemma {:induction false} PassCounts(s: Store, g: Clearing)
    requires UniqueKeys(s.affinities)
    ensures UniqueKeys(Pass(s, g).index.rows)
    ensures Pass(s, g).degraded == |Moved(s.affinities, g)|
    ensures Pass(s, g).dropped == |s.vectors| - |Pass(s, g).index.vectors|
    ensures forall i :: i in Pass(s, g).index.rows ==>
      i in s.affinities && Pass(s, g).index.rows[i].key == Goal(g, s.affinities[i].key)
  {
    AscendingLists(s.affinities, g);
    ReclassIsGroupBy(IndexOf(s), Ascending(Moved(s.affinities, g)), g);
  }

  /** Reconciliation keeps the tables consistent. */
  lemma {:induction false} ReconcileKeeps(s: Store, c: Content, cap: nat, now: Time)
    requires Consistent(s, cap, now)
    ensures Consistent(Reconciled(s, c), cap, now)
  {
    RestrictStaysCoherent(s, Among(c.entries), s.vectors, cap, now);
    var s1 := LiveOnly(s, c);
    PassStaysCoherent(s1, cap, now, ToLiveBlock(c));
    var s2 := WithIndex(s1, BlocksCleared(s, c).index);
    PassStaysCoherent(s2, cap, now, ToLiveChunk(c));
  }

  lemma {:induction false} BothGoalsResolve(k: Key, c: Content)
    requires k.entry in c.entries
    ensures KeyResolves(Goal(ToLiveChunk(c), Goal(ToLiveBlock(c), k)), c)
  {
  }

  lemma {:induction false} ResultsResolve(c: Content, results: map<(Id, Id), SessionResult>)
    ensures forall k :: k in results ==>
      var r := LiveChunkResults(c, LiveBlockResults(c, results))[k];
      BlockResolves(c, k.1, r.block) && ChunkResolves(c, k.1, r.block, r.chunk)
  {
  }

  /** The two passes: what they count, and what their rows' keys become. */
  lemma {:induction false} PassesCount(s: Store, c: Content)
    requires UniqueKeys(s.affinities)
    ensures var s1, o1, o2 := LiveOnly(s, c), BlocksCleared(s, c), ChunksCleared(s, c);
      && UniqueKeys(o1.index.rows) && UniqueKeys(o2.index.rows)
      && o1.degraded == |Moved(s1.affinities, ToLiveBlock(c))| && o2.degraded == |Moved(o1.index.rows, ToLiveChunk(c))|
      && o1.dropped == |s.vectors| - |o1.index.vectors| && o2.dropped == |o1.index.vectors| - |o2.index.vectors|
      && forall i :: i in o2.index.rows ==>
           i in s1.affinities && o2.index.rows[i].key == Goal(ToLiveChunk(c), Goal(ToLiveBlock(c), s1.affinities[i].key))
  {
    var s1 := LiveOnly(s, c);
    PassCounts(s1, ToLiveBlock(c));
    var s2 := WithIndex(s1, BlocksCleared(s, c).index);
    PassCounts(s2, ToLiveChunk(c));
  }

  /** Afterwards every surviving reference resolves and no vector is orphaned. */
  lemma {:induction false} ReconcileResolves(s: Store, c: Content)
    requires UniqueKeys(s.affinities)
    ensures AllResolve(Reconciled(s, c), c)
    ensures Reconciled(s, c).vectors.Keys <= Reconciled(s, c).affinities.Keys
  {
    var s1, s' := LiveOnly(s, c), Reconciled(s, c);
    PassesCount(s, c);
    forall i | i in s'.affinities
      ensures KeyResolves(s'.affinities[i].key, c)
    {
      BothGoalsResolve(s1.affinities[i].key, c);
    }
    ResultsResolve(c, s1.results);
  }

  /** The reported vector deletions are exactly the drop in vector rows. */
  lemma {:induction false} ReconcileCountsVectors(s: Store, c: Content)
    requires UniqueKeys(s.affinities)
    ensures ReconcileCounts(s, c).vectorsDeleted == |s.vectors| - |Reconciled(s, c).vectors|
  {
    PassesCount(s, c);
  }

  lemma {:induction false} NothingMoves(s: Store, g: Clearing)
    requires forall i :: i in s.affinities ==> Goal(g, s.affinities[i].key) == s.affinities[i].key
    ensures Pass(s, g) == Outcome(IndexOf(s), 0, 0)
  {
    assert Moved(s.affinities, g) == {};
  }

  /** Tables that already resolve are a fixed point, and reconciling them reports nothing at all. */
  lemma {:induction false} ResolvedIsFixedPoint(s: Store, c: Content)
    requires AllResolve(s, c) && s.vectors.Keys <= s.affinities.Keys
    requires forall e :: e in s.stats ==> e in c.entries
    requires forall k :: k in s.receipts ==> k.1 in c.entries
    ensures Reconciled(s, c) == s
    ensures ReconcileCounts(s, c) == NOTHING_DONE
  {
    LiveOnlyIsAll(s, c);
    NothingMoves(s, ToLiveBlock(c));
    NothingMoves(s, ToLiveChunk(c));
    assert Swept(IndexOf(s)) == s.vectors;
    ResolvedResultsStay(c, s.results);
  }

  lemma {:induction false} LiveOnlyIsAll(s: Store, c: Content)
    requires AllResolve(s, c)
    requires forall e :: e in s.stats ==> e in c.entries
    requires forall k :: k in s.receipts ==> k.1 in c.entries
    ensures LiveOnly(s, c) == s
  {
    var s1 := LiveOnly(s, c);
    assert s1.affinities == s.affinities && s1.stats == s.stats && s1.receipts == s.receipts && s1.results == s.results;
  }

  lemma {:induction false} ResolvedResultsStay(c: Content, results: map<(Id, Id), SessionResult>)
    requires forall k :: k in results ==>
      BlockResolves(c, k.1, results[k].block) && ChunkResolves(c, k.1, results[k].block, results[k].chunk)
    ensures LiveBlockResults(c, results) == results && LiveChunkResults(c, results) == results
    ensures StaleBlockResults(c, results) == {} && StaleChunkResults(c, results) == {}
  {
  }

  /** Main result: a second reconciliation changes nothing and returns all zeros. */
  lemma {:induction false} ReconcileTwice(s: Store, c: Content)
    requires UniqueKeys(s.affinities)
    ensures Reconciled(Reconciled(s, c), c) == Reconciled(s, c)
    ensures ReconcileCounts(Reconciled(s, c), c) == NOTHING_DONE
  {
    ReconcileResolves(s, c);
    ResolvedIsFixedPoint(Reconciled(s, c), c);
  }

  // ---- Exactly what reconciliation leaves ----

  /** The block reference is empty or names a block of the entry. */
  predicate LiveBlock(c: Content, e: Id, block: Option<Id>) {
    block == None || (block.value in c.blocks && c.blocks[block.value] == e)
  }

  /** The chunk reference is empty or names a chunk in a block of the entry: in the given one, when one is given. */
  predicate LiveChunk(c: Content, e: Id, block: Option<Id>, chunk: Option<Id>) {
    || chunk == None
    || (&& chunk.value in c.chunks && c.chunks[chunk.value] in c.blocks && c.blocks[c.chunks[chunk.value]] == e
        && (block == None || block == Some(c.chunks[chunk.value])))
  }

  /** A key reduced to what is live: a stale block goes with its chunk, under a live block only a stale chunk goes. */
  function LiveKey(c: Content, k: Key): Key {
    if !LiveBlock(c, k.entry, k.block) then Key(k.hash, k.model, k.entry, None, None)
    else Key(k.hash, k.model, k.entry, k.block, if LiveChunk(c, k.entry, k.block, k.chunk) then k.chunk else None)
  }

  function LiveKeys(rows: map<Id, Affinity>, c: Content): map<Id, Key> {
    map i | i in rows :: LiveKey(c, rows[i].key)
  }

  /** The affinities of live entries. */
  function LiveRows(rows: map<Id, Affinity>, c: Content): map<Id, Affinity> {
    map i | i in rows && rows[i].key.entry in c.entries :: rows[i]
  }

  lemma {:induction false} PassIsGroupBy(s: Store, g: Clearing)
    requires UniqueKeys(s.affinities)
    ensures GroupMerged(IndexOf(s), Goals(s.affinities, g), Pass(s, g).index)
  {
    AscendingLists(s.affinities, g);
    ReclassIsGroupBy(IndexOf(s), Ascending(Moved(s.affinities, g)), g);
  }

  lemma {:induction false} LiveKeyIs(c: Content, rows: map<Id, Affinity>, j: Id)
    requires j in rows
    ensures LiveKeys(rows, c)[j] == Goal(ToLiveChunk(c), Goal(ToLiveBlock(c), rows[j].key))
  {
  }

  /** The two passes together group the rows by their live keys. */
  lemma {:induction false} PassesAreGroupBy(s: Store, c: Content)
    requires UniqueKeys(s.affinities)
    ensures GroupMerged(IndexOf(LiveOnly(s, c)), LiveKeys(LiveOnly(s, c).affinities, c), ChunksCleared(s, c).index)
  {
    var s1, mid := LiveOnly(s, c), BlocksCleared(s, c).index;
    PassIsGroupBy(s1, ToLiveBlock(c));
    PassIsGroupBy(WithIndex(s1, mid), ToLiveChunk(c));
    var t1, t2, t := Goals(s1.affinities, ToLiveBlock(c)), Goals(mid.rows, ToLiveChunk(c)), LiveKeys(s1.affinities, c);
    forall j, m | j in s1.affinities && m in mid.rows && mid.rows[m].key == t1[j]
      ensures t[j] == t2[m]
    {
      LiveKeyIs(c, s1.affinities, j);
    }
    GroupsCompose(IndexOf(s1), t1, mid, t2, ChunksCleared(s, c).index, t);
  }

  lemma {:induction false} LiveOnlyIs(s: Store, c: Content)
    ensures IndexOf(LiveOnly(s, c)) == Index(LiveRows(s.affinities, c), s.vectors)
  {
    assert LiveOnly(s, c).affinities == LiveRows(s.affinities, c);
  }

  /**
   * Main result: reconciliation drops the affinities of entries that are gone and only those, groups the remaining
   * ones by their live keys, and sweeps the vectors without a row.
   */
  lemma {:induction false} ReconcileIsGroupBy(s: Store, c: Content) returns (merged: Index)
    requires UniqueKeys(s.affinities)
    ensures var live := Index(LiveRows(s.affinities, c), s.vectors); GroupMerged(live, LiveKeys(live.rows, c), merged)
    ensures Reconciled(s, c).affinities == merged.rows
    ensures forall i :: VectorOf(Reconciled(s, c).vectors, i) == if i in merged.rows then VectorOf(merged.vectors, i) else None
  {
    PassesAreGroupBy(s, c);
    LiveOnlyIs(s, c);
    merged := ChunksCleared(s, c).index;
    SweptExactly(merged);
  }

  lemma {:induction false} SweptExactly(ix: Index)
    ensures forall i :: VectorOf(Swept(ix), i) == if i in ix.rows then VectorOf(ix.vectors, i) else None
  {
  }

  /** The other tables keep exactly the rows of live entries. */
  lemma {:induction false} ReconcileSpares(s: Store, c: Content)
    ensures var s' := Reconciled(s, c);
      && s'.sessions == s.sessions && s'.vecDim == s.vecDim
      && (forall e :: e in s'.stats <==> e in s.stats && e in c.entries)
      && (forall e :: e in s'.stats ==> s'.stats[e] == s.stats[e])
      && (forall k :: k in s'.receipts <==> k in s.receipts && k.1 in c.entries)
      && (forall k :: k in s'.receipts ==> s'.receipts[k] == s.receipts[k])
  {
    RestrictSpares(s, Among(c.entries));
  }

  lemma {:induction false} RestrictSpares(s: Store, kept: Kept)
    ensures var s' := Restrict(s, kept, s.vectors);
      && (forall e :: e in s'.stats <==> e in s.stats && Keeps(kept, e))
      && (forall e :: e in s'.stats ==> s'.stats[e] == s.stats[e])
      && (forall k :: k in s'.receipts <==> k in s.receipts && Keeps(kept, k.1))
      && (forall k :: k in s'.receipts ==> s'.receipts[k] == s.receipts[k])
  {
  }

  /** Session results of live entries stay, reduced to what is live. */
  lemma {:induction false} ReconcileReducesResults(s: Store, c: Content)
    ensures var results := Reconciled(s, c).results;
      && (forall k :: k in results <==> k in s.results && k.1 in c.entries)
      && (forall k :: k in results ==> results[k] == LiveResult(c, k.1, s.results[k]))
  {
    var live := LiveOnly(s, c).results;
    forall k | k in live
      ensures LiveChunkResults(c, LiveBlockResults(c, live))[k] == LiveResult(c, k.1, s.results[k])
    {
      assert live[k] == s.results[k];
    }
  }

  function LiveResult(c: Content, e: Id, r: SessionResult): SessionResult {
    if !LiveBlock(c, e, r.block) then SessionResult(None, None, r.rank)
    else SessionResult(r.block, if LiveChunk(c, e, r.block, r.chunk) then r.chunk else None, r.rank)
  }

  /** Row by row: each affinity left is an old one of a live entry under its live key, and every old one is represented there. */
  lemma {:induction false} ReconcileKeepsLivePrecision(s: Store, c: Content)
    requires UniqueKeys(s.affinities)
    ensures var left := Reconciled(s, c).affinities;
      && (forall i :: i in left ==> i in s.affinities && s.affinities[i].key.entry in c.entries && left[i].key == LiveKey(c, s.affinities[i].key))
      && (forall j :: j in s.affinities && s.affinities[j].key.entry in c.entries ==> Occupied(left, LiveKey(c, s.affinities[j].key)))
  {
    var merged := ReconcileIsGroupBy(s, c);
    var live := Index(LiveRows(s.affinities, c), s.vectors);
    MergedIsRekeyed(live, LiveKeys(live.rows, c), merged);
    ReducedAtKeys(s.affinities, c, merged.rows);
  }

  lemma {:induction false} ReducedAtKeys(rows: map<Id, Affinity>, c: Content, left: map<Id, Affinity>)
    requires Rekeyed(LiveKeys(LiveRows(rows, c), c), left)
    ensures forall i :: i in left ==> i in rows && rows[i].key.entry in c.entries && left[i].key == LiveKey(c, rows[i].key)
    ensures forall j :: j in rows && rows[j].key.entry in c.entries ==> Occupied(left, LiveKey(c, rows[j].key))
  {
    var targets := LiveKeys(LiveRows(rows, c), c);
    forall j | j in rows && rows[j].key.entry in c.entries
      ensures Occupied(left, LiveKey(c, rows[j].key))
    {
      assert j in targets && Occupied(left, targets[j]);
    }
  }

  /** Rows of live entries with a stale block. */
  function StaleBlockRows(s: Store, c: Content): set<Id> {
    set i | i in LiveRows(s.affinities, c) && !LiveBlock(c, s.affinities[i].key.entry, s.affinities[i].key.block)
  }

  /** A key once a stale block is gone. */
  function BlockCleared(c: Content, k: Key): Key {
    if LiveBlock(c, k.entry, k.block) then k else Key(k.hash, k.model, k.entry, None, None)
  }

  /** The different keys with a stale chunk that are left when stale blocks are gone: one row each. */
  function StaleChunkKeys(s: Store, c: Content): set<Key> {
    set i | i in LiveRows(s.affinities, c)
            && !LiveChunk(c, s.affinities[i].key.entry, BlockCleared(c, s.affinities[i].key).block, BlockCleared(c, s.affinities[i].key).chunk)
      :: BlockCleared(c, s.affinities[i].key)
  }

  lemma {:induction false} DegradedCounts(s: Store, c: Content)
    requires UniqueKeys(s.affinities)
    ensures BlocksCleared(s, c).degraded == |StaleBlockRows(s, c)| && ChunksCleared(s, c).degraded == |StaleChunkKeys(s, c)|
  {
    var s1, mid := LiveOnly(s, c), BlocksCleared(s, c).index;
    PassesCount(s, c);
    LiveOnlyIs(s, c);
    assert Moved(s1.affinities, ToLiveBlock(c)) == StaleBlockRows(s, c);
    PassIsGroupBy(s1, ToLiveBlock(c));
    MergedIsRekeyed(IndexOf(s1), Goals(s1.affinities, ToLiveBlock(c)), mid);
    StaleKeysAre(s, c, mid.rows);
    KeysCount(mid.rows, Moved(mid.rows, ToLiveChunk(c)));
  }

  lemma {:induction false} StaleKeysAre(s: Store, c: Content, mid: map<Id, Affinity>)
    requires Rekeyed(Goals(LiveRows(s.affinities, c), ToLiveBlock(c)), mid)
    ensures KeysOf(mid, Moved(mid, ToLiveChunk(c))) == StaleChunkKeys(s, c)
  {
    forall k | k in StaleChunkKeys(s, c)
      ensures k in KeysOf(mid, Moved(mid, ToLiveChunk(c)))
    {
      var j :| j in LiveRows(s.affinities, c) && k == BlockCleared(c, LiveRows(s.affinities, c)[j].key)
               && !LiveChunk(c, LiveRows(s.affinities, c)[j].key.entry, k.block, k.chunk);
      StaleKeyMoves(s, c, mid, j);
    }
    forall k | k in KeysOf(mid, Moved(mid, ToLiveChunk(c)))
      ensures k in StaleChunkKeys(s, c)
    {
      var i :| i in mid && i in Moved(mid, ToLiveChunk(c)) && mid[i].key == k;
      MovedKeyIsStale(s, c, mid, i);
    }
  }

  lemma {:induction false} StaleKeyMoves(s: Store, c: Content, mid: map<Id, Affinity>, j: Id)
    requires Rekeyed(Goals(LiveRows(s.affinities, c), ToLiveBlock(c)), mid) && j in LiveRows(s.affinities, c)
    requires var k := BlockCleared(c, LiveRows(s.affinities, c)[j].key); !LiveChunk(c, k.entry, k.block, k.chunk)
    ensures BlockCleared(c, LiveRows(s.affinities, c)[j].key) in KeysOf(mid, Moved(mid, ToLiveChunk(c)))
  {
    var targets := Goals(LiveRows(s.affinities, c), ToLiveBlock(c));
    assert j in targets && Occupied(mid, targets[j]);
    var i :| Sits(mid, {}, i, targets[j]);
    assert i in Moved(mid, ToLiveChunk(c));
  }

  lemma {:induction false} MovedKeyIsStale(s: Store, c: Content, mid: map<Id, Affinity>, i: Id)
    requires Rekeyed(Goals(LiveRows(s.affinities, c), ToLiveBlock(c)), mid) && i in mid && i in Moved(mid, ToLiveChunk(c))
    ensures mid[i].key in StaleChunkKeys(s, c)
  {
    var targets := Goals(LiveRows(s.affinities, c), ToLiveBlock(c));
    assert mid[i].key == targets[i] == BlockCleared(c, LiveRows(s.affinities, c)[i].key);
  }

  function KeysOf(rows: map<Id, Affinity>, ids: set<Id>): set<Key> {
    set i | i in ids && i in rows :: rows[i].key
  }

  /** Under the unique index a set of rows has as many keys as rows. */
  lemma {:induction false} KeysCount(rows: map<Id, Affinity>, ids: set<Id>)
    requires UniqueKeys(rows) && ids <= rows.Keys
    ensures |KeysOf(rows, ids)| == |ids|
  {
    if ids != {} {
      var i :| i in ids;
      KeysCount(rows, ids - {i});
      assert KeysOf(rows, ids) == KeysOf(rows, ids - {i}) + {rows[i].key};
    }
  }

  /** The counters, one by one: the drops of four tables, the rows and results whose precision was reduced, the drop in vectors. */
  lemma {:induction false} ReconcileCountsExactly(s: Store, c: Content)
    requires UniqueKeys(s.affinities)
    ensures var s', counts := Reconciled(s, c), ReconcileCounts(s, c);
      && counts.statsDeleted == |s.stats| - |s'.stats| && counts.feedbackDeleted == |s.receipts| - |s'.receipts|
      && counts.resultsDeleted == |s.results| - |s'.results|
      && counts.affinitiesDeleted == |s.affinities| - |LiveRows(s.affinities, c)|
      && counts.vectorsDeleted == |s.vectors| - |s'.vectors|
      && counts.resultsDegraded == |set k | k in s'.results && s'.results[k] != s.results[k]|
      && counts.affinitiesDegraded == |StaleBlockRows(s, c)| + |StaleChunkKeys(s, c)|
  {
    DegradedCounts(s, c);
    ReconcileCountsVectors(s, c);
    var s1, s' := LiveOnly(s, c), Reconciled(s, c);
    assert s1.affinities == LiveRows(s.affinities, c);
    var r1 := LiveBlockResults(c, s1.results);
    assert s'.results.Keys == s1.results.Keys;
    MapSize(s'.results);
    MapSize(s1.results);
    ChangedResults(s, c);
  }

  lemma {:induction false} MapSize<K, V>(m: map<K, V>)
    ensures |m| == |m.Keys|
  {
  }

  lemma {:induction false} ChangedResults(s: Store, c: Content)
    ensures var s1, s' := LiveOnly(s, c), Reconciled(s, c);
      |StaleBlockResults(c, s1.results)| + |StaleChunkResults(c, LiveBlockResults(c, s1.results))|
      == |set k | k in s'.results && s'.results[k] != s.results[k]|
  {
    var s1, s' := LiveOnly(s, c), Reconciled(s, c);
    var byBlock, byChunk := StaleBlockResults(c, s1.results), StaleChunkResults(c, LiveBlockResults(c, s1.results));
    forall k
      ensures k in byBlock + byChunk <==> k in s'.results && s'.results[k] != s.results[k]
      ensures !(k in byBlock && k in byChunk)
    {
      ChangedResult(s, c, k);
    }
    assert (set k | k in s'.results && s'.results[k] != s.results[k]) == byBlock + byChunk;
    assert byBlock !! byChunk;
  }

  lemma {:induction false} ChangedResult(s: Store, c: Content, k: (Id, Id))
    ensures var s1, s' := LiveOnly(s, c), Reconciled(s, c);
      var byBlock, byChunk := StaleBlockResults(c, s1.results), StaleChunkResults(c, LiveBlockResults(c, s1.results));
      && (k in byBlock + byChunk <==> k in s'.results && s'.results[k] != s.results[k])
      && !(k in byBlock && k in byChunk)
  {
  }
}
