/**
 * The adaptive-memory tables as values: one finite map per SQL table.
 *
 * Ids are ULIDs; their fixed-length text sorts like the number it spells, so an id is a `nat`.
 * Instants are integers (the RFC 3339 text of two instants sorts like the instants).
 * Texts, hashes and model names are only ever compared for equality here, so a text is a number naming it.
 * A normalised query hash is carried as a text of its own; nothing here depends on how it is made.
 */
module SignalTables {
  import opened Prelude

  type Id = nat
  type Text = nat
  type Time = int
  datatype Float = Finite(bits: int) | NonFinite
  type Vector = seq<Float>

  /** The columns of the unique index on `query_affinities`. */
  datatype Key = Key(hash: Text, model: Text, entry: Id, block: Option<Id>, chunk: Option<Id>)

  datatype Affinity = Affinity(key: Key, raw: Text, effective: Text, dim: nat,
                               count: nat, last: Time, created: Time, updated: Time)

  datatype Stats = Stats(count: nat, last: Time, updated: Time)

  datatype Receipt = Receipt(block: Option<Id>, chunk: Option<Id>, created: Time)

  datatype Session = Session(raw: Text, effective: Text, hash: Text, embedding: Vector,
                             model: Text, dim: nat, created: Time, expires: Time)

  datatype SessionResult = SessionResult(block: Option<Id>, chunk: Option<Id>, rank: nat)

  /** All local signal tables, and the dimension of the affinity vector table. */
  datatype Store = Store(sessions: map<Id, Session>, results: map<(Id, Id), SessionResult>,
                         receipts: map<(Id, Id), Receipt>, stats: map<Id, Stats>,
                         affinities: map<Id, Affinity>, vectors: map<Id, Vector>, vecDim: nat)

  /** The content index other services own: entries, the entry of each block, the block of each chunk. */
  datatype Content = Content(entries: set<Id>, blocks: map<Id, Id>, chunks: map<Id, Id>)

  /** Foreign keys of the content index: a block's entry and a chunk's block exist. */
  ghost predicate WellLinked(c: Content) {
    && (forall b :: b in c.blocks ==> c.blocks[b] in c.entries)
    && (forall k :: k in c.chunks ==> c.chunks[k] in c.blocks)
  }

  /** The unique index on the affinity key holds. */
  ghost predicate UniqueKeys(rows: map<Id, Affinity>) {
    forall i, j :: i in rows && j in rows && rows[i].key == rows[j].key ==> i == j
  }

  function ReceiptsOf(receipts: map<(Id, Id), Receipt>, e: Id): set<(Id, Id)> {
    set k | k in receipts && k.1 == e
  }

  /** The block reference names a block of the row's own entry. */
  predicate BlockResolves(c: Content, e: Id, block: Option<Id>) {
    block.None? || (block.value in c.blocks && c.blocks[block.value] == e)
  }

  /** The chunk reference names a chunk of the row's own entry, and of its block when it has one. */
  predicate ChunkResolves(c: Content, e: Id, block: Option<Id>, chunk: Option<Id>) {
    || chunk.None?
    || (&& chunk.value in c.chunks
        && c.chunks[chunk.value] in c.blocks
        && c.blocks[c.chunks[chunk.value]] == e
        && (block.None? || block.value == c.chunks[chunk.value]))
  }

  /** Stats exist exactly for entries with receipts, and count them up to the cap. */
  ghost predicate StatsMatchReceipts(receipts: map<(Id, Id), Receipt>, stats: map<Id, Stats>, cap: nat) {
    && (forall e :: e in stats <==> ReceiptsOf(receipts, e) != {})
    && (forall e :: e in stats ==> stats[e].count == Min(cap, |ReceiptsOf(receipts, e)|))
  }

  ghost predicate WithinStats(a: Affinity, stats: map<Id, Stats>) {
    && a.key.entry in stats
    && 1 <= a.count <= stats[a.key.entry].count
    && a.last <= stats[a.key.entry].last
    && a.created <= a.last == a.updated
  }

  /** Every affinity belongs to an entry with stats and is no stronger and no newer than them. */
  ghost predicate AllWithinStats(rows: map<Id, Affinity>, stats: map<Id, Stats>) {
    forall i :: i in rows ==> WithinStats(rows[i], stats)
  }

  ghost predicate Attains(rows: map<Id, Affinity>, i: Id, e: Id, t: Time) {
    i in rows && rows[i].key.entry == e && rows[i].last == t
  }

  /** Some affinity of each entry with stats carries the entry's own reinforcement time. */
  ghost predicate StatsAttained(rows: map<Id, Affinity>, stats: map<Id, Stats>) {
    forall e :: e in stats ==>
      (stats[e].updated == stats[e].last && exists i :: Attains(rows, i, e, stats[e].last))
  }

  ghost predicate VectorsSized(rows: map<Id, Affinity>, vectors: map<Id, Vector>, dim: nat) {
    forall i :: i in rows && i in vectors ==> |vectors[i]| == dim
  }

  /** No reinforcement lies in the future. */
  ghost predicate Timely(stats: map<Id, Stats>, now: Time) {
    forall e :: e in stats ==> stats[e].last <= now
  }

  /** Recorded results belong to live sessions. */
  ghost predicate ResultsOwned(sessions: map<Id, Session>, results: map<(Id, Id), SessionResult>) {
    forall k :: k in results ==> k.0 in sessions
  }

  /** What every run keeps, for a fixed reinforcement cap and a clock that never goes back. */
  ghost predicate Consistent(s: Store, cap: nat, now: Time) {
    && Coherent(s, cap, now)
    && s.vectors.Keys <= s.affinities.Keys
  }

  /** Consistency while vectors of deleted rows are still to be swept. */
  ghost predicate Coherent(s: Store, cap: nat, now: Time) {
    && UniqueKeys(s.affinities)
    && StatsMatchReceipts(s.receipts, s.stats, cap)
    && AllWithinStats(s.affinities, s.stats)
    && StatsAttained(s.affinities, s.stats)
    && VectorsSized(s.affinities, s.vectors, s.vecDim)
    && Timely(s.stats, now)
    && ResultsOwned(s.sessions, s.results)
  }
}
