# nomai, modelled and proved in Dafny

nomai is a local memory store: entries made of typed blocks live in `.nomai` files, a SQLite index is derived from
them, and adaptive signals learned from feedback steer the search. This project models the parts whose correctness
is an argument rather than a reading, and proves what they promise, over all inputs, all runs and all interleavings.

* **Adaptive-memory signals** (`SignalTables`, `PrecisionMerge`, `PrecisionOrder`, `SignalOps`, `Reconcile`, `Feedback`,
  `Fingerprint`, `Reembedding`, `SignalRuns`, `MemorySignals`): sessions, receipts, stats, affinities and vectors move
  together. Each transaction is a function on the tables; a class carries out its statements and loops and is proved
  to end in the same tables. A run interleaves all of them with arbitrary changes of the content index and a clock
  that never goes back.
* **The `.nomai` format** (`NomaiText`, `NomaiFields`, `NomaiTags`, `NomaiFormat`, `NomaiAttrs`, `NomaiGrammar`,
  `NomaiReading`, `NomaiShape`, `NomaiRoundTrip`, `NomaiLoops`): what any text reads as, from characters to whole
  documents, complaints included; three quoting schemes, each characterised exactly; the shape of everything the
  parser accepts; and exactly which documents survive rendering and parsing. The parser's and the renderer's loops
  are methods proved against the format's functions. An attribute map is the list of its entries in key order, which
  is how a B-tree map holds them.
* **Chunking and stored blocks** (`Utf8`, `Chunking`, `ChunkPacking`, `BlockStore`): the byte bound, conservation and
  optimality of the splitter, what its paragraphs, sentences and cuts are, and the agreement of stored chunks with it. The code measures UTF-8 bytes (section 3 of RFC 3629),
  although its comments speak of characters.
* **Filesystem and index** (`IndexSync`, `IndexService`): the incremental pass against the wholesale rebuild, for any
  content a file may derive, and then for the blocks and chunks it does derive.
* **Channels** (`Channels`): exactly-once delivery with cursors, purges and unsubscribes, over runs with a ghost
  history of everything sent, purged and handed out.
* **Search cache** (`SearchCache.dfy`): lookups as four moments between which mutations, bumps and clears may fall.
* **Ranking** (`Ranking`, `AffinityRanking`, `AdaptiveSearch`, `HybridFusion`): deterministic top-k out of hash maps,
  reciprocal-rank fusion with the exact condition under which it is deterministic, and one hit per entry.

Where the code does not do what its documentation or a reader expects, the model follows the code, and a lemma gives
the input:

* The renderer's comment promises that any parsed document survives rendering and parsing. It does not: a bare value
  containing `\"` gains a backslash (`NomaiRoundTrip.ParsedNeedNotSurvive`). `NomaiRoundTrip.ParsedSurvivesExactly`
  says which parsed documents do, and `NomaiRoundTrip.RoundTripIsExact` says it of all documents.
* An append is documented to go after the existing blocks. When the last 32-bit ordinal is taken it wraps to 0
  (`BlockStore.AppendGoesFirst`); `BlockStore.NextOrdinalExceeds` gives the exact condition.
* When two rows of a merge were reinforced at one instant, the processing order can decide which query text is kept
  (`PrecisionOrder.TiedTimesKeepLastProcessed`, two orders the callers produce);
  `PrecisionOrder.RowsShowExactlyWhen` and `PrecisionOrder.OrderShowsExactlyWhen` give the exact condition.
* A cache hit can be older than the store although no bump is outstanding, for a lookup that loaded its generation
  before the bump (`SearchCaching.SlowLookupMayHitOldAnswer`); `SearchCaching.HitsCurrentExactlyWhen` gives the exact
  condition.
* With semantic weight zero the hash map's order can decide which entries a fused search reports
  (`HybridFusion.ZeroWeightShowsOrder`); `HybridFusion.FusionIsDeterministic` gives the exact condition under any
  rounding of the scores, and `HybridFusion.UnroundedFusion` in terms of weights and sizes when nothing is rounded.
* `rank_affinities` with limit 0 returns every hit (`AffinityRanking.ZeroLimitKeepsAll`).
* Two directory names that spell one id make the scan list it twice, and the passes then count it twice
  (`IndexSync.DoubledNameCountsTwice`).

`dafny verify dfyconfig.toml` checks everything.

## Model

| member | source | states |
|---|---|---|
| `PrecisionMerge.DegradeIsGroupBy` | crates/core/src/memory_service.rs:1367-1557 | Processed one by one in any order, precision updates leave exactly one row per target key: the aggregate of the rows that collapsed onto it (maximum count, latest time, earliest creation, text, dimension and vector of a latest example); keys stay unique and every update is counted |
| `PrecisionMerge.StepKeepsTrace` | crates/core/src/memory_service.rs:1367-1557 | One update settles one more row: settled rows keep standing for all members of their class, and the unique key holds after every single step |
| `PrecisionMerge.DegradeDropsExactly` | crates/core/src/memory_service.rs:1395-1557 | The returned number of deleted vectors is the exact drop in vector rows over the whole batch |
| `PrecisionMerge.MergeIsDetermined` | crates/core/src/memory_service.rs:1435-1538 | Two merges of one table under the same targets agree on every column of every row but its id, when the newest members of each class agree |
| `PrecisionMerge.OrderDoesNotMatter` | crates/core/src/memory_service.rs:1367-1557 | When the newest members of each class agree on example and vector, two processing orders of the same updates give the same rows and vectors up to the surviving ids |
| `PrecisionMerge.GroupsCompose` | crates/core/src/memory_service.rs:754-889 | A group-by of a group-by, as the two passes of a reconciliation make, is the group-by of the composed keys |
| `PrecisionMerge.MergeKeepsLaterExample` | crates/core/src/memory_service.rs:1435-1538 | Of two merged rows the later one, by reinforcement, then update, then id, leaves its example; its vector comes with it, or the other's when it has none, and no other vector changes |
| `PrecisionOrder.DistinctTimesAgree` | crates/core/src/memory_service.rs:1436-1440 | Reinforcement times that differ within every class make the newest members agree |
| `PrecisionOrder.EveryOrderPicks` | crates/core/src/memory_service.rs:1435-1477 | Whatever the order, a row that is left could survive (no other row held its target from the start) and carries one of its picks: a newest row with a greater id; failing that itself, if it is newest; failing that any newest row |
| `PrecisionOrder.OutcomeMet` | crates/core/src/memory_service.rs:1435-1477 | Every pick of every possible survivor is met by some order of the same updates |
| `PrecisionOrder.OrderShowsExactlyWhen` | crates/core/src/memory_service.rs:1367-1557 | When the rows whose example may be kept have their vectors (survivors and others may lack theirs), the processing order can be seen in rows or vectors, ids aside, if and only if two possible outcomes of one class differ in example or vector |
| `PrecisionOrder.RowsShowExactlyWhen` | crates/core/src/memory_service.rs:1367-1557 | For every table whose rows were last updated when last reinforced, with vectors or without, the processing order can be seen in the rows, ids aside, if and only if two possible outcomes of one class differ in their example |
| `PrecisionOrder.TiedTimesKeepLastProcessed` | crates/core/src/memory_service.rs:646-703 | On one consistent store, losing a block together with its chunk, and losing the chunk first and the block later, keep different query texts: two orders the callers do produce |
| `SignalOps.ReclassIsGroupBy` | crates/core/src/memory_service.rs:635-750 | The batch a degrade or reconcile call builds from the rows that must move is a group-by over their goals |
| `SignalOps.UpdatesSeparated` | crates/core/src/memory_service.rs:646-691 | No row such a batch moves already sits at a key the batch aims for, and no row is moved twice: the condition the group-by result needs |
| `SignalOps.MergeStaysCoherent` | crates/core/src/memory_service.rs:1435-1538 | A merge under any targets that keep the entry keeps uniqueness, receipt counts, bounds by the entry's stats, attainment of the stats' time and vector sizes |
| `SignalOps.DegradeBlockKeeps` | crates/core/src/memory_service.rs:635-710 | After a block goes no affinity names it or its chunks and no session result names it; the cross-table invariant holds |
| `SignalOps.DegradeChunksKeeps` | crates/core/src/memory_service.rs:712-750 | After chunks go no affinity and no session result names any of them; the cross-table invariant holds |
| `SignalOps.DegradeBlockExactly` | crates/core/src/memory_service.rs:635-710 | Losing a block groups the affinities by their keys without it: its own rows lose both columns, others only the chunks lost with it; session results likewise, with rank and every other row as they were, and no other table changes |
| `SignalOps.DegradeChunksExactly` | crates/core/src/memory_service.rs:712-750 | Losing chunks groups the affinities by their keys without those chunks, the block column as it was; session results lose exactly those chunks, and no other table changes |
| `SignalOps.LostBlockOnly` | crates/core/src/memory_service.rs:635-710 | Row by row: every affinity left is an old one under its key without the block and its chunks, and every old one is represented at such a key |
| `SignalOps.LostChunksOnly` | crates/core/src/memory_service.rs:712-737 | Row by row: every affinity left is an old one whose chunk went exactly when it was among the lost and whose block stayed, and every old one is represented at such a key |
| `Reconcile.DeleteEntriesKeeps` | crates/core/src/memory_service.rs:587-633 | Deleting entries keeps the invariant and leaves exactly the affinities and vectors of other entries |
| `Reconcile.DeleteEntriesTakesExactly` | crates/core/src/memory_service.rs:587-633 | Stats, receipts, results and affinities lose exactly the rows of the deleted entries, and every row left keeps its values; sessions stay |
| `Reconcile.ReconcileKeeps` | crates/core/src/memory_service.rs:754-889 | Reconciliation keeps the cross-table invariant |
| `Reconcile.ReconcileResolves` | crates/core/src/memory_service.rs:754-889 | Afterwards every block or chunk reference of an affinity or session result resolves to a live target of the row's own entry, and no vector is orphaned |
| `Reconcile.ReconcileCountsVectors` | crates/core/src/memory_service.rs:812-888 | The reported vector deletions equal the drop in vector rows, merges included |
| `Reconcile.ReconcileIsGroupBy` | crates/core/src/memory_service.rs:754-889 | Reconciliation groups the affinities of live entries by their live keys (a live block stays when only the chunk is stale, both go with a stale block) and sweeps the vectors without a row |
| `Reconcile.ReconcileKeepsLivePrecision` | crates/core/src/memory_service.rs:787-837 | Row by row: every affinity left is an old one of a live entry under its live key, and every old one of a live entry is represented there |
| `Reconcile.ReconcileReducesResults` | crates/core/src/memory_service.rs:839-864 | Session results of live entries stay, each with exactly what is live of its block and chunk, its rank as it was |
| `Reconcile.ReconcileSpares` | crates/core/src/memory_service.rs:757-784 | Sessions stay; stats and receipts of live entries stay with their values and all others go |
| `Reconcile.ReconcileCountsExactly` | crates/core/src/memory_service.rs:754-889 | Every counter is told from the tables before and after: the drops of stats, receipts, results, affinities and vectors, the results that changed, and the rows and keys whose precision was stale |
| `Reconcile.ResolvedIsFixedPoint` | crates/core/src/memory_service.rs:754-889 | Tables whose references already resolve are left alone and all counters are zero |
| `Reconcile.ReconcileTwice` | crates/core/src/memory_service.rs:754-889 | A second reconciliation changes nothing and returns all zeros |
| `Feedback.TriageSplits` | crates/core/src/memory_service.rs:451-469 | A request that validates splits in order into the targets without a receipt and those with one |
| `Feedback.SplitIsPartition` | crates/core/src/memory_service.rs:451-469 | Those two parts together are exactly the request |
| `Feedback.ValidExactly` | crates/core/src/memory_service.rs:1578-1682 | A target is valid if and only if its entry was returned and exists, a given block is the recorded one and the entry's own, and a given chunk is the recorded one in a block of the entry that is the given one if any; it is kept under the chunk's own block |
| `Feedback.AcceptedExactly` | crates/core/src/memory_service.rs:374-577 | A request is accepted if and only if it fits its session, every target without a receipt is justified as above, and the embedding fits the vector table whenever there is such a target |
| `Feedback.AcceptanceRecords` | crates/core/src/memory_service.rs:451-577 | Acceptance leaves every target that had no receipt a receipt and an affinity under its chunk and the block that chunk lies in, or the given block, with example, vector, counts and times; everything of every other entry stays |
| `Feedback.LoopRecords` | crates/core/src/memory_service.rs:470-569 | The loop succeeds on distinct entries without receipts, records every target and touches no other entry |
| `Feedback.RefusalsAreTrue` | crates/core/src/memory_service.rs:374-469 | Whatever reason a refusal gives holds of the request |
| `Feedback.ReinforceKeeps` | crates/core/src/memory_service.rs:470-569 | One reinforcement keeps the invariant and adds exactly one receipt |
| `Feedback.ReinforceRecords` | crates/core/src/memory_service.rs:470-569 | It records the session's example and vector under the target's key, with the count raised by one up to the cap, and changes no row of another key, no other vector and no other entry's stats |
| `Feedback.ReinforceAllKeeps` | crates/core/src/memory_service.rs:470-569 | The loop applies every target in order, each leaving its receipt, and keeps the invariant |
| `Feedback.SubmitKeeps` | crates/core/src/memory_service.rs:374-577 | An accepted request splits its targets into applied and already applied; every target then has a receipt and the tables are consistent |
| `Feedback.RetryChangesNothing` | crates/core/src/memory_service.rs:451-469 | A request whose targets all have receipts changes no table, whatever the content index says now |
| `Fingerprint.LittleEndianRoundTrip` | crates/core/src/memory_service.rs:1227-1245 | Fixed-width integers are read back from their little-endian bytes |
| `Fingerprint.RowCancels` | crates/core/src/memory_service.rs:1247-1266 | The bytes of one row determine the row and where the next row starts |
| `Fingerprint.PreimageIsInjective` | crates/core/src/memory_service.rs:1227-1266 | Two affinity tables that feed the hasher the same bytes are equal, whenever the values that occur in them fit their length prefixes and columns |
| `Fingerprint.SomeTableFits` | crates/core/src/memory_service.rs:1227-1266 | Spellings and nonempty tables that meet those conditions exist |
| `Reembedding.GroupingSummarises` | crates/core/src/memory_service.rs:1272-1331 | The grouping loop ends with one group per model-independent key, each the summary of exactly its rows, surviving in the latest by (time, update, id) |
| `Reembedding.GroupsPartition` | crates/core/src/memory_service.rs:1272-1331 | The member lists partition the rows |
| `Reembedding.CollectSucceeds` | crates/core/src/memory_service.rs:185-207 | Provided vectors are accepted exactly when ids are distinct and every vector is finite and of the requested dimension |
| `Reembedding.CommitMeansUnchanged` | crates/core/src/memory_service.rs:141-277 | Whatever happened between plan and replacement, a replacement commits only if the affinity rows equal the planned ones |
| `Reembedding.AnsweredPlanCommits` | crates/core/src/memory_service.rs:141-277 | A fully answered plan commits if and only if the rows are the planned ones and the vector table, when needed, has the new dimension |
| `Reembedding.PlanAsksLatest` | crates/core/src/memory_service.rs:141-165 | The plan sends the effective text of the latest row of every model-independent subject, each once, in id order |
| `Reembedding.OneInputPerSubject` | crates/core/src/memory_service.rs:141-165 | Exactly one input of the plan answers for the subject of any row |
| `Reembedding.CommitAnswersPlan` | crates/core/src/memory_service.rs:167-277 | After a commit the rows are exactly the planned ids, each with the effective text planned for it, the vector given for it and the new model and dimension |
| `Reembedding.DenialsAreTrue` | crates/core/src/memory_service.rs:167-231 | A replacement is denied only for a reason that holds |
| `SignalRuns.ConsistentPlansAskLatest` | crates/core/src/memory_service.rs:141-165 | Of every consistent store, so at any moment of a run, the plan asks for the latest row of every subject |
| `Reembedding.ReplacedCoalesces` | crates/core/src/memory_service.rs:233-276 | After a commit there is one row per model-independent key, all on the active model and dimension, each the summary of its group |
| `Reembedding.ReplacedVectors` | crates/core/src/memory_service.rs:233-276 | The vector table then holds exactly the provided vectors, one per remaining row, and each row left has its old key on the active model |
| `Reembedding.SurvivorAlone` | crates/core/src/memory_service.rs:234-262 | When a survivor is rewritten no other row has its key: no intermediate update violates the unique index |
| `Reembedding.MidwayEnds` | crates/core/src/memory_service.rs:233-276 | Rewriting group after group ends in the replaced tables |
| `SignalRuns.ReplaceKeeps` | crates/core/src/memory_service.rs:167-277 | A committed replacement keeps the invariant and coalesces the rows with exactly their vectors |
| `SignalRuns.StepKeepsConsistent` | crates/core/src/memory_service.rs:374-889 | Every operation, whenever enabled, keeps the cross-table invariant |
| `SignalRuns.RunsStayConsistent` | crates/core/src/memory_service.rs:374-889 | From the empty store every world of every run is consistent: stats exist exactly for entries with receipts and count them up to the cap, every affinity is within its entry's stats and some affinity attains their time, keys are unique, vectors belong to rows |
| `SignalRuns.ReceiptPersists` | crates/core/src/memory_service.rs:374-889 | Receipts survive every operation that spares their entry |
| `SignalRuns.SessionPersists` | crates/core/src/memory_service.rs:1685-1706 | Sessions survive unchanged every operation performed before they expire |
| `SignalRuns.AcceptedFeedbackIsIdempotent` | crates/core/src/memory_service.rs:374-577 | An accepted request repeated ungated before expiry, after any run sparing its entries, is accepted, reports every target as already applied and changes no signal table |
| `MemorySignals.MemorySignalsService.constructor` | crates/core/src/memory_service.rs:40-58 | Starts with empty tables, which satisfy the invariant |
| `MemorySignals.MemorySignalsService.MergeAffinity` | crates/core/src/memory_service.rs:1435-1538 | The merge statements leave the tables of the merge function and report the vector rows lost |
| `MemorySignals.MemorySignalsService.DegradeAffinityPrecision` | crates/core/src/memory_service.rs:1367-1557 | The update loop leaves the tables and counters of the folded specification |
| `MemorySignals.MemorySignalsService.DegradeBlockPrecision` | crates/core/src/memory_service.rs:635-710 | Leaves the specified tables, names the block and its chunks nowhere in the affinities, leaves every row under its old key less what was lost, and keeps the invariant |
| `MemorySignals.MemorySignalsService.DegradeChunkPrecision` | crates/core/src/memory_service.rs:712-750 | Leaves the specified tables, names the chunks nowhere in the affinities, leaves every row's block and every other chunk, and keeps the invariant |
| `MemorySignals.MemorySignalsService.DeleteEntriesSignals` | crates/core/src/memory_service.rs:587-633 | Leaves the tables without the entries' rows and keeps the invariant |
| `MemorySignals.MemorySignalsService.ReconcileContentReferences` | crates/core/src/memory_service.rs:754-889 | Leaves the reconciled tables, in which every reference resolves, returns their counts and keeps the invariant |
| `MemorySignals.MemorySignalsService.PurgeExpiredSessions` | crates/core/src/memory_service.rs:1685-1706 | Deletes the expired sessions first in order of expiry, creation and id, up to the limit, never the excepted one |
| `MemorySignals.MemorySignalsService.ApplyFeedback` | crates/core/src/memory_service.rs:374-577 | Ends in the tables of an accepted request after the purge, or with every table as it was on any refusal, the purge included |
| `MemorySignals.MemorySignalsService.CreateSearchSession` | crates/core/src/memory_service.rs:279-331 | Stores the session and every result as given, after the purge, if and only if the embedding is not empty and no entry repeats; otherwise every table is as it was |
| `MemorySignals.MemorySignalsService.EnsureVecQueryAffinities` | crates/core/src/memory_service.rs:67-120 | A new dimension empties the vector table and keeps the ordinary rows |
| `MemorySignals.MemorySignalsService.RemoveStaleAffinityVectors` | crates/core/src/memory_service.rs:123-139 | Afterwards the vectors are exactly the old ones of rows of the given model, unchanged; nothing else changes and the count is the drop |
| `MemorySignals.MemorySignalsService.GroupAffinities` | crates/core/src/memory_service.rs:1272-1331 | The loop over rows by id computes the grouping |
| `MemorySignals.MemorySignalsService.ListAffinitiesForReembedding` | crates/core/src/memory_service.rs:141-165 | Returns the survivors' inputs and the fingerprint of the rows they were read from |
| `MemorySignals.MemorySignalsService.UpdateAffinity` | crates/core/src/memory_service.rs:234-262 | One row update, allowed only when the unique key stays unique |
| `MemorySignals.MemorySignalsService.RewriteGroups` | crates/core/src/memory_service.rs:233-276 | Deletes members and rewrites survivors group by group, every update respecting the unique key |
| `MemorySignals.MemorySignalsService.ReplaceAffinityVectors` | crates/core/src/memory_service.rs:167-277 | Commits the replaced tables or returns the denial and leaves every table as it was |
| `NomaiText.EscapingIsExact` | crates/core/src/nomai_format.rs:430-456 | For every string, reading what escaping wrote gives it back if and only if it is written bare and equals its trim, or is quoted and every backslash run directly before a quote is even; reading never fails |
| `NomaiText.BareEscapedQuoteGainsBackslash` | crates/core/src/nomai_format.rs:430-456 | A bare value with an escaped quote reads as itself and does not survive writing |
| `NomaiText.TrimKeeps` | crates/core/src/nomai_format.rs:430-431 | Trimming changes nothing exactly when neither end is whitespace |
| `NomaiText.LinesReadBack` | crates/core/src/nomai_format.rs:125-125 | Lines without newlines are read back from their text, however many, less a final carriage return each |
| `NomaiText.PiecesSpell` | crates/core/src/nomai_format.rs:592-603 | Newline-terminated text is its pieces with their newlines |
| `NomaiGrammar.TrimIsCore` | crates/core/src/nomai_format.rs:431-431 | Trimming takes whitespace off both ends, all of it and nothing else |
| `NomaiGrammar.ValueLanguage` | crates/core/src/nomai_format.rs:430-456 | For every text, it reads as a value if and only if that is the trimmed text, when it does not begin with a quote, or what stands between its outer quotes with the backslash of every escaped quote gone and every other backslash kept |
| `NomaiGrammar.TokenLanguage` | crates/core/src/nomai_format.rs:382-417 | For every text, it scans as some tokens if and only if it is written as them: words of plain characters and closed quoted strings between stretches of whitespace, and perhaps a last word whose quote never closes |
| `NomaiFields.ScanningIsExact` | crates/core/src/nomai_format.rs:382-417 | For any list of attributes, scanning returns exactly the rendered tokens if and only if each scans by itself as one token and all but the last close their quotes |
| `NomaiFields.ScanningByCharacters` | crates/core/src/nomai_format.rs:382-417 | In characters, for arbitrary keys and values: scanning gives back the tokens written if and only if every token but the last is made of plain characters and closed quoted strings, whitespace only inside the quotes, and the last one is too or goes on in a quote that stays open |
| `NomaiFields.TokensByCharacters` | crates/core/src/nomai_format.rs:382-417 | A token closes exactly when it is made of plain characters and quoted strings whose inner quotes stand behind odd backslash runs; it stays whole exactly when it is that or goes on in an open quote |
| `NomaiFields.CleanTokens` | crates/core/src/nomai_format.rs:382-417 | Under a key without whitespace, quote or equals sign, a surviving value scans as one token when it is quoted or has no whitespace, and closes its quotes unless it is quoted and ends in an odd backslash run |
| `NomaiFields.TokenBecomes` | crates/core/src/nomai_format.rs:382-417 | Behind closed tokens the next one comes out as itself, cut at whitespace, or grown past the blank after it |
| `NomaiFields.SplitQuoted` | crates/core/src/nomai_format.rs:382-417 | Inside quotes, escaped text with even runs never closes the token |
| `NomaiTags.TagsAreExact` | crates/core/src/nomai_format.rs:459-501 | For every tag list, parsing its rendering gives it back if and only if quoted tags hold no backslash, the list is not one empty tag, and no plain tag brings whitespace to either end |
| `NomaiTags.BadTagDooms` | crates/core/src/nomai_format.rs:459-501 | A backslash in a quoted tag is never made up for by what follows: the reader ends short of text or with a tag gone wrong |
| `NomaiTags.TagLanguage` | crates/core/src/nomai_format.rs:458-501 | A trimmed tag line parses if and only if it is written as segments between commas, each of text outside quotes and closed quoted strings; the others end inside quotes |
| `NomaiTags.WrittenTagsRead` | crates/core/src/nomai_format.rs:458-501 | Any line of written segments reads as their tags: the parts in order, what came before a quote dropped when it is all whitespace, a backslash in quotes standing for the character behind it |
| `NomaiTags.SegmentTags` | crates/core/src/nomai_format.rs:484-492 | A plain segment's tag is its text with its blanks; a quoted one's is its content, whatever whitespace stood before the quote |
| `NomaiAttrs.InsertIsMapUpdate` | crates/core/src/nomai_format.rs:213-221 | Inserting an attribute updates the map the entries stand for and keeps key order |
| `NomaiAttrs.AttrsReadBack` | crates/core/src/nomai_format.rs:353-377 | The tokens of a sorted attribute list parse back to it |
| `NomaiAttrs.FromTight` | crates/core/src/nomai_format.rs:353-377 | When parsing loses no letter no token was overwritten: each stands in the map with its key and value |
| `NomaiAttrs.AttrsAreExact` | crates/core/src/nomai_format.rs:353-417 | For every attribute list, its block-line text parses back to it if and only if keys are sorted and hold no equals sign, values are strings that survive by themselves, and the tokens scan |
| `NomaiReading.LinesSpell` | crates/core/src/nomai_format.rs:125-125 | Any text is its lines with what ends them: a newline, or a carriage return and a newline; only the last line may have nothing behind it |
| `NomaiReading.NumberLanguage` | crates/core/src/nomai_format.rs:152-158 | A version reads as a number exactly when it is digits, behind at most one plus sign, of a value below 2^32 |
| `NomaiReading.TokensAnswer` | crates/core/src/nomai_format.rs:353-377 | Any tokens read as the attribute map of the keys they give, each with the value its last token gives it, or as the complaint about the first token that gives none |
| `NomaiReading.HeaderAnswers` | crates/core/src/nomai_format.rs:127-227 | Any header lines read as a header whose every field is what the last line with its key says, own keys alike, or as the complaint, with its line number, about the first line that is neither blank nor sets a key to a value that fits |
| `NomaiReading.BlockLineAnswers` | crates/core/src/nomai_format.rs:261-287 | Any block line is a kind's name up to whitespace and its attributes; an unknown name, the first bad attribute, a connection's missing target and then its missing relation are reported in this order |
| `NomaiReading.BodyAnswers` | crates/core/src/nomai_format.rs:289-317 | Any body is its lines up to the last that is not blank, each ended by a newline, an escaped at sign at a line's start losing its backslash and everything else kept |
| `NomaiRoundTrip.BlockPhaseAnswers` | crates/core/src/nomai_format.rs:249-324 | Any lines of the block phase are block lines with their bodies up to the next at sign; they give their blocks in order, or the error of the first block line that fails, read where it stands |
| `NomaiReading.ParseAnswers` | crates/core/src/nomai_format.rs:111-337 | What any input parses to: the complaint about the first bad header line, else the first required key that is missing with the version checked before the rest, else the block phase's error, else the document of the header's last settings and the blocks |
| `NomaiRoundTrip.BlockHeadIsExact` | crates/core/src/nomai_format.rs:265-287 | A rendered block line parses to its type and attributes, connections included, exactly when its attributes come back |
| `NomaiRoundTrip.BodyIsExact` | crates/core/src/nomai_format.rs:289-317 | A rendered body of whole lines, also with the separating blank line behind it, parses back to its text if and only if no line starts with an escaped at sign or ends in a carriage return |
| `NomaiRoundTrip.HeaderLinesFeed` | crates/core/src/nomai_format.rs:127-231 | The rendered header lines parse to an error for tags that do not parse, and otherwise to every value as it rereads |
| `NomaiRoundTrip.HeaderIsExact` | crates/core/src/nomai_format.rs:127-231 | That is the header itself exactly when title, source, attribute values and tags survive |
| `NomaiRoundTrip.BlocksSplit` | crates/core/src/nomai_format.rs:249-324 | The block phase splits its lines back into the blocks they were written from, errors included |
| `NomaiRoundTrip.BlocksAreExact` | crates/core/src/nomai_format.rs:249-324 | Rendered blocks, any number of them, parse back to the blocks if and only if each does |
| `NomaiShape.ParsedShape` | crates/core/src/nomai_format.rs:111-337 | Every parsed document has version 1, header values and tags on one line, sorted string attributes under keys of its own, connections with target and relation, and bodies of whole lines with the last not blank |
| `NomaiRoundTrip.RenderedParsesTo` | crates/core/src/nomai_format.rs:505-545 | When tags parse and blocks come back, the rendering parses to the document with its header values reread |
| `NomaiRoundTrip.RoundTripIsExact` | crates/core/src/nomai_format.rs:505-545 | For every document, parsing its rendering gives it back if and only if it is well-formed |
| `NomaiRoundTrip.ParsedSurvivesExactly` | crates/core/src/nomai_format.rs:505-509 | A parsed document survives rendering and parsing if and only if its header values, tags, block attributes and body lines each do |
| `NomaiRoundTrip.ParsedNeedNotSurvive` | crates/core/src/nomai_format.rs:505-509 | A parsed document that rendering and parsing again changes: the documented claim is too broad |
| `NomaiLoops.UnescapeValue` | crates/core/src/nomai_format.rs:430-456 | The character loop computes the unescaped value |
| `NomaiLoops.SplitAttrTokens` | crates/core/src/nomai_format.rs:382-417 | The scanner loop computes the tokens |
| `NomaiLoops.ParseBlockAttrs` | crates/core/src/nomai_format.rs:353-377 | The token loop computes the attributes or the first error |
| `NomaiLoops.ParseTagList` | crates/core/src/nomai_format.rs:459-501 | The tag loop computes the list, or nothing for an unterminated quote |
| `NomaiLoops.RenderBlockBody` | crates/core/src/nomai_format.rs:592-603 | The body loop writes the escaped lines |
| `NomaiLoops.RenderDocument` | crates/core/src/nomai_format.rs:510-545 | The renderer writes exactly the document's lines |
| `NomaiLoops.ReadHeader` | crates/core/src/nomai_format.rs:127-231 | The header loop computes the header phase, errors with their line numbers |
| `NomaiLoops.TakeBody` | crates/core/src/nomai_format.rs:289-302 | Collects exactly the lines before the next block line |
| `NomaiLoops.FinishBody` | crates/core/src/nomai_format.rs:296-317 | Unescapes, drops trailing blank lines and joins |
| `NomaiLoops.ReadBlocks` | crates/core/src/nomai_format.rs:249-324 | The block loop computes the block phase, errors with their line numbers |
| `NomaiLoops.ParseDocument` | crates/core/src/nomai_format.rs:111-337 | The parser computes the document or the first error |
| `Chunking.ChunksBounded` | crates/core/src/chunking.rs:19-113 | For every text and target no chunk is empty and each is at most the target in bytes or one wider character |
| `Chunking.ChunksConserve` | crates/core/src/chunking.rs:19-113 | The chunks concatenated keep, in order, every character but newline and space |
| `Chunking.HardSplitHolds` | crates/core/src/chunking.rs:100-113 | A hard cut loses nothing |
| `Chunking.PackingIsOptimal` | crates/core/src/chunking.rs:29-45 | When every paragraph fits the target and the text does not, no in-order grouping of the nonempty paragraphs that fits has fewer groups than there are chunks |
| `Chunking.PackingIsAGrouping` | crates/core/src/chunking.rs:29-45 | The chunks are such a grouping joined by blank lines: the minimum is attained |
| `Chunking.GreedyNotBehind` | crates/core/src/chunking.rs:29-45 | At every prefix the packer has begun no more chunks than the grouping, and with as many holds no more bytes in the open one |
| `ChunkPacking.SentencesAre` | crates/core/src/chunking.rs:82-97 | The sentences of any text are the pieces that rejoin to it with one space, all but the last ending in a period and none containing a period and a space, less an empty last one |
| `ChunkPacking.SentenceSplitIsUnique` | crates/core/src/chunking.rs:82-97 | No other pieces rejoin to the text in this way |
| `ChunkPacking.ParagraphsAre` | crates/core/src/chunking.rs:29-31 | The paragraphs of any text rejoin to it with blank lines and contain none |
| `ChunkPacking.HardSplitIsFull` | crates/core/src/chunking.rs:99-113 | A hard cut loses nothing and each of its pieces but the last is as long as the target allows |
| `ChunkPacking.NoFewerChunks` | crates/core/src/chunking.rs:19-113 | For every text above the target, no admissible in-order grouping of its paragraphs, sentences and cuts has fewer groups than there are chunks |
| `ChunkPacking.ChunksAreGroups` | crates/core/src/chunking.rs:19-113 | The chunks are such a grouping: the minimum is attained for every text |
| `ChunkPacking.OnlyLongSentencesAreCut` | crates/core/src/chunking.rs:46-74 | Whatever the text, what is packed is a whole paragraph that fits, a whole sentence that fits, or a cut of a sentence above the target |
| `ChunkPacking.SentencesPackOptimally` | crates/core/src/chunking.rs:46-74 | For a paragraph above the target whose sentences all fit, no fitting in-order grouping of its sentences joined by one space has fewer groups than there are chunks |
| `ChunkPacking.ChunksAreSentences` | crates/core/src/chunking.rs:46-74 | The chunks of such a paragraph are such a grouping |
| `Chunking.SplitSentences` | crates/core/src/chunking.rs:82-97 | The index loop finds the sentences |
| `Chunking.SplitHard` | crates/core/src/chunking.rs:100-113 | The character loop makes the hard cuts |
| `Chunking.PackSentences` | crates/core/src/chunking.rs:46-74 | The sentence loop of an oversized paragraph |
| `Chunking.SplitText` | crates/core/src/chunking.rs:19-79 | The paragraph loop computes the chunks |
| `BlockStore.CreateKeeps` | crates/core/src/block_service.rs:81-178 | A created block is stored with exactly the chunks of its text; every other block and its chunks stay as they were |
| `BlockStore.UpdateKeeps` | crates/core/src/block_service.rs:286-392 | After an update the chunks are those of the current text, untouched when the text is; every other block and its chunks stay as they were |
| `BlockStore.DeleteKeeps` | crates/core/src/block_service.rs:481-514 | Deleting a block takes it and exactly its chunks; everything else stays as it was and the tables sound |
| `BlockStore.DeleteEntryKeeps` | crates/core/migrations/V8__per_block_fts_and_chunks.sql:30-40 | The cascade from an entry removes its blocks and their chunks; everything else stays as it was and the tables sound |
| `BlockStore.CreateStores` | crates/core/src/block_service.rs:81-178 | A block is created if and only if its attributes are an object and its entry exists with the ordinal free, and is stored with the entry, ordinal, kind, text and attributes given; its chunks carry its kind and attributes |
| `BlockStore.UpdateStores` | crates/core/src/block_service.rs:286-392 | An update succeeds if and only if the block exists and the attributes are an object, replaces exactly the columns given, and marks new chunks with the new kind and attributes |
| `BlockStore.NextOrdinalIs` | crates/core/src/block_service.rs:234-241 | The next ordinal is 0 for an entry without blocks and else the one behind its last block's, or 0 behind the last 32-bit ordinal |
| `BlockStore.AppendStores` | crates/core/src/block_service.rs:210-254 | An appended block is stored as given at the next ordinal |
| `BlockStore.RunsStaySound` | crates/core/src/block_service.rs:81-514 | At every moment of every run each live block's chunks are its text split, with ordinals 0 to n-1, and block ordinals are unique within an entry |
| `BlockStore.NextOrdinalExceeds` | crates/core/src/block_service.rs:234-241 | The ordinal an append computes exceeds every live one if and only if the last 32-bit ordinal is not in use; otherwise it is 0 |
| `BlockStore.AppendOutcome` | crates/core/src/block_service.rs:210-254 | An append past the last ordinal is refused exactly when ordinal 0 is in use, and otherwise puts the block first |
| `BlockStore.AppendGoesFirst` | crates/core/src/block_service.rs:234-241 | A reachable entry on which an append puts its block before the one already there |
| `BlockStore.AppendedListsLast` | crates/core/src/block_service.rs:210-254 | Short of that, listing after an append shows what it showed before and then the new block |
| `BlockStore.BlockService.CreateInTx` | crates/core/src/block_service.rs:81-178 | Computes the specified tables or the validation error, and keeps the invariant |
| `BlockStore.BlockService.AppendInTx` | crates/core/src/block_service.rs:210-254 | Computes the specified tables or the error, and keeps the invariant |
| `BlockStore.BlockService.UpdateInTx` | crates/core/src/block_service.rs:286-392 | Computes the specified tables or the error, and keeps the invariant |
| `BlockStore.BlockService.DeleteInTx` | crates/core/src/block_service.rs:481-514 | Computes the specified tables or the error, and returns the block as it was |
| `BlockStore.BlockService.InsertPieces` | crates/core/src/block_service.rs:134-152 | The insert loop stores one row per piece in order |
| `IndexSync.SyncRefinesRebuild` | crates/core/src/service.rs:977-1226 | A pass that succeeds leaves exactly the index a rebuild makes if and only if every row it skipped for its time was derived from its file |
| `IndexSync.SyncedRows` | crates/core/src/service.rs:977-1086 | After a successful pass only scanned ids are left, each as its case demands |
| `IndexSync.CountersAddUp` | crates/core/src/service.rs:977-1086 | The four counters add up to the scanned directories plus the rows without one, and the reindexed list has one id per added or updated entry |
| `IndexSync.SyncSucceedsExactly` | crates/core/src/service.rs:977-1086 | A pass succeeds if and only if every scanned file without a row, or with a row of another time, can be indexed |
| `IndexSync.SyncLeaves` | crates/core/src/service.rs:977-1086 | A pass that succeeds keeps the rows with their file's time, derives all other files' rows afresh, and leaves no row without a scanned directory and a file |
| `IndexSync.SyncCountsExactly` | crates/core/src/service.rs:977-1086 | Each counter is the number of directories of its kind: no row but a file, a row of another time, a row but no file, neither; rows without a directory are removed too, and the reindexed list names the first two kinds in order |
| `IndexSync.VerifyCountsExactly` | crates/core/src/service.rs:1088-1168 | For any index, stale counts exactly the scanned rows whose stored time differs from the file's, and each other counter exactly its kind |
| `IndexSync.RebuildCountsExactly` | crates/core/src/service.rs:1185-1226 | A rebuild counts the directories it indexes and lists the others in order |
| `IndexSync.DoubledNameCountsTwice` | crates/core/src/service.rs:977-1086 | Two directory names that spell one id give one row, counted as added twice |
| `IndexSync.SecondSyncIsQuiet` | crates/core/src/service.rs:977-1086 | An immediate second pass succeeds, changes nothing and counts everything as unchanged |
| `IndexSync.VerifyAfterSync` | crates/core/src/service.rs:1106-1168 | The comparison then reports nothing stale or orphaned, and as on disk alone exactly the directories without a file |
| `IndexSync.UnstampedRowsLookConsistent` | crates/core/src/service.rs:1095-1101 | A row without a stored time is consistent to the comparison and refreshed by the pass |
| `IndexSync.RebuildIsFresh` | crates/core/src/service.rs:1185-1226 | A rebuild leaves exactly the scanned entries whose files can be indexed, freshly derived |
| `IndexService.BlocksKeepOrder` | crates/core/src/service.rs:941-950 | Block i of a file becomes the row with ordinal i, its text without trailing newlines, split into its chunks |
| `IndexService.EntryService.ReindexOne` | crates/core/src/service.rs:896-963 | Replaces the entry's row, or changes nothing when the file cannot be read, parsed or stored |
| `IndexService.EntryService.InsertBlocks` | crates/core/src/service.rs:941-950 | The block loop stores the derived rows, or stops at the first refused |
| `IndexService.EntryService.SyncFromFs` | crates/core/src/service.rs:977-1086 | Ends as the specified pass; a failure leaves the earlier mutations and returns no counts |
| `IndexService.EntryService.Sweep` | crates/core/src/service.rs:1065-1077 | Deletes exactly the rows whose directory is gone, whatever order the rows come in |
| `IndexService.EntryService.VerifyFs` | crates/core/src/service.rs:1106-1168 | Counts the four kinds of drift |
| `IndexService.EntryService.RebuildIndex` | crates/core/src/service.rs:1185-1226 | Wipes and reindexes, listing the entries that failed |
| `Channels.RunsDeliverExactlyOnce` | crates/core/src/channel_service.rs:54-243 | At every moment of every run: every message ever sent is live or purged, and each subscription was handed, in ascending order, messages of its channel up to exactly its cursor, with no live one at or below it missing |
| `Channels.OnceOrPurged` | crates/core/src/channel_service.rs:130-141 | A sent message at or below the cursor was handed out exactly once or purged before that, and is never handed out again |
| `Channels.NeverReused` | crates/core/src/channel_service.rs:54-93 | A send takes a number above every number ever used, purged ones included |
| `Channels.SubscriptionMonotone` | crates/core/src/channel_service.rs:311-338 | Without an unsubscribe the cursor never goes back, what was handed out only grows, and sent messages never change |
| `Channels.CursorTrailsIffPending` | crates/core/src/channel_service.rs:157-163 | After a subscriber read the cursor trails the latest number exactly when something is undelivered |
| `Channels.ReadsDrain` | crates/core/src/channel_service.rs:104-164 | With nothing sent or purged, n pending messages are drained, in order, by ceil(n / limit) reads and by no fewer |
| `Channels.ReadsHandOut` | crates/core/src/channel_service.rs:247-266 | After any number of reads exactly the first so many pending messages have been handed out and the rest are pending |
| `Channels.PageHasNoGap` | crates/core/src/channel_service.rs:247-266 | A page reaches from the old position to its last message without leaving one out |
| `Channels.TailIsNewest` | crates/core/src/channel_service.rs:269-299 | A read without a position gives the newest messages, ascending, as many as asked for; all others are older, and its cursor is the latest number |
| `Channels.ReadSinceHandsOut` | crates/core/src/channel_service.rs:142-146 | A read from a position hands out the first messages of the channel above it, as sent, ascending, at most the limit and with no gap; its cursor is the last one's number, or 0 |
| `Channels.ReadAsHandsOut` | crates/core/src/channel_service.rs:130-141 | A subscriber's read does the same from its cursor, moves that cursor to the last message and no other |
| `Channels.RecvServesExactly` | crates/core/src/channel_service.rs:104-164 | Which reads are served, and what each of the three kinds hands out and moves |
| `Channels.SendAcceptsExactly` | crates/core/src/channel_service.rs:54-66 | A send is accepted if and only if the names are 1 to 128 bytes, the text is not empty, the attributes are an object and there is a number left |
| `Channels.SentIsReadBack` | crates/core/src/channel_service.rs:54-93 | The channel's newest message is then the one sent, with its text, sender, attributes and the next number; every other message reads as before |
| `Channels.UnsubscribeStartsOver` | crates/core/src/channel_service.rs:234-243 | After an unsubscribe the next read starts from the first live message of the channel, delivered before or not |
| `Channels.ChannelService.Append` | crates/core/src/channel_service.rs:54-93 | Appends the row under the next number, or reports the validation or storage error and changes nothing |
| `Channels.ChannelService.Receive` | crates/core/src/channel_service.rs:104-164 | Serves the three modes, moving a cursor only for a subscriber read that returned something |
| `Channels.ChannelService.Collect` | crates/core/src/channel_service.rs:247-266 | Copies the selected rows out in order |
| `Channels.ChannelService.PurgeBefore` | crates/core/src/channel_service.rs:211-226 | Afterwards the log holds exactly the other channels' messages and the channel's from the bound on, unchanged; the count is the drop, and cursors and numbering stay |
| `Channels.ChannelService.EndSubscription` | crates/core/src/channel_service.rs:234-243 | The subscriber's next page starts from the channel's beginning; messages and every other subscription stay |
| `SearchCaching.RunsStayFresh` | crates/daemon/src/search_cache.rs:142-227 | In every interleaving, until the 64-bit counter wraps, every cached and every in-flight answer is at least as new as the store was when its generation was published |
| `SearchCaching.HitEqualsFreshCompute` | crates/daemon/src/search_cache.rs:200-218 | When no mutation awaits its bump, a hit under the current generation is what a compute would answer now |
| `SearchCaching.HitsCurrentExactlyWhen` | crates/daemon/src/search_cache.rs:186-218 | Over all runs with one log of mutations and bumps, hits of a lookup are sure to be current if and only if nothing changed since the bump it was born at |
| `SearchCaching.OldHitExists` | crates/daemon/src/search_cache.rs:186-218 | For every log and every bump in it, a run with that log has a lookup born at that bump hit that bump's answer |
| `SearchCaching.LookupsLinearize` | crates/daemon/src/search_cache.rs:186-227 | A lookup's answer is the store's answer at some version within the lookup's own lifetime, save for mutations still awaiting their bump when it began |
| `SearchCaching.SlowLookupMayHitOldAnswer` | crates/daemon/src/search_cache.rs:200-218 | A run in which a lookup that loaded its generation before a bump hits an older answer although nothing awaits: why the current generation is needed |
| `SearchCaching.OnlyAnswersStored` | crates/daemon/src/search_cache.rs:220-226 | An entry appears only by storing a computed answer; a failed compute stores nothing |
| `SearchCaching.RunsStayTallied` | crates/daemon/src/search_cache.rs:245-257 | Hit and miss totals equal the sums over the RPCs plus the lookups between their two increments |
| `SearchCaching.CountersCountLookups` | crates/daemon/src/search_cache.rs:245-257 | Over any run each counter of an RPC is the number of its own lookups that hit, or that missed |
| `SearchCaching.SearchCache.BumpGeneration` | crates/daemon/src/search_cache.rs:142-144 | Until the counter wraps no lookup of the new generation finds anything; the entries stay |
| `SearchCaching.SearchCache.ClearAll` | crates/daemon/src/search_cache.rs:161-165 | Afterwards every lookup misses, whatever generation it loaded; the count is what was cached, and generation and counters stay |
| `SearchCaching.SearchCache.Find` | crates/daemon/src/search_cache.rs:210-220 | Finds exactly what is cached under the key and counts the lookup once, in total and under its own RPC, as the hit or miss it was |
| `SearchCaching.SearchCache.BumpCounter` | crates/daemon/src/search_cache.rs:245-257 | One more lookup in all, and each total keeps its distance to the sum over the RPCs |
| `SearchCaching.SearchCache.Settle` | crates/daemon/src/search_cache.rs:220-227 | A kept answer is what the next lookup of its key finds and no other key finds anything else; an error changes nothing |
| `AffinityRanking.RankingIsBruteForce` | crates/core/src/memory_service.rs:1110-1159 | For a positive limit the hits are the best eligible candidate of each entry, sorted by confidence, similarity, entry and affinity id, cut off at the limit |
| `AffinityRanking.ZeroLimitKeepsAll` | crates/core/src/memory_service.rs:1137-1159 | With limit 0 they are not cut off at all |
| `AffinityRanking.RankingIgnoresRowOrder` | crates/core/src/memory_service.rs:1110-1159 | The hits do not depend on the order rows arrive in |
| `AffinityRanking.HitsAreStrongest` | crates/core/src/memory_service.rs:1110-1159 | The hits are those of the strongest row at or above the threshold of each entry, strongest first, told without the ranking's own functions; every other such row has one of its entry ahead of it, or the limit is reached by rows ahead of it |
| `AffinityRanking.ConfidenceRises` | crates/core/src/memory_model.rs:124-155 | Confidence rises with similarity, decay and factor; it is 0 at the threshold, and decay times factor from similarity 1 on |
| `AffinityRanking.HitsDescend` | crates/core/src/memory_service.rs:1137-1159 | Hits have ranks 1 to n, one per entry, with confidences and scores that never rise |
| `AffinityRanking.SelectionPicksChosen` | crates/core/src/memory_service.rs:1075-1108 | The selection lists, unchanged and in order, exactly the required hits and the first k others |
| `AffinityRanking.SelectionCountsOthers` | crates/core/src/memory_service.rs:1094-1107 | It holds min(k, all) hits of entries not required |
| `AffinityRanking.MemoryRanking.Rank` | crates/core/src/memory_service.rs:1110-1159 | The filter loop, the sort and the deduplicating loop compute the ranking |
| `AffinityRanking.MemoryRanking.TakeHits` | crates/core/src/memory_service.rs:1137-1159 | The loop with its set of seen entries stops at the limit |
| `AffinityRanking.MemoryRanking.WithRequired` | crates/core/src/memory_service.rs:1075-1108 | The counting filter computes the selection |
| `Ranking.SortSorts` | crates/core/src/memory_service.rs:1129-1135 | Sorting by the total order is strictly ordered and keeps exactly the members |
| `Ranking.SortDetermined` | crates/core/src/memory_service.rs:1129-1135 | Lists with the same members sort to the same list |
| `AdaptiveSearch.WalkOrderDoesNotMatter` | crates/daemon/src/adaptive_search.rs:77-110 | In whatever order the candidate map is walked, sorting gives the same list |
| `AdaptiveSearch.RankedIsTopK` | crates/daemon/src/adaptive_search.rs:77-112 | The output holds each candidate at most once, strictly ordered by score, fusion score and id, as many as the limit allows; what is cut off ranks after all of it |
| `AdaptiveSearch.InputOrderDoesNotMatter` | crates/daemon/src/adaptive_search.rs:20-114 | Neither the order of a base list with distinct entries nor that of the affinities changes the output |
| `AdaptiveSearch.ScoresAreMaxima` | crates/daemon/src/adaptive_search.rs:29-39 | An entry scores with its maximum affinity, attained by one of its hits |
| `AdaptiveSearch.SupplementsAdmitted` | crates/daemon/src/adaptive_search.rs:54-76 | Base candidates stay; admitted supplements lie outside base, are backed by an affinity, have fusion score 0, number at most the limit, and fewer only when no eligible one is left |
| `AdaptiveSearch.BaseHolds` | crates/daemon/src/adaptive_search.rs:41-52 | With distinct entries every readable base item is a candidate, with its own fusion score |
| `AdaptiveSearch.BaseKeepsFirst` | crates/daemon/src/adaptive_search.rs:41-52 | Of any base list every entry offered is a candidate, by its first item, with that item's fusion score or 0 |
| `AdaptiveSearch.SupplementsInOrder` | crates/daemon/src/adaptive_search.rs:54-76 | Supplements come in by their first offer with fusion score 0, and none that is backed by an affinity is passed over for a later one |
| `AdaptiveSearch.ResultsExplained` | crates/daemon/src/adaptive_search.rs:77-110 | Every result's score is its own fusion score plus its entry's greatest affinity, times the entry's signal factor, halved for a transient entry; the affinity, factor and signal reported are those |
| `AdaptiveSearch.TransientYields` | crates/daemon/src/adaptive_search.rs:84-90 | Of two candidates alike but for one being transient, the other ranks first if and only if the score is positive, or 0 and its id smaller |
| `AdaptiveSearch.FactorsDecide` | crates/daemon/src/adaptive_search.rs:84-90 | Of two candidates alike but for the factor, the greater one's ranks first if and only if the sum is positive, or 0 and its id smaller |
| `AdaptiveSearch.BestHits` | crates/daemon/src/adaptive_search.rs:29-39 | The map loop keeps a best hit per entry |
| `AdaptiveSearch.Gather` | crates/daemon/src/adaptive_search.rs:41-76 | The two candidate loops build the pool, stopping at the supplement limit |
| `AdaptiveSearch.Walk` | crates/daemon/src/adaptive_search.rs:77-102 | Fusing the map's values in an arbitrary order and sorting gives the ranked list |
| `AdaptiveSearch.FuseCandidates` | crates/daemon/src/adaptive_search.rs:20-114 | The whole function computes the specified result |
| `HybridFusion.FusionIsDeterministic` | crates/core/src/service.rs:328-374 | For all lists, weights and roundings, the fused result is independent of the hash map's order if and only if every tie between candidates is cut off: at least as many candidates rank before it as the result has room for |
| `HybridFusion.UnroundedFusion` | crates/core/src/service.rs:328-374 | In exact arithmetic and for lists naming an entry once, that is if and only if the semantic weight is not zero, or at most one entry is outside the full-text list, or the cut comes before the first of those |
| `HybridFusion.DeterminedIffUntied` | crates/core/src/service.rs:360-373 | For all lists, weights and roundings, the map's order stays invisible exactly when nothing in the result ties with another candidate on score and full-text rank |
| `HybridFusion.TiesExactly` | crates/core/src/service.rs:349-371 | Whatever the rounding of portions and sums, two entries of lists naming an entry once tie exactly when both are outside the full-text list and their rounded portions are equal |
| `HybridFusion.TiesAreRuns` | crates/core/src/service.rs:355-371 | Under a monotone rounding and a weight that is not negative, whoever stands between two tied entries in the semantic list ties with both |
| `HybridFusion.SemanticScoresFall` | crates/core/src/service.rs:355-358 | Under a monotone rounding, entries outside the full-text list never score better than those before them in the semantic list |
| `HybridFusion.ZeroWeightShowsOrder` | crates/core/src/service.rs:360-373 | Two lists and weights for which, whatever the rounding, the map's order decides who is reported |
| `HybridFusion.ResultIsTopN` | crates/core/src/service.rs:328-374 | Whatever the order, the result reports candidates once each, in order and with their scores, as many as the cut allows, and nothing cut ranks before anything reported |
| `HybridFusion.SummedIsPortion` | crates/core/src/service.rs:349-358 | A list that names an entry once adds the rounded portion of its rank to its score, one that does not name it adds nothing |
| `HybridFusion.ScoreIsEarned` | crates/core/src/service.rs:349-358 | A score is 0, plus the rounded weight over 60 plus position in the full-text list, plus the same for the semantic list, a list that lacks the entry adding nothing |
| `HybridFusion.ResultIsOrdered` | crates/core/src/service.rs:360-373 | No result has a lower score than a later or a left out candidate, nor an equal one when the full-text list names that one first or alone |
| `HybridFusion.HitSumsItsRows` | crates/core/src/service.rs:1793-1826 | A hit sums up exactly the readable rows of its entry: all counted, the first 64 listed in order, the first one's block, kind and text shown, its rank's magnitude the score |
| `HybridFusion.HitsFollowRows` | crates/core/src/service.rs:1793-1826 | Every entry with a readable row has a hit, and hits come in the order of their entries' first such rows |
| `HybridFusion.RrfFuse` | crates/core/src/service.rs:328-374 | The accumulating loops and the sort give the outcome of some order of the map |
| `HybridFusion.EveryRowIsCounted` | crates/core/src/service.rs:1793-1826 | Every readable row is counted in exactly one entry's hit, however many hits the limit lets through |
| `HybridFusion.HitScoresFall` | crates/core/src/service.rs:1793-1826 | Over rows best first, hits come with scores that never rise |
| `HybridFusion.HitsFeedFusion` | crates/core/src/service.rs:1793-1826 | Hits name each entry once and are as many as the limit allows |
| `HybridFusion.DedupeHits` | crates/core/src/service.rs:1793-1826 | The loop over rows and the map gives one hit per entry, in order of first rows, cut at the limit |

## Left out

- Reembedding.PlanAsksLatest: for tables whose rows were updated when last reinforced and whose counts are within the persisted cap, which every consistent store's are (SignalRuns.ConsistentPlansAskLatest).
- HybridFusion.ScoreIsEarned: for lists that name an entry once, as both retrievers give them.
- SQLite itself, vec0 nearest-neighbour search, FTS5 and bm25, JSON and ULID generation: tables are finite maps, a transaction is one atomic step, new ids are a parameter that must be new and distinct.
- Floating-point rounding and NaN ordering: scores are reals; the exponential of the decay is an input between 0 and 1; an embedding component is a finite or non-finite opaque value.
- blake3: a fingerprint is the bytes fed to it and cache keys are the questions themselves; that equal hashes mean equal inputs is not proved.
- RFC 3339 and ULID text codecs: parameters that must read back what they write; ids are numbers ordered like their text, instants are integers.
- Query normalisation and hashing: the normalised query hash is a column of the session; texts the signal tables only compare are numbers.
- The feedback cap is fixed over a run; lowering it between runs, and counts already above it, are not modelled.
- SignalRuns.RunsStayConsistent: benchmark fixtures, entry memory signals and transient purge are not operations of a run.
- Chunk attributes after a block update that changes only type or attributes: the code does not refresh them, so agreement is claimed for text and ordinals.
- Chunking.SplitSentences: indices count characters where the code's count bytes; the two characters it looks for are single bytes, so the cuts agree.
- Integer widths of row numbers, counters and versions other than the 32-bit ordinals, the 64-bit generation and the largest row id.
- SearchCaching.RunsStayFresh: claimed until the 64-bit generation wraps; after 2^64 bumps an old key could be found again.
- Hash collisions of the truncated filter hashes in cache keys, and statistics snapshots.
- Listing of channels, wall-clock columns of cursors and messages, and event emission everywhere.
- Races between reading a file and its modification time: the disk does not change during one pass; every file has a readable time.
- Links during reindex and rebuild, embeddings of reindexed chunks, and the audit events.
- The reasons inside parse errors: an error is its kind, line and field; a byte-order mark and the JSON display of non-string attributes (taken as a given text).
- PrecisionMerge.OrderDoesNotMatter: a convenient condition, sufficient only; the exact one is PrecisionOrder.OrderShowsExactlyWhen.
- PrecisionOrder.OrderShowsExactlyWhen: for tables whose rows were last updated when last reinforced; which vector a row is left with when the row whose example it keeps has none is not characterised (PrecisionOrder.RowsShowExactlyWhen covers the rows of such tables).
- HybridFusion.TiesExactly: for full-text lists shorter than the 32-bit rank that stands for a missing entry.
- HybridFusion.FusionIsDeterministic: roundings are arbitrary functions on reals; infinite and undefined scores are not modelled.
- The daemon's own deduplication of semantic hits (it sorts on the score alone, so equal scores take map order), affinity lookup in SQL, benchmark visibility filters, attachments and atomic file writes.
- Conversations, links, events, snippet building, daemon configuration, RPC mapping, sockets and providers.
