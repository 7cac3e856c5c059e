/**
 * Whole runs of the signal store: every transaction, interleaved with arbitrary changes of the content
 * index and with the clock moving forward, keeps the tables consistent.
 */
module SignalRuns {
  import opened Prelude
  import opened SignalTables
  import opened PrecisionMerge
  import opened SignalOps
  import opened Reconcile
  import opened Feedback
  import opened Fingerprint
  import opened Reembedding

  const PURGE_BATCH: nat := 100

  datatype World = World(store: Store, content: Content, now: Time)

  datatype Op =
    | Tick(now: Time)
    | ChangeContent(content: Content)
    | CreateSession(sid: Id, session: Session, results: map<Id, SessionResult>, purged: set<Id>)
    | PurgeSessions(limit: nat, purged: set<Id>)
    | GiveFeedback(search: Id, targets: seq<Target>, gate: Option<(Text, nat)>, newIds: seq<Id>, purged: set<Id>)
    | RemoveEntries(entries: set<Id>)
    | LoseBlock(block: Id, chunks: set<Id>)
    | LoseChunks(chunks: set<Id>)
    | ReconcileAll
    | ReplaceVectors(model: Text, dim: nat, fingerprint: Bytes, vectors: seq<(Id, Vector)>)
    | EnsureVectors(dim: nat)
    | RemoveStale(model: Text)

  /** What the environment guarantees of each step: time moves on, new ids are new, a purge takes the oldest. */
  ghost predicate Enabled(w: World, op: Op) {
    match op
    case Tick(now) => w.now <= now
    case ChangeContent(c) => WellLinked(c)
    case CreateSession(sid, session, results, purged) =>
      sid !in w.store.sessions && PurgeChoice(w.store.sessions, w.now, PURGE_BATCH, None, purged)
    case PurgeSessions(limit, purged) => PurgeChoice(w.store.sessions, w.now, limit, None, purged)
    case GiveFeedback(search, targets, gate, newIds, purged) =>
      && |newIds| >= |targets| && FreshIds(w.store, newIds)
      && PurgeChoice(w.store.sessions, w.now, PURGE_BATCH, Some(search), purged)
    case _ => true
  }

  function WithSession(s: Store, sid: Id, session: Session, results: map<Id, SessionResult>): Store {
    s.(sessions := s.sessions[sid := session],
       results := map k | k in s.results.Keys + (set e | e in results :: (sid, e)) ::
                    if k.0 == sid && k.1 in results then results[k.1] else s.results[k])
  }

  /** Recreating the vector table for another dimension drops every vector and keeps the rows. */
  function EnsureVectorTable(s: Store, dim: nat): Store {
    if dim == 0 || dim == s.vecDim then s else s.(vectors := map[], vecDim := dim)
  }

  function RemoveStaleVectors(s: Store, model: Text): Store {
    s.(vectors := map i | i in s.vectors && i in s.affinities && s.affinities[i].key.model == model :: s.vectors[i])
  }

  /** One transaction; a refused one leaves the whole store as it was. */
  ghost function Perform(s: Store, content: Content, now: Time, cap: nat, sp: Spelling, op: Op): Store
    requires Enabled(World(s, content, now), op)
  {
    match op
    case Tick(_) => s
    case ChangeContent(_) => s
    case CreateSession(sid, session, results, purged) => WithSession(DropSessions(s, purged), sid, session, results)
    case PurgeSessions(_, purged) => DropSessions(s, purged)
    case GiveFeedback(search, targets, gate, newIds, purged) =>
      (match Submit(DropSessions(s, purged), content, now, cap, search, targets, gate, newIds)
       case Ok((s', _)) => s'
       case Err(_) => s)
    case RemoveEntries(entries) => DeleteEntries(s, entries)
    case LoseBlock(block, chunks) => DegradeBlock(s, block, chunks)
    case LoseChunks(chunks) => DegradeChunks(s, chunks)
    case ReconcileAll => Reconciled(s, content)
    case ReplaceVectors(model, dim, fingerprint, vectors) =>
      (match Replace(s, sp, model, dim, fingerprint, vectors)
       case Ok(s') => s'
       case Err(_) => s)
    case EnsureVectors(dim) => EnsureVectorTable(s, dim)
    case RemoveStale(model) => RemoveStaleVectors(s, model)
  }

  ghost function Next(w: World, cap: nat, sp: Spelling, op: Op): World
    requires Enabled(w, op)
  {
    World(Perform(w.store, w.content, w.now, cap, sp, op),
          if op.ChangeContent? then op.content else w.content,
          if op.Tick? then op.now else w.now)
  }

  /** `ws` is a run: each world follows from the one before by an enabled operation. */
  ghost predicate Run(ws: seq<World>, ops: seq<Op>, cap: nat, sp: Spelling) {
    && |ws| == |ops| + 1
    && forall i :: 0 <= i < |ops| ==> Enabled(ws[i], ops[i]) && ws[i + 1] == Next(ws[i], cap, sp, ops[i])
  }

  const EMPTY_STORE := Store(map[], map[], map[], map[], map[], map[], 0)

  // ---- Every step keeps the tables consistent ----

  lemma {:induction false} CoalescedWithinStats(rows: map<Id, Affinity>, stats: map<Id, Stats>, out: map<Id, Affinity>, model: Text, dim: nat)
    requires AllWithinStats(rows, stats) && Coalesced(rows, out, model, dim)
    ensures AllWithinStats(out, stats) && UniqueKeys(out)
  {
    forall i | i in out
      ensures WithinStats(out[i], stats)
    {
      assert Summary(rows, i, out[i]) && WithinStats(rows[i], stats);
      var j :| j in rows && GroupKeyOf(rows[j].key) == GroupKeyOf(out[i].key) && rows[j].count == out[i].count;
      var d :| d in rows && GroupKeyOf(rows[d].key) == GroupKeyOf(out[i].key) && rows[d].created == out[i].created;
      assert WithinStats(rows[j], stats) && WithinStats(rows[d], stats) && NoNewer(rows[d], d, rows[i], i);
    }
  }

  lemma {:induction false} CoalescedAttained(rows: map<Id, Affinity>, stats: map<Id, Stats>, out: map<Id, Affinity>, model: Text, dim: nat)
    requires AllWithinStats(rows, stats) && StatsAttained(rows, stats) && Coalesced(rows, out, model, dim)
    ensures StatsAttained(out, stats)
  {
    forall e | e in stats
      ensures exists i :: Attains(out, i, e, stats[e].last)
    {
      var i :| Attains(rows, i, e, stats[e].last);
      assert Represents(out, rows, i);
      var j :| j in out && GroupKeyOf(out[j].key) == GroupKeyOf(rows[i].key);
      assert Summary(rows, j, out[j]) && NoNewer(rows[i], i, rows[j], j) && WithinStats(rows[j], stats);
      assert Attains(out, j, e, stats[e].last);
    }
  }

  lemma {:induction false} ConsistentRowsGroup(s: Store, cap: nat, now: Time)
    requires Consistent(s, cap, now) && cap <= MAX_PERSISTED_REINFORCEMENTS
    ensures SingleClock(s.affinities) && Capped(s.affinities)
  {
    forall i | i in s.affinities
      ensures s.affinities[i].updated == s.affinities[i].last && s.affinities[i].count <= MAX_PERSISTED_REINFORCEMENTS
    {
      assert WithinStats(s.affinities[i], s.stats);
    }
  }

  /** The plan of any consistent store asks for the latest row of every subject: what PlanAsksLatest needs always holds. */
  lemma {:induction false} ConsistentPlansAskLatest(s: Store, cap: nat, now: Time, sp: Spelling)
    requires Consistent(s, cap, now) && cap <= MAX_PERSISTED_REINFORCEMENTS
    ensures AsksLatest(s.affinities, PlanOf(s, sp).inputs)
  {
    ConsistentRowsGroup(s, cap, now);
    PlanAsksLatest(s, sp);
  }

  lemma {:induction false} ReplacedKeeps(s: Store, model: Text, dim: nat, byId: map<Id, Vector>, cap: nat, now: Time)
    requires Consistent(s, cap, now) && cap <= MAX_PERSISTED_REINFORCEMENTS
    requires byId.Keys == Survivors(AllGroups(s.affinities)) && (s.affinities != map[] ==> dim == s.vecDim)
    requires forall i :: i in byId ==> |byId[i]| == dim
    ensures var s' := Replaced(s, model, dim, byId);
      && Consistent(s', cap, now)
      && Coalesced(s.affinities, s'.affinities, model, dim)
      && s'.vectors.Keys == s'.affinities.Keys
  {
    ConsistentRowsGroup(s, cap, now);
    ReplacedVectors(s, model, dim, byId);
    ReplacedCoalesces(s, model, dim, byId);
    CoalescedKeeps(s, Replaced(s, model, dim, byId), model, dim, cap, now);
  }

  /** Main result: a committed replacement keeps the tables consistent and coalesces the rows, with exactly their vectors. */
  lemma {:induction false} ReplaceKeeps(s: Store, sp: Spelling, model: Text, dim: nat, fingerprint: Bytes, vectors: seq<(Id, Vector)>,
                                        cap: nat, now: Time)
    requires Consistent(s, cap, now) && cap <= MAX_PERSISTED_REINFORCEMENTS
    requires Replace(s, sp, model, dim, fingerprint, vectors).Ok?
    ensures var s' := Replace(s, sp, model, dim, fingerprint, vectors).value;
      && Consistent(s', cap, now)
      && Coalesced(s.affinities, s'.affinities, model, dim)
      && s'.vectors.Keys == s'.affinities.Keys
      && s'.receipts == s.receipts && s'.stats == s.stats && s'.sessions == s.sessions && s'.results == s.results
  {
    var byId := Collect(vectors, dim).value;
    CollectSucceeds(vectors, dim);
    assert Replace(s, sp, model, dim, fingerprint, vectors).value == Replaced(s, model, dim, byId);
    assert byId.Keys == Survivors(AllGroups(s.affinities));
    ReplacedKeeps(s, model, dim, byId, cap, now);
  }

  lemma {:induction false} CoalescedKeeps(s: Store, s': Store, model: Text, dim: nat, cap: nat, now: Time)
    requires Consistent(s, cap, now) && Coalesced(s.affinities, s'.affinities, model, dim)
    requires s' == s.(affinities := s'.affinities, vectors := s'.vectors)
    requires s'.vectors.Keys == s'.affinities.Keys && VectorsSized(s'.affinities, s'.vectors, s'.vecDim)
    ensures Consistent(s', cap, now)
  {
    CoalescedWithinStats(s.affinities, s.stats, s'.affinities, model, dim);
    CoalescedAttained(s.affinities, s.stats, s'.affinities, model, dim);
  }

  lemma {:induction false} SessionOpsKeep(s: Store, cap: nat, now: Time, sid: Id, session: Session, results: map<Id, SessionResult>)
    requires Consistent(s, cap, now) && sid !in s.sessions
    ensures Consistent(WithSession(s, sid, session, results), cap, now)
  {
  }

  lemma {:induction false} VectorOpsKeep(s: Store, cap: nat, now: Time, dim: nat, model: Text)
    requires Consistent(s, cap, now)
    ensures Consistent(EnsureVectorTable(s, dim), cap, now) && Consistent(RemoveStaleVectors(s, model), cap, now)
  {
  }

  lemma {:induction false} FeedbackKeeps(s: Store, c: Content, now: Time, cap: nat, sp: Spelling, op: Op)
    requires Consistent(s, cap, now) && 1 <= cap && op.GiveFeedback? && Enabled(World(s, c, now), op)
    ensures Consistent(Perform(s, c, now, cap, sp, op), cap, now)
  {
    var base := DropSessions(s, op.purged);
    DropSessionsKeeps(s, op.purged, cap, now);
    if Submit(base, c, now, cap, op.search, op.targets, op.gate, op.newIds).Ok? {
      SubmitKeeps(base, c, now, cap, op.search, op.targets, op.gate, op.newIds);
    }
  }

  /** Main result: every operation keeps the cross-table invariant, at any time it is enabled. */
  lemma {:induction false} StepKeepsConsistent(w: World, cap: nat, sp: Spelling, op: Op)
    requires Consistent(w.store, cap, w.now) && 1 <= cap <= MAX_PERSISTED_REINFORCEMENTS && Enabled(w, op)
    ensures Consistent(Next(w, cap, sp, op).store, cap, Next(w, cap, sp, op).now)
  {
    var s, now := w.store, w.now;
    match op
    case Tick(later) => ConsistentLater(s, cap, now, later);
    case ChangeContent(_) =>
    case CreateSession(sid, session, results, purged) =>
      DropSessionsKeeps(s, purged, cap, now);
      SessionOpsKeep(DropSessions(s, purged), cap, now, sid, session, results);
    case PurgeSessions(_, purged) => DropSessionsKeeps(s, purged, cap, now);
    case GiveFeedback(_, _, _, _, _) => FeedbackKeeps(s, w.content, now, cap, sp, op);
    case RemoveEntries(entries) => DeleteEntriesKeeps(s, entries, cap, now);
    case LoseBlock(block, chunks) => DegradeBlockKeeps(s, cap, now, block, chunks);
    case LoseChunks(chunks) => DegradeChunksKeeps(s, cap, now, chunks);
    case ReconcileAll => ReconcileKeeps(s, w.content, cap, now);
    case ReplaceVectors(model, dim, fingerprint, vectors) =>
      if Replace(s, sp, model, dim, fingerprint, vectors).Ok? {
        ReplaceKeeps(s, sp, model, dim, fingerprint, vectors, cap, now);
      }
    case EnsureVectors(dim) => VectorOpsKeep(s, cap, now, dim, 0);
    case RemoveStale(model) => VectorOpsKeep(s, cap, now, 0, model);
  }

  lemma {:induction false} EmptyIsConsistent(cap: nat, now: Time)
    ensures Consistent(EMPTY_STORE, cap, now)
  {
  }

  /** Main result: from the empty store, every world of every run satisfies the cross-table invariant. */
  lemma {:induction false} RunsStayConsistent(ws: seq<World>, ops: seq<Op>, cap: nat, sp: Spelling, k: nat)
    requires Run(ws, ops, cap, sp) && ws[0].store == EMPTY_STORE && 1 <= cap <= MAX_PERSISTED_REINFORCEMENTS
    requires k < |ws|
    ensures Consistent(ws[k].store, cap, ws[k].now)
  {
    if k == 0 {
      EmptyIsConsistent(cap, ws[0].now);
    } else {
      RunsStayConsistent(ws, ops, cap, sp, k - 1);
      StepKeepsConsistent(ws[k - 1], cap, sp, ops[k - 1]);
    }
  }

  // ---- Accepted feedback stays accepted ----

  /** The operation does not delete entry `e`'s signals. */
  ghost predicate Spares(w: World, op: Op, e: Id) {
    && !(op.RemoveEntries? && e in op.entries)
    && (op.ReconcileAll? ==> e in w.content.entries)
  }

  lemma {:induction false} SubmitKeepsReceipts(s: Store, c: Content, now: Time, cap: nat, sid: Id, ts: seq<Target>,
                                               gate: Option<(Text, nat)>, newIds: seq<Id>)
    requires |newIds| >= |ts| && Submit(s, c, now, cap, sid, ts, gate, newIds).Ok?
    ensures var s' := Submit(s, c, now, cap, sid, ts, gate, newIds).value.0;
      s.receipts.Keys <= s'.receipts.Keys && s'.sessions == s.sessions
  {
    TriageShrinks(s, c, sid, ts);
    ReinforceAllGrows(s, sid, s.sessions[sid], Triage(s, c, sid, ts).value.novel, now, cap, newIds);
  }

  lemma {:induction false} ReinforceAllGrows(s: Store, sid: Id, ses: Session, ts: seq<Target>, now: Time, cap: nat, newIds: seq<Id>)
    requires |newIds| >= |ts| && ReinforceAll(s, sid, ses, ts, now, cap, newIds).Ok?
    ensures var s' := ReinforceAll(s, sid, ses, ts, now, cap, newIds).value.0;
      s.receipts.Keys <= s'.receipts.Keys && s'.sessions == s.sessions
    decreases |ts|
  {
    if ts != [] {
      var s1 := if (sid, ts[0].entry) in s.receipts then s else Reinforce(s, sid, ses, ts[0], now, cap, newIds[0]);
      ReinforceAllGrows(s1, sid, ses, ts[1..], now, cap, newIds[1..]);
    }
  }

  /** Receipts survive every operation that spares their entry. */
  lemma {:induction false} ReceiptPersists(w: World, cap: nat, sp: Spelling, op: Op, sid: Id, e: Id)
    requires Enabled(w, op) && (sid, e) in w.store.receipts && Spares(w, op, e)
    ensures (sid, e) in Next(w, cap, sp, op).store.receipts
  {
    if op.GiveFeedback? {
      var base := DropSessions(w.store, op.purged);
      if Submit(base, w.content, w.now, cap, op.search, op.targets, op.gate, op.newIds).Ok? {
        SubmitKeepsReceipts(base, w.content, w.now, cap, op.search, op.targets, op.gate, op.newIds);
      }
    }
  }

  /** Sessions survive, unchanged, every operation performed before they expire. */
  lemma {:induction false} SessionPersists(w: World, cap: nat, sp: Spelling, op: Op, sid: Id)
    requires Enabled(w, op) && sid in w.store.sessions && w.now < w.store.sessions[sid].expires
    ensures var s' := Next(w, cap, sp, op).store; sid in s'.sessions && s'.sessions[sid] == w.store.sessions[sid]
  {
    if op.GiveFeedback? {
      var base := DropSessions(w.store, op.purged);
      if Submit(base, w.content, w.now, cap, op.search, op.targets, op.gate, op.newIds).Ok? {
        SubmitKeepsReceipts(base, w.content, w.now, cap, op.search, op.targets, op.gate, op.newIds);
      }
    }
  }

  ghost predicate StillRetriable(w: World, search: Id, session: Session, targets: seq<Target>) {
    && search in w.store.sessions && w.store.sessions[search] == session
    && forall t :: t in targets ==> (search, t.entry) in w.store.receipts
  }

  ghost predicate SparesAll(w: World, op: Op, targets: seq<Target>) {
    forall t :: t in targets ==> Spares(w, op, t.entry)
  }

  lemma {:induction false} ClockRuns(ws: seq<World>, ops: seq<Op>, cap: nat, sp: Spelling, i: nat, j: nat)
    requires Run(ws, ops, cap, sp) && i <= j < |ws|
    ensures ws[i].now <= ws[j].now
  {
    if i < j {
      ClockRuns(ws, ops, cap, sp, i, j - 1);
      RunStep(ws, ops, cap, sp, j - 1);
    }
  }

  lemma {:induction false} RetriableStep(w: World, cap: nat, sp: Spelling, op: Op, search: Id, session: Session, targets: seq<Target>)
    requires Enabled(w, op) && StillRetriable(w, search, session, targets) && w.now < session.expires && SparesAll(w, op, targets)
    ensures StillRetriable(Next(w, cap, sp, op), search, session, targets)
  {
    SessionPersists(w, cap, sp, op, search);
    forall t | t in targets
      ensures (search, t.entry) in Next(w, cap, sp, op).store.receipts
    {
      ReceiptPersists(w, cap, sp, op, search, t.entry);
    }
  }

  lemma {:induction false} RunStep(ws: seq<World>, ops: seq<Op>, cap: nat, sp: Spelling, k: nat)
    requires Run(ws, ops, cap, sp) && k < |ops|
    ensures Enabled(ws[k], ops[k]) && ws[k + 1] == Next(ws[k], cap, sp, ops[k])
  {
  }

  lemma {:induction false} RetriableAcrossRun(ws: seq<World>, ops: seq<Op>, cap: nat, sp: Spelling, i: nat, j: nat,
                                              search: Id, session: Session, targets: seq<Target>)
    requires Run(ws, ops, cap, sp) && i <= j < |ws| && StillRetriable(ws[i], search, session, targets)
    requires forall k :: i <= k < j ==> ws[k].now < session.expires && SparesAll(ws[k], ops[k], targets)
    ensures StillRetriable(ws[j], search, session, targets)
    decreases j - i
  {
    if i < j {
      RunStep(ws, ops, cap, sp, i);
      RetriableStep(ws[i], cap, sp, ops[i], search, session, targets);
      RetriableAcrossRun(ws, ops, cap, sp, i + 1, j, search, session, targets);
    }
  }

  /** The step accepted the request. */
  ghost predicate AcceptedAt(w: World, cap: nat, op: Op)
    requires op.GiveFeedback? && Enabled(w, op)
  {
    Submit(DropSessions(w.store, op.purged), w.content, w.now, cap, op.search, op.targets, op.gate, op.newIds).Ok?
  }

  lemma {:induction false} AcceptedIsRetriable(w: World, cap: nat, sp: Spelling, op: Op)
    requires op.GiveFeedback? && Enabled(w, op) && AcceptedAt(w, cap, op)
    requires Consistent(w.store, cap, w.now) && 1 <= cap <= MAX_PERSISTED_REINFORCEMENTS
    ensures op.search in w.store.sessions && op.targets != [] && !Repeats(op.targets)
    ensures StillRetriable(Next(w, cap, sp, op), op.search, w.store.sessions[op.search], op.targets)
  {
    var base := DropSessions(w.store, op.purged);
    DropSessionsKeeps(w.store, op.purged, cap, w.now);
    SubmitKeeps(base, w.content, w.now, cap, op.search, op.targets, op.gate, op.newIds);
    forall t | t in op.targets
      ensures t.entry in Entries(op.targets)
    {
      var k :| 0 <= k < |op.targets| && op.targets[k] == t;
      EntriesAt(op.targets, k);
    }
  }

  /** An ungated request with receipts for all its targets is accepted again and only purges sessions. */
  lemma {:induction false} RetryAccepted(w: World, cap: nat, retry: Op, session: Session)
    requires retry.GiveFeedback? && Enabled(w, retry) && retry.gate.None? && retry.targets != [] && !Repeats(retry.targets)
    requires StillRetriable(w, retry.search, session, retry.targets) && w.now < session.expires
    ensures var base := DropSessions(w.store, retry.purged);
      && Submit(base, w.content, w.now, cap, retry.search, retry.targets, retry.gate, retry.newIds)
         == Ok((base, Accepted([], Entries(retry.targets))))
      && base.receipts == w.store.receipts && base.stats == w.store.stats
      && base.affinities == w.store.affinities && base.vectors == w.store.vectors
  {
    RetryChangesNothing(DropSessions(w.store, retry.purged), w.content, w.now, cap,
                        retry.search, retry.targets, retry.gate, retry.newIds);
  }

  /**
   * Main result: an accepted request, repeated ungated before its session expires and after any run that
   * spares its entries, is accepted again, reports every target as already applied, and changes no signal table.
   */
  lemma {:induction false} AcceptedFeedbackIsIdempotent(ws: seq<World>, ops: seq<Op>, cap: nat, sp: Spelling, i: nat, j: nat, retry: Op)
    requires Run(ws, ops, cap, sp) && i < j < |ws| && ws[0].store == EMPTY_STORE && 1 <= cap <= MAX_PERSISTED_REINFORCEMENTS
    requires ops[i].GiveFeedback? && AcceptedAt(ws[i], cap, ops[i])
    requires forall k :: i < k < j ==> SparesAll(ws[k], ops[k], ops[i].targets)
    requires retry.GiveFeedback? && retry.search == ops[i].search && retry.targets == ops[i].targets && retry.gate.None?
    requires Enabled(ws[j], retry)
    ensures ops[i].search in ws[i].store.sessions
    ensures ws[j].now < ws[i].store.sessions[ops[i].search].expires ==>
      var base := DropSessions(ws[j].store, retry.purged);
      && Submit(base, ws[j].content, ws[j].now, cap, retry.search, retry.targets, retry.gate, retry.newIds)
         == Ok((base, Accepted([], Entries(retry.targets))))
      && base.receipts == ws[j].store.receipts && base.stats == ws[j].store.stats
      && base.affinities == ws[j].store.affinities && base.vectors == ws[j].store.vectors
  {
    RunsStayConsistent(ws, ops, cap, sp, i);
    AcceptedIsRetriable(ws[i], cap, sp, ops[i]);
    var session := ws[i].store.sessions[ops[i].search];
    if ws[j].now < session.expires {
      forall k | i < k < j
        ensures ws[k].now <= ws[j].now
      {
        ClockRuns(ws, ops, cap, sp, k, j);
      }
      RetriableAcrossRun(ws, ops, cap, sp, i + 1, j, retry.search, session, retry.targets);
      RetryAccepted(ws[j], cap, retry, session);
    }
  }
}
