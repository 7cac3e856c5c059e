/**
 * The signal service itself. Every method runs under the connection mutex, so a method is one atomic step
 * on the database; a transaction that is refused leaves the database as it was.
 */
module MemorySignals {
  import opened Prelude
  import opened SignalTables
  import opened PrecisionMerge
  import opened SignalOps
  import opened Reconcile
  import opened Feedback
  import opened Fingerprint
  import opened Reembedding
  import opened SignalRuns

  class MemorySignalsService {
    const cap: nat
    var db: Store

    /** The policy's cap range, and the cross-table invariant. */
    ghost predicate Valid(now: Time)
      reads this
    {
      1 <= cap <= MAX_PERSISTED_REINFORCEMENTS && Consistent(db, cap, now)
    }

    constructor (maxReinforcements: nat)
      requires 1 <= maxReinforcements <= MAX_PERSISTED_REINFORCEMENTS
      ensures cap == maxReinforcements && db == EMPTY_STORE
      ensures forall now :: Valid(now)
    {
      cap, db := maxReinforcements, EMPTY_STORE;
      new;
      forall now: Time
        ensures Valid(now)
      {
        EmptyIsConsistent(cap, now);
      }
    }

    // ---- Precision ----

    /** Folds the degraded row into the survivor, statement by statement. */
    method MergeAffinity(id: Id, sid: Id) returns (dropped: nat)
      requires id in db.affinities && sid in db.affinities && id != sid
      modifies this
      ensures db == WithIndex(old(db), MergeInto(IndexOf(old(db)), id, sid))
      ensures dropped == Dropped(old(db).vectors, id, sid)
    {
      var state, survivor := db.affinities[id], db.affinities[sid];
      var merged := MergeVectors(IsLatest(id, state, sid, survivor), VectorOf(db.vectors, id), VectorOf(db.vectors, sid));
      dropped := Dropped(db.vectors, id, sid);
      db := db.(affinities := db.affinities[sid := MergeRows(id, state, sid, survivor)]);
      db := db.(vectors := db.vectors - {sid, id});
      db := db.(affinities := db.affinities - {id});
      if merged.Some? {
        db := db.(vectors := db.vectors[sid := merged.value]);
      }
    }

    /** Moves one row to its target, or merges it into the target's occupant. */
    method DegradeOne(u: Update) returns (degraded: nat, dropped: nat)
      requires UniqueKeys(db.affinities)
      modifies this
      ensures var out := Step(IndexOf(old(db)), u);
        db == WithIndex(old(db), out.index) && degraded == out.degraded && dropped == out.dropped
      ensures UniqueKeys(db.affinities)
    {
      StepKeepsUnique(IndexOf(db), u);
      if u.id !in db.affinities {
        return 0, 0;
      }
      var target := Retarget(db.affinities[u.id].key, u);
      if sid: Id :| sid in db.affinities && sid != u.id && db.affinities[sid].key == target {
        OccupantIs(db.affinities, u.id, target, sid);
        dropped := MergeAffinity(u.id, sid);
      } else {
        NoOccupant(db.affinities, u.id, target);
        db := db.(affinities := db.affinities[u.id := db.affinities[u.id].(key := target)]);
        dropped := 0;
      }
      degraded := 1;
    }

    method DegradeAffinityPrecision(us: seq<Update>) returns (degraded: nat, dropped: nat)
      requires UniqueKeys(db.affinities)
      modifies this
      ensures var out := Degrade(IndexOf(old(db)), us);
        db == WithIndex(old(db), out.index) && degraded == out.degraded && dropped == out.dropped
      ensures UniqueKeys(db.affinities)
    {
      degraded, dropped := 0, 0;
      var n := 0;
      while n < |us|
        invariant 0 <= n <= |us| && UniqueKeys(db.affinities) && db == WithIndex(old(db), IndexOf(db))
        invariant var rest := Degrade(IndexOf(db), us[n..]);
          Degrade(IndexOf(old(db)), us) == Outcome(rest.index, degraded + rest.degraded, dropped + rest.dropped)
      {
        assert us[n..][0] == us[n] && us[n..][1..] == us[n + 1..];
        var one, lost := DegradeOne(us[n]);
        degraded, dropped, n := degraded + one, dropped + lost, n + 1;
      }
      assert us[n..] == [];
    }

    method DegradeBlockPrecision(ghost now: Time, block: Id, chunkIds: seq<Id>)
      requires Valid(now)
      modifies this
      ensures db == DegradeBlock(old(db), block, set k | k in chunkIds) && Valid(now)
      ensures forall i :: i in db.affinities ==>
        db.affinities[i].key.block != Some(block) && !NamesChunk(db.affinities[i].key, set k | k in chunkIds)
      ensures forall i :: i in db.affinities ==>
        i in old(db).affinities && db.affinities[i].key == KeyWithoutBlock(old(db).affinities[i].key, block, set k | k in chunkIds)
    {
      var chunks := set k | k in chunkIds;
      DegradeBlockKeeps(db, cap, now, block, chunks);
      LostBlockOnly(db, block, chunks);
      BlockOrderLists(db.affinities, block, chunks);
      var _, _ := DegradeAffinityPrecision(UpdatesFor(db.affinities, BlockOrder(db.affinities, block, chunks), AwayFromBlock(block, chunks)));
      db := db.(results := map k | k in db.results :: AwayFromBlockResult(db.results[k], block, chunks));
    }

    method DegradeChunkPrecision(ghost now: Time, chunkIds: seq<Id>)
      requires Valid(now)
      modifies this
      ensures db == DegradeChunks(old(db), set k | k in chunkIds) && Valid(now)
      ensures forall i :: i in db.affinities ==> !NamesChunk(db.affinities[i].key, set k | k in chunkIds)
      ensures forall i :: i in db.affinities ==>
        i in old(db).affinities && db.affinities[i].key == KeyWithoutChunks(old(db).affinities[i].key, set k | k in chunkIds)
    {
      var g := AwayFromChunks(set k | k in chunkIds);
      DegradeChunksKeeps(db, cap, now, g.chunks);
      LostChunksOnly(db, g.chunks);
      AscendingLists(db.affinities, g);
      var _, _ := DegradeAffinityPrecision(UpdatesFor(db.affinities, Ascending(Moved(db.affinities, g)), g));
      db := db.(results := map k | k in db.results :: AwayFromChunksResult(db.results[k], g.chunks));
    }

    // ---- Deletion and reconciliation ----

    method DeleteEntriesSignals(ghost now: Time, entryIds: seq<Id>)
      requires Valid(now)
      modifies this
      ensures db == DeleteEntries(old(db), set e | e in entryIds) && Valid(now)
    {
      DeleteEntriesKeeps(db, (set e | e in entryIds), cap, now);
      var kept := NotIn(set e | e in entryIds);
      db := db.(vectors := VectorsBeside(db.vectors, db.affinities, kept));
      db := db.(affinities := KeptRows(db.affinities, kept));
      db := db.(stats := KeptStats(db.stats, kept));
      db := db.(receipts := KeptPairs(db.receipts, kept));
      db := db.(results := KeptPairs(db.results, kept));
    }

    /** One degrade pass over all rows that `g` moves, in id order. */
    method DegradePass(g: Clearing) returns (degraded: nat, dropped: nat)
      requires UniqueKeys(db.affinities)
      modifies this
      ensures var out := Pass(old(db), g);
        db == WithIndex(old(db), out.index) && degraded == out.degraded && dropped == out.dropped
      ensures UniqueKeys(db.affinities)
    {
      AscendingLists(db.affinities, g);
      degraded, dropped := DegradeAffinityPrecision(UpdatesFor(db.affinities, Ascending(Moved(db.affinities, g)), g));
    }

    method ReconcileContentReferences(ghost now: Time, c: Content) returns (counts: Counts)
      requires Valid(now)
      modifies this
      ensures db == Reconciled(old(db), c) && Valid(now) && AllResolve(db, c)
      ensures counts == ReconcileCounts(old(db), c)
    {
      ReconcileKeeps(db, c, cap, now);
      ReconcileResolves(db, c);
      var before, kept := db, Among(c.entries);
      db := db.(stats := KeptStats(db.stats, kept));
      db := db.(receipts := KeptPairs(db.receipts, kept));
      db := db.(results := KeptPairs(db.results, kept));
      db := db.(affinities := KeptRows(db.affinities, kept));
      var live := db;
      var byBlock, lostToBlocks := DegradePass(ToLiveBlock(c));
      var byChunk, lostToChunks := DegradePass(ToLiveChunk(c));
      var staleBlocks := |StaleBlockResults(c, db.results)|;
      db := db.(results := LiveBlockResults(c, db.results));
      var staleChunks := |StaleChunkResults(c, db.results)|;
      db := db.(results := LiveChunkResults(c, db.results));
      var orphans := |db.vectors| - |Swept(IndexOf(db))|;
      db := db.(vectors := Swept(IndexOf(db)));
      counts := Counts(|before.stats| - |live.stats|, |before.affinities| - |live.affinities|,
                       |before.receipts| - |live.receipts|, |before.results| - |live.results|,
                       byBlock + byChunk, staleBlocks + staleChunks, lostToBlocks + lostToChunks + orphans);
    }

    // ---- Sessions and feedback ----

    /** Deletes up to `limit` expired sessions, oldest first, and with them their results. */
    method PurgeExpiredSessions(now: Time, limit: nat, except: Option<Id>) returns (purged: set<Id>)
      requires Valid(now)
      modifies this
      ensures PurgeChoice(old(db).sessions, now, limit, except, purged)
      ensures db == DropSessions(old(db), purged) && Valid(now)
      ensures forall i :: i in purged ==> i in old(db).sessions && old(db).sessions[i].expires <= now && except != Some(i)
      ensures forall i :: i in db.sessions <==> i in old(db).sessions && i !in purged
      ensures forall k :: k in db.results <==> k in old(db).results && k.0 !in purged
      ensures db.affinities == old(db).affinities && db.vectors == old(db).vectors && db.stats == old(db).stats && db.receipts == old(db).receipts
    {
      var all := Purgeable(db.sessions, now, except);
      purged := {};
      while |purged| < limit && purged != all
        invariant db == old(db) && purged <= all && |purged| <= limit
        invariant forall i, j :: i in purged && j in all - purged ==> PurgedBefore(db.sessions, i, j)
        decreases all - purged
      {
        FirstToPurge(db.sessions, all - purged);
        var next: Id :| next in all - purged && forall j :: j in all - purged ==> PurgedBefore(db.sessions, next, j);
        purged := purged + {next};
      }
      PurgedCount(purged, all, limit);
      DropSessionsKeeps(db, purged, cap, now);
      db := DropSessions(db, purged);
    }

    /** Receipt, stats, affinity and vector of one validated target; fails when the vector table refuses the vector. */
    method ReinforceTarget(sid: Id, ses: Session, t: Target, now: Time, newId: Id) returns (stored: bool, applied: Applied)
      requires UniqueKeys(db.affinities) && newId !in db.affinities
      modifies this
      ensures stored <==> |ses.embedding| == old(db).vecDim
      ensures stored ==> db == Reinforce(old(db), sid, ses, t, now, cap, newId)
                         && applied == AppliedTo(old(db), ses, t, now, cap, newId)
    {
      db := db.(receipts := db.receipts[(sid, t.entry) := Receipt(t.block, t.chunk, now)]);
      var entryStats := ReinforcedStats(db.stats, t.entry, now, cap);
      db := db.(stats := db.stats[t.entry := entryStats]);
      var key := TargetKey(ses, t);
      var id := newId;
      if i: Id :| i in db.affinities && db.affinities[i].key == key {
        id := i;
      }
      UpsertIdIs(db.affinities, key, newId, id);
      var row := UpsertRow(db.affinities, id, key, ses, now, cap);
      db := db.(affinities := db.affinities[id := row]);
      stored := |ses.embedding| == db.vecDim;
      applied := Applied(t.entry, entryStats.count, row.count, now);
      if stored {
        db := db.(vectors := db.vectors[id := ses.embedding]);
      }
    }

    /** Sets aside targets with receipts and validates the others, before anything is written. */
    method TriageTargets(c: Content, sid: Id, ts: seq<Target>) returns (r: Result<Triaged, Refusal>)
      ensures r == Triage(db, c, sid, ts)
    {
      var acc := Triaged([], []);
      var n := 0;
      assert ts[0..] == ts;
      AfterNoTriage(Triage(db, c, sid, ts));
      while n < |ts|
        invariant 0 <= n <= |ts|
        invariant Triage(db, c, sid, ts) == AfterTriage(acc, Triage(db, c, sid, ts[n..]))
      {
        assert ts[n..][0] == ts[n] && ts[n..][1..] == ts[n + 1..];
        ghost var rest := Triage(db, c, sid, ts[n + 1..]);
        if (sid, ts[n].entry) in db.receipts {
          TriageMoves(acc, [], [ts[n].entry], rest);
          acc := acc.(already := acc.already + [ts[n].entry]);
        } else {
          var validated := Validate(db, c, sid, ts[n]);
          if validated.Err? {
            return Err(validated.error);
          }
          TriageMoves(acc, [validated.value], [], rest);
          acc := acc.(novel := acc.novel + [validated.value]);
        }
        n := n + 1;
      }
      assert ts[n..] == [] && acc.novel + [] == acc.novel && acc.already + [] == acc.already;
      r := Ok(acc);
    }

    /** The write loop over validated targets. */
    method ReinforceTargets(sid: Id, ses: Session, ts: seq<Target>, now: Time, newIds: seq<Id>) returns (r: Result<Accepted, Refusal>)
      requires UniqueKeys(db.affinities) && |newIds| >= |ts| && FreshIds(db, newIds)
      modifies this
      ensures match ReinforceAll(old(db), sid, ses, ts, now, cap, newIds)
              case Ok((s', acc)) => db == s' && r == Ok(acc)
              case Err(e) => r == Err(e)
    {
      var acc := Accepted([], []);
      var n := 0;
      assert ts[0..] == ts && newIds[0..] == newIds;
      AfterNoReinforce(ReinforceAll(db, sid, ses, ts, now, cap, newIds));
      while n < |ts|
        invariant 0 <= n <= |ts| && UniqueKeys(db.affinities) && FreshIds(db, newIds[n..])
        invariant ReinforceAll(old(db), sid, ses, ts, now, cap, newIds)
                  == AfterReinforce(acc, ReinforceAll(db, sid, ses, ts[n..], now, cap, newIds[n..]))
      {
        assert ts[n..][0] == ts[n] && ts[n..][1..] == ts[n + 1..];
        assert newIds[n..][0] == newIds[n] && newIds[n..][1..] == newIds[n + 1..] && newIds[n] in newIds[n..];
        if (sid, ts[n].entry) in db.receipts {
          ReinforceMoves(acc, [], [ts[n].entry], ReinforceAll(db, sid, ses, ts[n + 1..], now, cap, newIds[n + 1..]));
          acc := acc.(already := acc.already + [ts[n].entry]);
          FreshIdsShrink(db, db, newIds[n..]);
        } else {
          ghost var before := db;
          ReinforceKeepsUnique(db, sid, ses, ts[n], now, cap, newIds[n]);
          var stored, applied := ReinforceTarget(sid, ses, ts[n], now, newIds[n]);
          if !stored {
            return Err(VectorRejected);
          }
          FreshIdsShrink(before, db, newIds[n..]);
          ReinforceMoves(acc, [applied], [], ReinforceAll(db, sid, ses, ts[n + 1..], now, cap, newIds[n + 1..]));
          acc := acc.(applied := acc.applied + [applied]);
        }
        n := n + 1;
      }
      assert ts[n..] == [] && acc.applied + [] == acc.applied && acc.already + [] == acc.already;
      r := Ok(acc);
    }

    method HasDuplicate(ts: seq<Target>) returns (found: bool)
      ensures found <==> Repeats(ts)
    {
      var seen: set<Id> := {};
      var n := 0;
      while n < |ts|
        invariant 0 <= n <= |ts|
        invariant forall e :: e in seen <==> exists i :: 0 <= i < n && ts[i].entry == e
        invariant forall i, j :: 0 <= i < j < n ==> ts[i].entry != ts[j].entry
      {
        if ts[n].entry in seen {
          return true;
        }
        seen := seen + {ts[n].entry};
        n := n + 1;
      }
      found := false;
    }

    /**
     * The feedback transaction: purge, admission, triage, reinforcement. On success the database holds the
     * submitted state; on any refusal it is exactly what it was, the purge included.
     */
    method ApplyFeedback(c: Content, now: Time, sid: Id, ts: seq<Target>, gate: Option<(Text, nat)>, newIds: seq<Id>)
        returns (r: Result<Accepted, Refusal>, purged: set<Id>)
      requires Valid(now) && |newIds| >= |ts| && FreshIds(db, newIds)
      modifies this
      ensures Valid(now)
      ensures PurgeChoice(old(db).sessions, now, PURGE_BATCH, Some(sid), purged)
      ensures match Submit(DropSessions(old(db), purged), c, now, cap, sid, ts, gate, newIds)
              case Ok((s', acc)) => db == s' && r == Ok(acc)
              case Err(e) => db == old(db) && r == Err(e)
    {
      var before := db;
      purged := PurgeExpiredSessions(now, PURGE_BATCH, Some(sid));
      var base := db;
      AcceptedKeeps(base, c, now, cap, sid, ts, gate, newIds);
      var duplicate := HasDuplicate(ts);
      if sid !in db.sessions {
        r := Err(SessionNotFound);
      } else if now >= db.sessions[sid].expires {
        r := Err(SessionExpired);
      } else if ts == [] {
        r := Err(NoTargets);
      } else if duplicate {
        r := Err(DuplicateTarget);
      } else if gate.Some? && (db.sessions[sid].model != gate.value.0 || db.sessions[sid].dim != gate.value.1) {
        r := Err(EmbeddingMismatch);
      } else {
        var triaged := TriageTargets(c, sid, ts);
        TriageShrinks(base, c, sid, ts);
        if triaged.Err? {
          r := Err(triaged.error);
        } else {
          r := ReinforceTargets(sid, db.sessions[sid], triaged.value.novel, now, newIds);
          if r.Ok? {
            r := Ok(r.value.(already := triaged.value.already + r.value.already));
          }
        }
      }
      if r.Err? {
        db := before;
      }
    }

    /** Opens a session and records its results; a repeated result entry violates the primary key. */
    method CreateSearchSession(now: Time, sid: Id, session: Session, found: seq<(Id, SessionResult)>) returns (created: bool, purged: set<Id>)
      requires Valid(now) && sid !in db.sessions
      modifies this
      ensures Valid(now)
      ensures PurgeChoice(old(db).sessions, now, PURGE_BATCH, None, purged)
      ensures created <==> session.embedding != [] && ByEntry(found).Some?
      ensures db == if created then WithSession(DropSessions(old(db), purged), sid, session, ByEntry(found).value) else old(db)
      ensures created <==> session.embedding != [] && forall i, j :: 0 <= i < j < |found| ==> found[i].0 != found[j].0
      ensures created ==> sid in db.sessions && db.sessions[sid] == session
      ensures created ==> forall i :: 0 <= i < |found| ==> (sid, found[i].0) in db.results && db.results[(sid, found[i].0)] == found[i].1
    {
      var before := db;
      ByEntryLists(found);
      purged := PurgeExpiredSessions(now, PURGE_BATCH, None);
      ghost var current := db;
      created := session.embedding != [];
      var recorded: map<Id, SessionResult> := map[];
      var n := 0;
      while created && n < |found|
        invariant 0 <= n <= |found| && db == current
        invariant created ==> session.embedding != [] && ByEntry(found[..n]) == Some(recorded)
        invariant !created ==> session.embedding == [] || ByEntry(found).None?
      {
        assert found[..n + 1][..n] == found[..n];
        if found[n].0 in recorded {
          RepeatStays(found, n + 1);
          created := false;
        } else {
          recorded := recorded[found[n].0 := found[n].1];
          n := n + 1;
        }
      }
      if created {
        assert found[..n] == found;
        SessionOpsKeep(db, cap, now, sid, session, recorded);
        db := WithSession(db, sid, session, recorded);
      } else {
        db := before;
      }
    }

    // ---- Re-embedding ----

    /** Keeps the vector table's dimension equal to the active model's. */
    method EnsureVecQueryAffinities(ghost now: Time, dim: nat) returns (ok: bool)
      requires Valid(now)
      modifies this
      ensures ok <==> dim != 0
      ensures db == EnsureVectorTable(old(db), dim) && Valid(now)
      ensures ok ==> db.vecDim == dim
    {
      VectorOpsKeep(db, cap, now, dim, 0);
      ok := dim != 0;
      if ok && dim != db.vecDim {
        db := db.(vectors := map[]);
        db := db.(vecDim := dim);
      }
    }

    /** What is left belongs to rows of the model; their vectors all stay. */
    method RemoveStaleAffinityVectors(ghost now: Time, model: Text) returns (deleted: nat)
      requires Valid(now)
      modifies this
      ensures db == old(db).(vectors := db.vectors) && Valid(now)
      ensures forall i :: i in db.vectors <==> i in old(db).vectors && old(db).affinities[i].key.model == model
      ensures forall i :: i in db.vectors ==> db.vectors[i] == old(db).vectors[i]
      ensures deleted == |old(db).vectors| - |db.vectors|
    {
      var before := db.vectors;
      VectorOpsKeep(db, cap, now, 0, model);
      db := RemoveStaleVectors(db, model);
      SubsetSize(db.vectors.Keys, before.Keys);
      assert |before.Keys| == |before| && |db.vectors.Keys| == |db.vectors|;
      deleted := |before| - |db.vectors|;
    }

    /** The grouping loop over the rows in id order. */
    method GroupAffinities() returns (groups: map<GroupKey, Group>)
      ensures groups == AllGroups(db.affinities)
    {
      var order := SortedIds(db.affinities);
      groups := map[];
      var n := 0;
      while n < |order|
        invariant 0 <= n <= |order| && groups == GroupsOf(db.affinities, order[..n])
      {
        assert order[..n + 1][..n] == order[..n] && order[n] in order;
        groups := AddToGroups(groups, order[n], db.affinities[order[n]]);
        n := n + 1;
      }
      assert order[..n] == order;
    }

    /** Read-only: the provider inputs and the fingerprint of the rows they come from. */
    method ListAffinitiesForReembedding(sp: Spelling) returns (plan: Plan)
      ensures plan == PlanOf(db, sp)
    {
      var groups := GroupAffinities();
      SurvivorsAreRows(db.affinities);
      AscendingDistinct(Survivors(groups));
      plan := Plan(Inputs(db.affinities, Ascending(Survivors(groups))), Preimage(sp, db.affinities));
    }

    method CollectVectors(vectors: seq<(Id, Vector)>, dim: nat) returns (r: Result<map<Id, Vector>, Denial>)
      ensures r == Collect(vectors, dim)
    {
      var byId: map<Id, Vector> := map[];
      var n := 0;
      while n < |vectors|
        invariant 0 <= n <= |vectors| && Collect(vectors[..n], dim) == Ok(byId)
      {
        assert vectors[..n + 1][..n] == vectors[..n];
        var (id, v) := vectors[n];
        CollectErrorStays(vectors, n + 1, dim);
        if |v| != dim {
          return Err(WrongDimension(id));
        } else if !AllFinite(v) {
          return Err(NonFiniteValue(id));
        } else if id in byId {
          return Err(DuplicateVector(id));
        }
        byId := byId[id := v];
        n := n + 1;
      }
      assert vectors[..n] == vectors;
      r := Ok(byId);
    }

    /** `UPDATE query_affinities ... WHERE id`: the unique index demands that no other row holds the new key. */
    method UpdateAffinity(id: Id, row: Affinity)
      requires id in db.affinities && UniqueKeys(db.affinities)
      requires forall i :: i in db.affinities && i != id ==> db.affinities[i].key != row.key
      modifies this
      ensures db == old(db).(affinities := old(db).affinities[id := row])
      ensures UniqueKeys(db.affinities)
    {
      db := db.(affinities := db.affinities[id := row]);
    }

    /** Deletes the listed members but the survivor, one statement each. */
    method DeleteMembers(members: seq<Id>, survivor: Id)
      requires UniqueKeys(db.affinities)
      modifies this
      ensures db == old(db).(affinities := WithoutMembers(old(db).affinities, members, survivor))
      ensures UniqueKeys(db.affinities)
    {
      var n := 0;
      while n < |members|
        invariant 0 <= n <= |members| && UniqueKeys(db.affinities)
        invariant db == old(db).(affinities := WithoutMembers(old(db).affinities, members[..n], survivor))
      {
        assert forall i :: i in members[..n + 1] <==> i in members[..n] || i == members[n];
        if members[n] != survivor {
          db := db.(affinities := db.affinities - {members[n]});
        }
        n := n + 1;
      }
      assert members[..n] == members;
    }

    /** Coalesces one group: deletes its other members, rewrites its survivor, and indexes the survivor's vector. */
    method RewriteGroup(ghost before: Store, groups: map<GroupKey, Group>, ghost own: map<Id, Group>, ghost done: set<Id>, sid: Id,
                        model: Text, dim: nat, byId: map<Id, Vector>)
      requires own.Keys == before.affinities.Keys && HeadsGroup(before.affinities, groups, own, sid)
      requires UniqueKeys(db.affinities) && sid in byId && done <= byId.Keys && sid !in done
      requires db == Midway(before, own, done, model, dim, byId)
      modifies this
      ensures db == Midway(before, own, done + {sid}, model, dim, byId) && UniqueKeys(db.affinities)
    {
      MidwayHolds(before, groups, own, done, sid, model, dim, byId);
      var group := groups[GroupKeyOf(db.affinities[sid].key)];
      MidwayStep(before.affinities, own, group.members, done, sid, model, dim);
      SurvivorAlone(before.affinities, own, group.members, done, sid, model, dim);
      DeleteMembers(group.members, sid);
      var row := Rewritten(db.affinities[sid], group, model, dim);
      assert GroupKeyOf(row.key) == GroupKeyOf(before.affinities[sid].key);
      UpdateAffinity(sid, row);
      db := db.(vectors := db.vectors[sid := byId[sid]]);
    }

    /** Group by group, in survivor order; the unique index holds after every statement. */
    method RewriteGroups(groups: map<GroupKey, Group>, ghost own: map<Id, Group>, model: Text, dim: nat, byId: map<Id, Vector>)
      requires UniqueKeys(db.affinities) && own.Keys == db.affinities.Keys
      requires forall sid :: sid in byId ==> HeadsGroup(db.affinities, groups, own, sid)
      modifies this
      ensures db == Midway(old(db), own, byId.Keys, model, dim, byId)
    {
      ghost var before := db;
      var order := Ascending(byId.Keys);
      TakenNone(byId.Keys);
      db := db.(vectors := map[]);
      MidwayStarts(before, own, model, dim, byId);
      var n := 0;
      while n < |order|
        invariant 0 <= n <= |order| && UniqueKeys(db.affinities) && Taken(order, n) <= byId.Keys
        invariant db == Midway(before, own, Taken(order, n), model, dim, byId)
      {
        TakenNext(byId.Keys, n);
        RewriteGroup(before, groups, own, Taken(order, n), order[n], model, dim, byId);
        n := n + 1;
      }
      TakenAll(byId.Keys);
    }

    /**
     * Optimistic replacement: refused without effect unless the vectors are well formed, the rows are those of
     * the fingerprint, and the vectors answer exactly the survivors.
     */
    method ReplaceAffinityVectors(ghost now: Time, sp: Spelling, model: Text, dim: nat, fingerprint: Bytes, vectors: seq<(Id, Vector)>)
        returns (denial: Option<Denial>)
      requires Valid(now)
      modifies this
      ensures Valid(now)
      ensures match Replace(old(db), sp, model, dim, fingerprint, vectors)
              case Ok(s') => db == s' && denial == None
              case Err(e) => db == old(db) && denial == Some(e)
    {
      if model == EMPTY_TEXT {
        return Some(EmptyModel);
      } else if dim == 0 {
        return Some(ZeroDimension);
      }
      var collected := CollectVectors(vectors, dim);
      if collected.Err? {
        return Some(collected.error);
      } else if Preimage(sp, db.affinities) != fingerprint {
        return Some(RowsChanged);
      }
      var groups := GroupAffinities();
      if collected.value.Keys != Survivors(groups) {
        return Some(VectorSetMismatch);
      } else if db.affinities != map[] && dim != db.vecDim {
        return Some(VectorStorage);
      }
      ReplaceKeeps(db, sp, model, dim, fingerprint, vectors, cap, now);
      ghost var own := Owners(db, model, dim, collected.value);
      RewriteGroups(groups, own, model, dim, collected.value);
      denial := None;
    }
  }

  /** Accepted feedback keeps the tables consistent. */
  lemma {:induction false} AcceptedKeeps(s: Store, c: Content, now: Time, cap: nat, sid: Id, ts: seq<Target>,
                                         gate: Option<(Text, nat)>, newIds: seq<Id>)
    requires Consistent(s, cap, now) && 1 <= cap && |newIds| >= |ts| && FreshIds(s, newIds)
    ensures var r := Submit(s, c, now, cap, sid, ts, gate, newIds); r.Ok? ==> Consistent(r.value.0, cap, now)
  {
    if Submit(s, c, now, cap, sid, ts, gate, newIds).Ok? {
      SubmitKeeps(s, c, now, cap, sid, ts, gate, newIds);
    }
  }

  lemma {:induction false} OccupantIs(rows: map<Id, Affinity>, other: Id, k: Key, sid: Id)
    requires UniqueKeys(rows) && Holds(rows, sid, other, k)
    ensures Occupant(rows, other, k) == Some(sid)
  {
  }

  lemma {:induction false} NoOccupant(rows: map<Id, Affinity>, other: Id, k: Key)
    requires forall i :: i in rows && i != other ==> rows[i].key != k
    ensures Occupant(rows, other, k) == None
  {
  }

  lemma {:induction false} StepKeepsUnique(ix: Index, u: Update)
    requires UniqueKeys(ix.rows)
    ensures UniqueKeys(Step(ix, u).index.rows)
  {
    if u.id in ix.rows {
      var target := Retarget(ix.rows[u.id].key, u);
      match Occupant(ix.rows, u.id, target)
      case None => MoveKeepsUnique(ix.rows, u.id, target);
      case Some(sid) => MergeKeepsUnique(ix, u.id, sid);
    }
  }

  lemma {:induction false} UpsertIdIs(rows: map<Id, Affinity>, k: Key, newId: Id, id: Id)
    requires UniqueKeys(rows)
    requires RowHolds(rows, id, k) || (id == newId && forall i :: i in rows ==> rows[i].key != k)
    ensures UpsertId(rows, k, newId) == id
  {
  }

  function AfterTriage(acc: Triaged, r: Result<Triaged, Refusal>): Result<Triaged, Refusal> {
    if r.Err? then r else Ok(Triaged(acc.novel + r.value.novel, acc.already + r.value.already))
  }

  function AfterReinforce(acc: Accepted, r: Result<(Store, Accepted), Refusal>): Result<(Store, Accepted), Refusal> {
    if r.Err? then r else Ok((r.value.0, Accepted(acc.applied + r.value.1.applied, acc.already + r.value.1.already)))
  }

  lemma {:induction false} AfterNoTriage(r: Result<Triaged, Refusal>)
    ensures AfterTriage(Triaged([], []), r) == r
  {
    if r.Ok? {
      assert [] + r.value.novel == r.value.novel && [] + r.value.already == r.value.already;
    }
  }

  lemma {:induction false} TriageMoves(acc: Triaged, novel: seq<Target>, already: seq<Id>, r: Result<Triaged, Refusal>)
    ensures AfterTriage(acc, AfterTriage(Triaged(novel, already), r))
            == AfterTriage(Triaged(acc.novel + novel, acc.already + already), r)
    ensures r.Ok? ==> AfterTriage(Triaged([], already), r) == Ok(r.value.(already := already + r.value.already))
    ensures r.Ok? ==> AfterTriage(Triaged(novel, []), r) == Ok(r.value.(novel := novel + r.value.novel))
    ensures acc.novel + [] == acc.novel && acc.already + [] == acc.already
  {
    if r.Ok? {
      assert acc.novel + (novel + r.value.novel) == (acc.novel + novel) + r.value.novel;
      assert acc.already + (already + r.value.already) == (acc.already + already) + r.value.already;
      assert [] + r.value.novel == r.value.novel && [] + r.value.already == r.value.already;
    }
  }

  lemma {:induction false} AfterNoReinforce(r: Result<(Store, Accepted), Refusal>)
    ensures AfterReinforce(Accepted([], []), r) == r
  {
    if r.Ok? {
      assert [] + r.value.1.applied == r.value.1.applied && [] + r.value.1.already == r.value.1.already;
    }
  }

  lemma {:induction false} ReinforceMoves(acc: Accepted, applied: seq<Applied>, already: seq<Id>, r: Result<(Store, Accepted), Refusal>)
    ensures AfterReinforce(acc, AfterReinforce(Accepted(applied, already), r))
            == AfterReinforce(Accepted(acc.applied + applied, acc.already + already), r)
    ensures r.Ok? ==> AfterReinforce(Accepted([], already), r) == Ok((r.value.0, r.value.1.(already := already + r.value.1.already)))
    ensures r.Ok? ==> AfterReinforce(Accepted(applied, []), r) == Ok((r.value.0, r.value.1.(applied := applied + r.value.1.applied)))
    ensures acc.applied + [] == acc.applied && acc.already + [] == acc.already
  {
    if r.Ok? {
      assert acc.applied + (applied + r.value.1.applied) == (acc.applied + applied) + r.value.1.applied;
      assert acc.already + (already + r.value.1.already) == (acc.already + already) + r.value.1.already;
      assert [] + r.value.1.applied == r.value.1.applied && [] + r.value.1.already == r.value.1.already;
    }
  }

  lemma {:induction false} FirstToPurge(sessions: map<Id, Session>, candidates: set<Id>)
    requires candidates != {} && candidates <= sessions.Keys
    ensures exists i :: IsFirst(sessions, candidates, i)
  {
    var y: Id :| y in candidates;
    var first := y;
    if candidates - {y} != {} {
      FirstToPurge(sessions, candidates - {y});
      var m: Id :| IsFirst(sessions, candidates - {y}, m);
      first := if PurgedBefore(sessions, m, y) then m else y;
    }
    forall j | j in candidates
      ensures PurgedBefore(sessions, first, j)
    {
      assert j == y || j in candidates - {y};
    }
    assert IsFirst(sessions, candidates, first);
  }

  ghost predicate IsFirst(sessions: map<Id, Session>, candidates: set<Id>, i: Id)
    requires candidates <= sessions.Keys
  {
    i in candidates && forall j :: j in candidates ==> PurgedBefore(sessions, i, j)
  }

  lemma {:induction false} PurgedCount(purged: set<Id>, all: set<Id>, limit: nat)
    requires purged <= all && |purged| <= limit && (|purged| == limit || purged == all)
    ensures |purged| == Min(limit, |all|)
  {
    SubsetSize(purged, all);
  }

  /** Session results by entry; none when an entry repeats. */
  function ByEntry(found: seq<(Id, SessionResult)>): Option<map<Id, SessionResult>> {
    if found == [] then Some(map[])
    else
      var n := |found| - 1;
      match ByEntry(found[..n])
      case None => None
      case Some(m) => if found[n].0 in m then None else Some(m[found[n].0 := found[n].1])
  }

  lemma {:induction false} ByEntryLists(found: seq<(Id, SessionResult)>)
    ensures ByEntry(found).Some? <==> forall i, j :: 0 <= i < j < |found| ==> found[i].0 != found[j].0
    ensures ByEntry(found).Some? ==> forall i :: 0 <= i < |found| ==> found[i].0 in ByEntry(found).value && ByEntry(found).value[found[i].0] == found[i].1
    ensures ByEntry(found).Some? ==> forall e :: e in ByEntry(found).value ==> exists i :: 0 <= i < |found| && found[i].0 == e
  {
    if found != [] {
      var n := |found| - 1;
      ByEntryLists(found[..n]);
      assert forall i :: 0 <= i < n ==> found[..n][i] == found[i];
      if ByEntry(found[..n]).Some? && found[n].0 in ByEntry(found[..n]).value {
        var i :| 0 <= i < n && found[..n][i].0 == found[n].0;
        assert found[i].0 == found[n].0;
      }
    }
  }

  lemma {:induction false} RepeatStays(found: seq<(Id, SessionResult)>, n: nat)
    requires n <= |found| && ByEntry(found[..n]).None?
    ensures ByEntry(found).None?
    decreases |found|
  {
    if n == |found| {
      assert found[..n] == found;
    } else {
      assert found[..|found| - 1][..n] == found[..n];
      RepeatStays(found[..|found| - 1], n);
    }
  }

  lemma {:induction false} CollectErrorStays(vectors: seq<(Id, Vector)>, n: nat, dim: nat)
    requires n <= |vectors|
    ensures Collect(vectors[..n], dim).Err? ==> Collect(vectors, dim) == Collect(vectors[..n], dim)
    decreases |vectors|
  {
    if n == |vectors| {
      assert vectors[..n] == vectors;
    } else {
      assert vectors[..|vectors| - 1][..n] == vectors[..n];
      CollectErrorStays(vectors[..|vectors| - 1], n, dim);
    }
  }

  function Taken(order: seq<Id>, n: nat): set<Id>
    requires n <= |order|
  {
    set i | i in order[..n]
  }

  lemma {:induction false} TakenNone(keys: set<Id>)
    ensures Taken(Ascending(keys), 0) == {}
  {
  }

  lemma {:induction false} TakenNext(keys: set<Id>, n: nat)
    requires n < |Ascending(keys)|
    ensures var order := Ascending(keys);
      && order[n] in keys && order[n] !in Taken(order, n)
      && Taken(order, n + 1) == Taken(order, n) + {order[n]} <= keys
  {
    var order := Ascending(keys);
    AscendingDistinct(keys);
    AscendingMembers(keys);
    assert order[..n + 1] == order[..n] + [order[n]];
    assert order[n] in order;
  }

  lemma {:induction false} TakenAll(keys: set<Id>)
    ensures Taken(Ascending(keys), |Ascending(keys)|) == keys
  {
    AscendingMembers(keys);
    assert Ascending(keys)[..|Ascending(keys)|] == Ascending(keys);
  }

  lemma {:induction false} MidwayStarts(s: Store, own: map<Id, Group>, model: Text, dim: nat, byId: map<Id, Vector>)
    requires own.Keys == s.affinities.Keys
    ensures Midway(s, own, {}, model, dim, byId) == s.(vectors := map[])
  {
    assert MidwayRows(s.affinities, own, {}, model, dim) == s.affinities;
  }

  /** A survivor still to be done is there, and leads to its group. */
  lemma {:induction false} MidwayHolds(s: Store, groups: map<GroupKey, Group>, own: map<Id, Group>, done: set<Id>, sid: Id,
                                       model: Text, dim: nat, byId: map<Id, Vector>)
    requires own.Keys == s.affinities.Keys && HeadsGroup(s.affinities, groups, own, sid) && sid !in done && done <= byId.Keys
    ensures var rows := Midway(s, own, done, model, dim, byId).affinities;
      sid in rows && GroupKeyOf(rows[sid].key) in groups && own[sid] == groups[GroupKeyOf(rows[sid].key)]
  {
    MidwayRowStep(s.affinities, own, own[sid].members, done, sid, model, dim, sid);
  }
}
