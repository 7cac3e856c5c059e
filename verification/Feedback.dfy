/** Search sessions and positive feedback: validation, receipts, and reinforcement of stats and affinities. */
module Feedback {
  import opened Prelude
  import opened SignalTables
  import opened PrecisionMerge
  import opened SignalOps

  datatype Target = Target(entry: Id, block: Option<Id>, chunk: Option<Id>)

  datatype Refusal =
    | SessionNotFound
    | SessionExpired
    | NoTargets
    | DuplicateTarget
    | EmbeddingMismatch
    | NotReturned(entry: Id)
    | EntryMissing(entry: Id)
    | BlockMismatch(entry: Id)
    | BlockNotOwned(entry: Id)
    | ChunkMismatch(entry: Id)
    | ChunkNotOwned(entry: Id)
    | ChunkOutsideBlock(entry: Id)
    | VectorRejected

  datatype Applied = Applied(entry: Id, count: nat, affinityCount: nat, last: Time)

  datatype Accepted = Accepted(applied: seq<Applied>, already: seq<Id>)

  // ---- Expired sessions ----

  predicate Expired(s: Session, now: Time) {
    s.expires <= now
  }

  function Purgeable(sessions: map<Id, Session>, now: Time, except: Option<Id>): set<Id> {
    set i | i in sessions && Expired(sessions[i], now) && Some(i) != except
  }

  predicate PurgedBefore(sessions: map<Id, Session>, i: Id, j: Id)
    requires i in sessions && j in sessions
  {
    || sessions[i].expires < sessions[j].expires
    || (sessions[i].expires == sessions[j].expires
        && (sessions[i].created < sessions[j].created || (sessions[i].created == sessions[j].created && i <= j)))
  }

  /** `ORDER BY expires_at, created_at, id LIMIT limit`: the sessions one purge deletes. */
  ghost predicate PurgeChoice(sessions: map<Id, Session>, now: Time, limit: nat, except: Option<Id>, chosen: set<Id>) {
    var all := Purgeable(sessions, now, except);
    && chosen <= all
    && |chosen| == Min(limit, |all|)
    && forall i, j :: i in chosen && j in all - chosen ==> PurgedBefore(sessions, i, j)
  }

  function DropSessions(s: Store, gone: set<Id>): Store {
    s.(sessions := map i | i in s.sessions && i !in gone :: s.sessions[i],
       results := map k | k in s.results && k.0 !in gone :: s.results[k])
  }

  // ---- Validation ----

  function ValidateBlock(c: Content, t: Target, recorded: SessionResult): Option<Refusal> {
    if t.block.None? then None
    else if recorded.block != t.block then Some(BlockMismatch(t.entry))
    else if !(t.block.value in c.blocks && c.blocks[t.block.value] == t.entry) then Some(BlockNotOwned(t.entry))
    else None
  }

  /** The entry block a live chunk belongs to. */
  function ParentBlock(c: Content, e: Id, chunk: Id): Option<Id> {
    if chunk in c.chunks && c.chunks[chunk] in c.blocks && c.blocks[c.chunks[chunk]] == e then Some(c.chunks[chunk]) else None
  }

  function ValidateChunk(c: Content, t: Target, recorded: SessionResult): Result<Target, Refusal> {
    if t.chunk.None? then Ok(t)
    else if recorded.chunk != t.chunk then Err(ChunkMismatch(t.entry))
    else
      var parent := ParentBlock(c, t.entry, t.chunk.value);
      if parent.None? then Err(ChunkNotOwned(t.entry))
      else if t.block.Some? && t.block != parent then Err(ChunkOutsideBlock(t.entry))
      else Ok(t.(block := parent))
  }

  function Validate(s: Store, c: Content, sid: Id, t: Target): Result<Target, Refusal> {
    if (sid, t.entry) !in s.results then Err(NotReturned(t.entry))
    else if t.entry !in c.entries then Err(EntryMissing(t.entry))
    else
      var blockRefusal := ValidateBlock(c, t, s.results[(sid, t.entry)]);
      if blockRefusal.Some? then Err(blockRefusal.value)
      else ValidateChunk(c, t, s.results[(sid, t.entry)])
  }

  datatype Triaged = Triaged(novel: seq<Target>, already: seq<Id>)

  /** Targets with a receipt are set aside; the others are validated in order. */
  function Triage(s: Store, c: Content, sid: Id, ts: seq<Target>): Result<Triaged, Refusal> {
    if ts == [] then Ok(Triaged([], []))
    else if (sid, ts[0].entry) in s.receipts then
      match Triage(s, c, sid, ts[1..])
      case Err(e) => Err(e)
      case Ok(rest) => Ok(rest.(already := [ts[0].entry] + rest.already))
    else
      match Validate(s, c, sid, ts[0])
      case Err(e) => Err(e)
      case Ok(t) =>
        match Triage(s, c, sid, ts[1..])
        case Err(e) => Err(e)
        case Ok(rest) => Ok(rest.(novel := [t] + rest.novel))
  }

  // ---- Reinforcement ----

  function Strengthen(count: nat, cap: nat): nat {
    if count < cap then count + 1 else count
  }

  function ReinforcedStats(stats: map<Id, Stats>, e: Id, now: Time, cap: nat): Stats {
    Stats(if e in stats then Strengthen(stats[e].count, cap) else 1, now, now)
  }

  function TargetKey(ses: Session, t: Target): Key {
    Key(ses.hash, ses.model, t.entry, t.block, t.chunk)
  }

  ghost predicate RowHolds(rows: map<Id, Affinity>, i: Id, k: Key) {
    i in rows && rows[i].key == k
  }

  /** The row the upsert hits: the one with the target's key, or the new id. */
  ghost function UpsertId(rows: map<Id, Affinity>, k: Key, newId: Id): (id: Id)
    ensures RowHolds(rows, id, k) || (id == newId && forall i :: !RowHolds(rows, i, k))
  {
    if exists i :: RowHolds(rows, i, k) then
      var i: Id :| RowHolds(rows, i, k); i
    else newId
  }

  function UpsertRow(rows: map<Id, Affinity>, id: Id, k: Key, ses: Session, now: Time, cap: nat): Affinity {
    if id in rows then
      rows[id].(raw := ses.raw, effective := ses.effective, dim := ses.dim,
                count := Strengthen(rows[id].count, cap), last := now, updated := now)
    else Affinity(k, ses.raw, ses.effective, ses.dim, 1, now, now, now)
  }

  ghost function Reinforce(s: Store, sid: Id, ses: Session, t: Target, now: Time, cap: nat, newId: Id): Store {
    var k := TargetKey(ses, t);
    var id := UpsertId(s.affinities, k, newId);
    s.(receipts := s.receipts[(sid, t.entry) := Receipt(t.block, t.chunk, now)],
       stats := s.stats[t.entry := ReinforcedStats(s.stats, t.entry, now, cap)],
       affinities := s.affinities[id := UpsertRow(s.affinities, id, k, ses, now, cap)],
       vectors := s.vectors[id := ses.embedding])
  }

  ghost function AppliedTo(s: Store, ses: Session, t: Target, now: Time, cap: nat, newId: Id): Applied {
    var k := TargetKey(ses, t);
    var id := UpsertId(s.affinities, k, newId);
    Applied(t.entry, ReinforcedStats(s.stats, t.entry, now, cap).count, UpsertRow(s.affinities, id, k, ses, now, cap).count, now)
  }

  /** The reinforcement loop over validated targets; an embedding that does not fit the vector table aborts it. */
  ghost function ReinforceAll(s: Store, sid: Id, ses: Session, ts: seq<Target>, now: Time, cap: nat, newIds: seq<Id>):
      Result<(Store, Accepted), Refusal>
    requires |newIds| >= |ts|
    decreases |ts|
  {
    if ts == [] then Ok((s, Accepted([], [])))
    else if (sid, ts[0].entry) in s.receipts then
      match ReinforceAll(s, sid, ses, ts[1..], now, cap, newIds[1..])
      case Err(e) => Err(e)
      case Ok((s', acc)) => Ok((s', acc.(already := [ts[0].entry] + acc.already)))
    else if |ses.embedding| != s.vecDim then Err(VectorRejected)
    else
      match ReinforceAll(Reinforce(s, sid, ses, ts[0], now, cap, newIds[0]), sid, ses, ts[1..], now, cap, newIds[1..])
      case Err(e) => Err(e)
      case Ok((s', acc)) => Ok((s', acc.(applied := [AppliedTo(s, ses, ts[0], now, cap, newIds[0])] + acc.applied)))
  }

  // ---- The transaction ----

  predicate Repeats(ts: seq<Target>) {
    exists i, j :: 0 <= i < j < |ts| && ts[i].entry == ts[j].entry
  }

  /** What the request must satisfy before any receipt is looked at. */
  function Admit(s: Store, now: Time, sid: Id, ts: seq<Target>, gate: Option<(Text, nat)>): Option<Refusal> {
    if sid !in s.sessions then Some(SessionNotFound)
    else if now >= s.sessions[sid].expires then Some(SessionExpired)
    else if ts == [] then Some(NoTargets)
    else if Repeats(ts) then Some(DuplicateTarget)
    else if gate.Some? && (s.sessions[sid].model != gate.value.0 || s.sessions[sid].dim != gate.value.1) then Some(EmbeddingMismatch)
    else None
  }

  /** The body of the transaction, after the expired-session purge. */
  ghost function Submit(s: Store, c: Content, now: Time, cap: nat, sid: Id, ts: seq<Target>, gate: Option<(Text, nat)>,
                        newIds: seq<Id>): Result<(Store, Accepted), Refusal>
    requires |newIds| >= |ts|
  {
    var refusal := Admit(s, now, sid, ts, gate);
    if refusal.Some? then Err(refusal.value)
    else
      match Triage(s, c, sid, ts)
      case Err(e) => Err(e)
      case Ok(triaged) =>
        TriageShrinks(s, c, sid, ts);
        match ReinforceAll(s, sid, s.sessions[sid], triaged.novel, now, cap, newIds)
        case Err(e) => Err(e)
        case Ok((s', acc)) => Ok((s', acc.(already := triaged.already + acc.already)))
  }

  lemma {:induction false} TriageShrinks(s: Store, c: Content, sid: Id, ts: seq<Target>)
    ensures Triage(s, c, sid, ts).Ok? ==> |Triage(s, c, sid, ts).value.novel| <= |ts|
  {
    if ts != [] {
      TriageShrinks(s, c, sid, ts[1..]);
    }
  }

  // ---- What feedback keeps ----

  lemma {:induction false} ReceiptAdds(receipts: map<(Id, Id), Receipt>, k: (Id, Id), r: Receipt, e: Id)
    requires k !in receipts
    ensures ReceiptsOf(receipts[k := r], e) == ReceiptsOf(receipts, e) + (if e == k.1 then {k} else {})
    ensures k !in ReceiptsOf(receipts, e)
  {
  }

  lemma {:induction false} ReinforceKeepsStats(s: Store, sid: Id, ses: Session, t: Target, now: Time, cap: nat, newId: Id)
    requires StatsMatchReceipts(s.receipts, s.stats, cap) && (sid, t.entry) !in s.receipts && cap >= 1
    ensures var s' := Reinforce(s, sid, ses, t, now, cap, newId); StatsMatchReceipts(s'.receipts, s'.stats, cap)
  {
    var s' := Reinforce(s, sid, ses, t, now, cap, newId);
    forall e
      ensures e in s'.stats <==> ReceiptsOf(s'.receipts, e) != {}
      ensures e in s'.stats ==> s'.stats[e].count == Min(cap, |ReceiptsOf(s'.receipts, e)|)
    {
      ReceiptAdds(s.receipts, (sid, t.entry), Receipt(t.block, t.chunk, now), e);
    }
  }

  lemma {:induction false} ReinforceKeepsUnique(s: Store, sid: Id, ses: Session, t: Target, now: Time, cap: nat, newId: Id)
    requires UniqueKeys(s.affinities) && newId !in s.affinities
    ensures var s' := Reinforce(s, sid, ses, t, now, cap, newId); UniqueKeys(s'.affinities)
  {
    var k := TargetKey(ses, t);
    var id := UpsertId(s.affinities, k, newId);
    if id == newId {
      forall i | i in s.affinities
        ensures s.affinities[i].key != k
      {
        assert !RowHolds(s.affinities, i, k);
      }
    }
  }

  lemma {:induction false} ReinforceKeepsWithin(s: Store, sid: Id, ses: Session, t: Target, now: Time, cap: nat, newId: Id)
    requires AllWithinStats(s.affinities, s.stats) && Timely(s.stats, now) && newId !in s.affinities && cap >= 1
    requires forall e :: e in s.stats ==> s.stats[e].count <= cap
    ensures var s' := Reinforce(s, sid, ses, t, now, cap, newId);
      AllWithinStats(s'.affinities, s'.stats) && Timely(s'.stats, now)
  {
    var s' := Reinforce(s, sid, ses, t, now, cap, newId);
    var id := UpsertId(s.affinities, TargetKey(ses, t), newId);
    forall i | i in s'.affinities
      ensures WithinStats(s'.affinities[i], s'.stats)
    {
      if i in s.affinities {
        assert WithinStats(s.affinities[i], s.stats);
      }
    }
  }

  lemma {:induction false} ReinforceKeepsAttained(s: Store, sid: Id, ses: Session, t: Target, now: Time, cap: nat, newId: Id)
    requires StatsAttained(s.affinities, s.stats) && newId !in s.affinities
    ensures var s' := Reinforce(s, sid, ses, t, now, cap, newId); StatsAttained(s'.affinities, s'.stats)
  {
    var s' := Reinforce(s, sid, ses, t, now, cap, newId);
    var id := UpsertId(s.affinities, TargetKey(ses, t), newId);
    forall e | e in s'.stats
      ensures exists i :: Attains(s'.affinities, i, e, s'.stats[e].last)
    {
      if e == t.entry {
        assert Attains(s'.affinities, id, e, now);
      } else {
        var i :| Attains(s.affinities, i, e, s.stats[e].last);
        assert Attains(s'.affinities, i, e, s.stats[e].last);
      }
    }
  }

  lemma {:induction false} ReinforceKeepsVectors(s: Store, sid: Id, ses: Session, t: Target, now: Time, cap: nat, newId: Id)
    requires VectorsSized(s.affinities, s.vectors, s.vecDim) && s.vectors.Keys <= s.affinities.Keys
    requires |ses.embedding| == s.vecDim
    ensures var s' := Reinforce(s, sid, ses, t, now, cap, newId);
      && VectorsSized(s'.affinities, s'.vectors, s'.vecDim)
      && s'.vectors.Keys <= s'.affinities.Keys <= s.affinities.Keys + {newId}
  {
  }

  lemma {:induction false} CountsCapped(s: Store, cap: nat)
    requires StatsMatchReceipts(s.receipts, s.stats, cap)
    ensures forall e :: e in s.stats ==> s.stats[e].count <= cap
  {
  }

  /** One reinforcement keeps the tables consistent and records exactly one more receipt. */
  lemma {:induction false} ReinforceKeeps(s: Store, sid: Id, ses: Session, t: Target, now: Time, cap: nat, newId: Id)
    requires Consistent(s, cap, now) && (sid, t.entry) !in s.receipts && newId !in s.affinities && cap >= 1
    requires |ses.embedding| == s.vecDim
    ensures Consistent(Reinforce(s, sid, ses, t, now, cap, newId), cap, now)
    ensures Reinforce(s, sid, ses, t, now, cap, newId).receipts.Keys == s.receipts.Keys + {(sid, t.entry)}
    ensures Reinforce(s, sid, ses, t, now, cap, newId).affinities.Keys <= s.affinities.Keys + {newId}
  {
    ReinforceKeepsStats(s, sid, ses, t, now, cap, newId);
    ReinforceKeepsUnique(s, sid, ses, t, now, cap, newId);
    CountsCapped(s, cap);
    ReinforceKeepsWithin(s, sid, ses, t, now, cap, newId);
    ReinforceKeepsVectors(s, sid, ses, t, now, cap, newId);
    ReinforceKeepsAttained(s, sid, ses, t, now, cap, newId);
  }

  /** Ids the provider of fresh ULIDs may hand out: distinct, and naming no affinity yet. */
  ghost predicate FreshIds(s: Store, newIds: seq<Id>) {
    Distinct(newIds) && forall i :: i in newIds ==> i !in s.affinities
  }

  function Entries(ts: seq<Target>): seq<Id> {
    if ts == [] then [] else [ts[0].entry] + Entries(ts[1..])
  }

  function AppliedEntries(as_: seq<Applied>): seq<Id> {
    if as_ == [] then [] else [as_[0].entry] + AppliedEntries(as_[1..])
  }

  lemma {:induction false} FreshIdsShrink(s: Store, s': Store, newIds: seq<Id>)
    requires newIds != [] && FreshIds(s, newIds) && s'.affinities.Keys <= s.affinities.Keys + {newIds[0]}
    ensures FreshIds(s', newIds[1..]) && newIds[0] !in s.affinities
  {
    assert newIds[0] in newIds;
    forall i | i in newIds[1..]
      ensures i !in s'.affinities
    {
      var k :| 0 <= k < |newIds[1..]| && newIds[1..][k] == i;
      assert newIds[k + 1] == i && newIds[0] != newIds[k + 1];
    }
  }

  lemma {:induction false} EntriesSplit(ts: seq<Target>)
    requires ts != [] && Distinct(Entries(ts))
    ensures Distinct(Entries(ts[1..])) && ts[0].entry !in Entries(ts[1..])
    ensures forall e :: e in Entries(ts) <==> e == ts[0].entry || e in Entries(ts[1..])
  {
    assert Entries(ts)[1..] == Entries(ts[1..]) && Entries(ts)[0] == ts[0].entry;
    forall k | 0 <= k < |Entries(ts[1..])|
      ensures Entries(ts[1..])[k] != ts[0].entry
    {
      assert Entries(ts)[k + 1] == Entries(ts[1..])[k];
    }
  }

  function ReceiptKeys(sid: Id, es: seq<Id>): set<(Id, Id)> {
    set e | e in es :: (sid, e)
  }

  /** What the loop has done when it succeeds. */
  ghost predicate Reinforced(s: Store, sid: Id, ts: seq<Target>, s': Store, acc: Accepted) {
    && AppliedEntries(acc.applied) == Entries(ts)
    && acc.already == []
    && s'.receipts.Keys == s.receipts.Keys + ReceiptKeys(sid, Entries(ts))
    && s'.sessions == s.sessions && s'.results == s.results && s'.vecDim == s.vecDim
  }

  /** Distinct targets without receipts are all applied, in order; each leaves its receipt. */
  lemma {:induction false} ReinforceAllKeeps(s: Store, sid: Id, ses: Session, ts: seq<Target>, now: Time, cap: nat, newIds: seq<Id>)
    requires Consistent(s, cap, now) && cap >= 1 && |newIds| >= |ts| && FreshIds(s, newIds)
    requires Distinct(Entries(ts)) && forall e :: e in Entries(ts) ==> (sid, e) !in s.receipts
    ensures var r := ReinforceAll(s, sid, ses, ts, now, cap, newIds);
      && (r.Ok? <==> ts == [] || |ses.embedding| == s.vecDim)
      && (r.Ok? ==> Consistent(r.value.0, cap, now) && Reinforced(s, sid, ts, r.value.0, r.value.1))
    decreases |ts|
  {
    if ts != [] {
      EntriesSplit(ts);
      if |ses.embedding| == s.vecDim {
        var s1 := Reinforce(s, sid, ses, ts[0], now, cap, newIds[0]);
        assert newIds[0] in newIds;
        ReinforceKeeps(s, sid, ses, ts[0], now, cap, newIds[0]);
        FreshIdsShrink(s, s1, newIds);
        ReinforceAllKeeps(s1, sid, ses, ts[1..], now, cap, newIds[1..]);
        ReinforcedStep(s, sid, ses, ts, now, cap, newIds);
      }
    }
  }

  lemma {:induction false} ReinforcedStep(s: Store, sid: Id, ses: Session, ts: seq<Target>, now: Time, cap: nat, newIds: seq<Id>)
    requires ts != [] && |newIds| >= |ts| && |ses.embedding| == s.vecDim && (sid, ts[0].entry) !in s.receipts
    requires Distinct(Entries(ts))
    requires var s1 := Reinforce(s, sid, ses, ts[0], now, cap, newIds[0]);
      var r := ReinforceAll(s1, sid, ses, ts[1..], now, cap, newIds[1..]);
      r.Ok? && Reinforced(s1, sid, ts[1..], r.value.0, r.value.1)
    ensures var r := ReinforceAll(s, sid, ses, ts, now, cap, newIds);
      r.Ok? && Reinforced(s, sid, ts, r.value.0, r.value.1)
  {
    EntriesSplit(ts);
    assert ReceiptKeys(sid, Entries(ts)) == ReceiptKeys(sid, Entries(ts[1..])) + {(sid, ts[0].entry)};
    var a := AppliedTo(s, ses, ts[0], now, cap, newIds[0]);
    var acc := ReinforceAll(Reinforce(s, sid, ses, ts[0], now, cap, newIds[0]), sid, ses, ts[1..], now, cap, newIds[1..]).value.1;
    assert ([a] + acc.applied)[1..] == acc.applied;
  }

  /** A reinforcement records the session's example under the target's key, and touches nothing else. */
  lemma {:induction false} ReinforceRecords(s: Store, sid: Id, ses: Session, t: Target, now: Time, cap: nat, newId: Id)
    requires newId !in s.affinities
    ensures var s', id := Reinforce(s, sid, ses, t, now, cap, newId), UpsertId(s.affinities, TargetKey(ses, t), newId);
      && id in s'.affinities && s'.affinities[id].key == TargetKey(ses, t)
      && s'.affinities[id].raw == ses.raw && s'.affinities[id].effective == ses.effective
      && s'.affinities[id].last == now && s'.vectors[id] == ses.embedding
      && (id in s.affinities ==> s'.affinities[id].created == s.affinities[id].created)
      && (forall i :: i in s.affinities && s.affinities[i].key != TargetKey(ses, t) ==> s'.affinities[i] == s.affinities[i])
      && s'.affinities[id].count == (if id in s.affinities then Strengthen(s.affinities[id].count, cap) else 1)
      && s'.affinities.Keys == s.affinities.Keys + {id} && s'.vectors.Keys == s.vectors.Keys + {id}
      && (forall i :: i in s.vectors && i != id ==> s'.vectors[i] == s.vectors[i])
      && (forall e :: e in s.stats && e != t.entry ==> s'.stats[e] == s.stats[e])
  {
  }

  // ---- Main results ----

  function WithReceipt(s: Store, sid: Id, ts: seq<Target>, receipt: bool): seq<Id> {
    if ts == [] then []
    else (if ((sid, ts[0].entry) in s.receipts) == receipt then [ts[0].entry] else []) + WithReceipt(s, sid, ts[1..], receipt)
  }

  lemma {:induction false} TriageSplits(s: Store, c: Content, sid: Id, ts: seq<Target>)
    requires Distinct(Entries(ts)) && Triage(s, c, sid, ts).Ok?
    ensures var r := Triage(s, c, sid, ts).value;
      && Entries(r.novel) == WithReceipt(s, sid, ts, false) && Distinct(Entries(r.novel))
      && r.already == WithReceipt(s, sid, ts, true)
      && (forall e :: e in Entries(r.novel) ==> e in Entries(ts) && (sid, e) !in s.receipts)
      && (forall e :: e in Entries(ts) ==> e in Entries(r.novel) || (sid, e) in s.receipts)
  {
    if ts != [] {
      EntriesSplit(ts);
      TriageSplits(s, c, sid, ts[1..]);
      var r, rest := Triage(s, c, sid, ts).value, Triage(s, c, sid, ts[1..]).value;
      if (sid, ts[0].entry) !in s.receipts {
        assert r.novel[1..] == rest.novel && r.novel[0].entry == ts[0].entry;
        assert Entries(r.novel) == [ts[0].entry] + Entries(rest.novel);
      }
    }
  }

  /** The two sublists together are the request. */
  lemma {:induction false} SplitIsPartition(s: Store, sid: Id, ts: seq<Target>)
    ensures multiset(WithReceipt(s, sid, ts, true)) + multiset(WithReceipt(s, sid, ts, false)) == multiset(Entries(ts))
  {
    if ts != [] {
      SplitIsPartition(s, sid, ts[1..]);
    }
  }

  lemma {:induction false} EntriesAt(ts: seq<Target>, k: nat)
    requires k < |ts|
    ensures |Entries(ts)| == |ts| && Entries(ts)[k] == ts[k].entry
  {
    if k > 0 {
      EntriesAt(ts[1..], k - 1);
    } else if |ts| > 1 {
      EntriesAt(ts[1..], 0);
    }
  }

  lemma {:induction false} AdmittedDistinct(ts: seq<Target>)
    requires ts != [] && !Repeats(ts)
    ensures Distinct(Entries(ts))
  {
    EntriesAt(ts, 0);
    forall i, j | 0 <= i < j < |Entries(ts)|
      ensures Entries(ts)[i] != Entries(ts)[j]
    {
      EntriesAt(ts, i);
      EntriesAt(ts, j);
    }
  }

  lemma {:induction false} DropSessionsKeeps(s: Store, gone: set<Id>, cap: nat, now: Time)
    requires Consistent(s, cap, now)
    ensures Consistent(DropSessions(s, gone), cap, now)
  {
  }

  lemma {:induction false} ConsistentLater(s: Store, cap: nat, now: Time, later: Time)
    requires Consistent(s, cap, now) && now <= later
    ensures Consistent(s, cap, later)
  {
  }

  /**
   * Main result: an accepted request splits its targets, in order, into those applied now and those that
   * already had receipts; every target has a receipt afterwards, and the tables stay consistent.
   */
  lemma {:induction false} SubmitKeeps(s: Store, c: Content, now: Time, cap: nat, sid: Id, ts: seq<Target>,
                                       gate: Option<(Text, nat)>, newIds: seq<Id>)
    requires Consistent(s, cap, now) && cap >= 1 && |newIds| >= |ts| && FreshIds(s, newIds)
    requires Submit(s, c, now, cap, sid, ts, gate, newIds).Ok?
    ensures var (s', acc) := Submit(s, c, now, cap, sid, ts, gate, newIds).value;
      && Consistent(s', cap, now)
      && AppliedEntries(acc.applied) == WithReceipt(s, sid, ts, false)
      && acc.already == WithReceipt(s, sid, ts, true)
      && s'.receipts.Keys == s.receipts.Keys + ReceiptKeys(sid, Entries(ts))
      && s'.sessions == s.sessions && s'.results == s.results && s'.vecDim == s.vecDim
  {
    AdmittedDistinct(ts);
    SubmittedIs(s, c, now, cap, sid, ts, gate, newIds);
    NovelApplied(s, c, now, cap, sid, ts, newIds);
    var triaged := Triage(s, c, sid, ts).value;
    var r := ReinforceAll(s, sid, s.sessions[sid], triaged.novel, now, cap, newIds).value;
    assert triaged.already + r.1.already == triaged.already;
  }

  /** Applying the targets without receipt leaves receipts for all of them. */
  lemma {:induction false} NovelApplied(s: Store, c: Content, now: Time, cap: nat, sid: Id, ts: seq<Target>, newIds: seq<Id>)
    requires Consistent(s, cap, now) && cap >= 1 && FreshIds(s, newIds) && sid in s.sessions && Distinct(Entries(ts))
    requires Triage(s, c, sid, ts).Ok? && |Triage(s, c, sid, ts).value.novel| <= |newIds|
    requires ReinforceAll(s, sid, s.sessions[sid], Triage(s, c, sid, ts).value.novel, now, cap, newIds).Ok?
    ensures var triaged := Triage(s, c, sid, ts).value;
      var (s', acc) := ReinforceAll(s, sid, s.sessions[sid], triaged.novel, now, cap, newIds).value;
      && Consistent(s', cap, now)
      && AppliedEntries(acc.applied) == WithReceipt(s, sid, ts, false) && acc.already == []
      && triaged.already == WithReceipt(s, sid, ts, true)
      && s'.receipts.Keys == s.receipts.Keys + ReceiptKeys(sid, Entries(ts))
      && s'.sessions == s.sessions && s'.results == s.results && s'.vecDim == s.vecDim
  {
    TriageSplits(s, c, sid, ts);
    var novel := Triage(s, c, sid, ts).value.novel;
    ReinforceAllKeeps(s, sid, s.sessions[sid], novel, now, cap, newIds);
    SameReceipts(s.receipts.Keys, sid, Entries(novel), Entries(ts));
  }

  /** Accepted feedback is what the new targets make of the tables. */
  lemma {:induction false} SubmittedIs(s: Store, c: Content, now: Time, cap: nat, sid: Id, ts: seq<Target>,
                                       gate: Option<(Text, nat)>, newIds: seq<Id>)
    requires |newIds| >= |ts| && Submit(s, c, now, cap, sid, ts, gate, newIds).Ok?
    ensures sid in s.sessions && Triage(s, c, sid, ts).Ok? && |Triage(s, c, sid, ts).value.novel| <= |newIds|
    ensures var triaged := Triage(s, c, sid, ts).value;
      var r := ReinforceAll(s, sid, s.sessions[sid], triaged.novel, now, cap, newIds);
      && r.Ok?
      && Submit(s, c, now, cap, sid, ts, gate, newIds).value
         == (r.value.0, r.value.1.(already := triaged.already + r.value.1.already))
  {
    TriageShrinks(s, c, sid, ts);
  }

  lemma {:induction false} SameReceipts(keys: set<(Id, Id)>, sid: Id, some: seq<Id>, all: seq<Id>)
    requires forall e :: e in some ==> e in all
    requires forall e :: e in all ==> e in some || (sid, e) in keys
    ensures keys + ReceiptKeys(sid, some) == keys + ReceiptKeys(sid, all)
  {
  }

  lemma {:induction false} TriageAllReceipted(s: Store, c: Content, sid: Id, ts: seq<Target>)
    requires forall t :: t in ts ==> (sid, t.entry) in s.receipts
    ensures Triage(s, c, sid, ts) == Ok(Triaged([], Entries(ts)))
  {
    if ts != [] {
      TriageAllReceipted(s, c, sid, ts[1..]);
    }
  }

  /** Main result: an admitted request whose targets all have receipts changes nothing, whatever the content index says now. */
  lemma {:induction false} RetryChangesNothing(s: Store, c: Content, now: Time, cap: nat, sid: Id, ts: seq<Target>,
                                               gate: Option<(Text, nat)>, newIds: seq<Id>)
    requires Admit(s, now, sid, ts, gate).None? && |newIds| >= |ts|
    requires forall t :: t in ts ==> (sid, t.entry) in s.receipts
    ensures Submit(s, c, now, cap, sid, ts, gate, newIds) == Ok((s, Accepted([], Entries(ts))))
  {
    TriageAllReceipted(s, c, sid, ts);
    assert Entries(ts) + [] == Entries(ts);
  }

  // ---- Exactly which requests are accepted ----

  /** The session is known and open, some entries are named, none twice, and the gate is the session's embedding. */
  ghost predicate FitsSession(s: Store, now: Time, sid: Id, ts: seq<Target>, gate: Option<(Text, nat)>) {
    && sid in s.sessions && now < s.sessions[sid].expires
    && ts != [] && (forall i, j :: 0 <= i < j < |ts| ==> ts[i].entry != ts[j].entry)
    && (gate.Some? ==> gate.value.0 == s.sessions[sid].model && gate.value.1 == s.sessions[sid].dim)
  }

  /** The session returned the entry, which exists, and whatever precision is given is the recorded one and the entry's own. */
  ghost predicate Justified(s: Store, c: Content, sid: Id, t: Target) {
    && (sid, t.entry) in s.results && t.entry in c.entries
    && (t.block.Some? ==>
          && s.results[(sid, t.entry)].block == t.block
          && t.block.value in c.blocks && c.blocks[t.block.value] == t.entry)
    && (t.chunk.Some? ==>
          && s.results[(sid, t.entry)].chunk == t.chunk
          && t.chunk.value in c.chunks && c.chunks[t.chunk.value] in c.blocks && c.blocks[c.chunks[t.chunk.value]] == t.entry
          && (t.block.Some? ==> t.block.value == c.chunks[t.chunk.value]))
  }

  /** A chunk is kept under the block it lies in, anything else under the block given. */
  function Canonical(c: Content, t: Target): Target {
    Target(t.entry, if t.chunk.Some? && t.chunk.value in c.chunks then Some(c.chunks[t.chunk.value]) else t.block, t.chunk)
  }

  /** A target is valid exactly when it is justified, and becomes its canonical form. */
  lemma {:induction false} ValidExactly(s: Store, c: Content, sid: Id, t: Target)
    ensures Validate(s, c, sid, t).Ok? <==> Justified(s, c, sid, t)
    ensures Validate(s, c, sid, t).Ok? ==> Validate(s, c, sid, t).value == Canonical(c, t)
  {
  }

  ghost predicate IsNovel(s: Store, sid: Id, ts: seq<Target>, t: Target) {
    t in ts && (sid, t.entry) !in s.receipts
  }

  lemma {:induction false} TriageExactly(s: Store, c: Content, sid: Id, ts: seq<Target>)
    ensures Triage(s, c, sid, ts).Ok? <==> forall t :: IsNovel(s, sid, ts, t) ==> Justified(s, c, sid, t)
    ensures Triage(s, c, sid, ts).Ok? ==>
      forall t' :: t' in Triage(s, c, sid, ts).value.novel <==> exists t :: IsNovel(s, sid, ts, t) && t' == Canonical(c, t)
  {
    if ts != [] {
      var first, rest := ts[0], ts[1..];
      TriageExactly(s, c, sid, rest);
      ValidExactly(s, c, sid, first);
      forall t
        ensures IsNovel(s, sid, ts, t) <==> (t == first && (sid, t.entry) !in s.receipts) || IsNovel(s, sid, rest, t)
      {
        assert ts == [first] + rest;
      }
      if (sid, first.entry) !in s.receipts {
        assert IsNovel(s, sid, ts, first);
      }
    }
  }

  lemma {:induction false} AdmittedExactly(s: Store, now: Time, sid: Id, ts: seq<Target>, gate: Option<(Text, nat)>)
    ensures Admit(s, now, sid, ts, gate).None? <==> FitsSession(s, now, sid, ts, gate)
  {
  }

  lemma {:induction false} SomeNovel(s: Store, c: Content, sid: Id, ts: seq<Target>)
    requires Triage(s, c, sid, ts).Ok?
    ensures Triage(s, c, sid, ts).value.novel == [] <==> forall t :: !IsNovel(s, sid, ts, t)
  {
    TriageExactly(s, c, sid, ts);
    var novel := Triage(s, c, sid, ts).value.novel;
    if novel != [] {
      assert novel[0] in novel;
    }
    forall t | IsNovel(s, sid, ts, t)
      ensures Canonical(c, t) in novel
    {
    }
  }

  /** What the request needs to be accepted, in terms of the tables and the content index alone. */
  ghost predicate Acceptable(s: Store, c: Content, now: Time, sid: Id, ts: seq<Target>, gate: Option<(Text, nat)>) {
    && FitsSession(s, now, sid, ts, gate)
    && forall t :: IsNovel(s, sid, ts, t) ==> Justified(s, c, sid, t) && |s.sessions[sid].embedding| == s.vecDim
  }

  /** The loop goes through exactly when nothing is to be written or the embedding fits the vector table. */
  lemma {:induction false} LoopRuns(s: Store, sid: Id, ses: Session, ts: seq<Target>, now: Time, cap: nat, newIds: seq<Id>)
    requires |newIds| >= |ts| && Distinct(Entries(ts)) && forall e :: e in Entries(ts) ==> (sid, e) !in s.receipts
    ensures ReinforceAll(s, sid, ses, ts, now, cap, newIds).Ok? <==> ts == [] || |ses.embedding| == s.vecDim
    decreases |ts|
  {
    if ts != [] {
      EntriesSplit(ts);
      if |ses.embedding| == s.vecDim {
        LoopRuns(Reinforce(s, sid, ses, ts[0], now, cap, newIds[0]), sid, ses, ts[1..], now, cap, newIds[1..]);
      }
    }
  }

  /** Main result: a request is accepted if and only if it fits its session and every target without a receipt is justified. */
  lemma {:induction false} AcceptedExactly(s: Store, c: Content, now: Time, cap: nat, sid: Id, ts: seq<Target>,
                                           gate: Option<(Text, nat)>, newIds: seq<Id>)
    requires |newIds| >= |ts|
    ensures Submit(s, c, now, cap, sid, ts, gate, newIds).Ok? <==> Acceptable(s, c, now, sid, ts, gate)
  {
    AdmittedExactly(s, now, sid, ts, gate);
    TriageExactly(s, c, sid, ts);
    TriageShrinks(s, c, sid, ts);
    if Admit(s, now, sid, ts, gate).None? && Triage(s, c, sid, ts).Ok? {
      SomeNovel(s, c, sid, ts);
      AdmittedDistinct(ts);
      TriageSplits(s, c, sid, ts);
      LoopRuns(s, sid, s.sessions[sid], Triage(s, c, sid, ts).value.novel, now, cap, newIds);
    }
  }

  // ---- What an accepted request leaves ----

  /** Nothing of the entry differs: its receipt in the session, its stats, its affinity rows and their vectors. */
  ghost predicate SparesEntry(s: Store, s': Store, sid: Id, e: Id) {
    && ((sid, e) in s'.receipts <==> (sid, e) in s.receipts)
    && ((sid, e) in s.receipts ==> s'.receipts[(sid, e)] == s.receipts[(sid, e)])
    && (e in s'.stats <==> e in s.stats) && (e in s.stats ==> s'.stats[e] == s.stats[e])
    && (forall i :: RowOf(s', i, e) <==> RowOf(s, i, e))
    && (forall i :: RowOf(s, i, e) ==> SameRow(s, s', i))
  }

  ghost predicate RowOf(s: Store, i: Id, e: Id) {
    i in s.affinities && s.affinities[i].key.entry == e
  }

  ghost predicate SameRow(s: Store, s': Store, i: Id) {
    && i in s.affinities && i in s'.affinities && s'.affinities[i] == s.affinities[i]
    && VectorOf(s'.vectors, i) == VectorOf(s.vectors, i)
  }

  /** One more than before, but not beyond the cap. */
  ghost predicate Raised(before: nat, after: nat, cap: nat) {
    if before < cap then after == before + 1 else after == before
  }

  /** Row `i` carries the session's example for the kept target, and is the entry's only row that changed. */
  ghost predicate RecordedAt(s: Store, s': Store, ses: Session, t: Target, now: Time, cap: nat, i: Id) {
    && i in s'.affinities && i in s'.vectors && s'.vectors[i] == ses.embedding
    && s'.affinities[i].key == Key(ses.hash, ses.model, t.entry, t.block, t.chunk)
    && s'.affinities[i].raw == ses.raw && s'.affinities[i].effective == ses.effective && s'.affinities[i].dim == ses.dim
    && s'.affinities[i].last == now && s'.affinities[i].updated == now
    && (if i in s.affinities
        then s.affinities[i].key == s'.affinities[i].key && s'.affinities[i].created == s.affinities[i].created
             && Raised(s.affinities[i].count, s'.affinities[i].count, cap)
        else s'.affinities[i].created == now && s'.affinities[i].count == 1
             && forall j :: RowOf(s, j, t.entry) ==> s.affinities[j].key != s'.affinities[i].key)
    && (forall j :: j != i ==> (RowOf(s', j, t.entry) <==> RowOf(s, j, t.entry)))
    && (forall j :: j != i && RowOf(s, j, t.entry) ==> SameRow(s, s', j))
  }

  /** Receipt, stats, affinity and answer for one kept target. */
  ghost predicate Recorded(s: Store, s': Store, applied: seq<Applied>, sid: Id, ses: Session, t: Target, now: Time, cap: nat) {
    && (sid, t.entry) in s'.receipts && s'.receipts[(sid, t.entry)] == Receipt(t.block, t.chunk, now)
    && t.entry in s'.stats && s'.stats[t.entry].last == now && s'.stats[t.entry].updated == now
    && (if t.entry in s.stats then Raised(s.stats[t.entry].count, s'.stats[t.entry].count, cap) else s'.stats[t.entry].count == 1)
    && exists i :: RecordedAt(s, s', ses, t, now, cap, i)
                   && Applied(t.entry, s'.stats[t.entry].count, s'.affinities[i].count, now) in applied
  }

  lemma {:induction false} ReinforceOnRow(s: Store, sid: Id, ses: Session, t: Target, now: Time, cap: nat, newId: Id)
    requires newId !in s.affinities
    ensures var s', i := Reinforce(s, sid, ses, t, now, cap, newId), UpsertId(s.affinities, TargetKey(ses, t), newId);
      RecordedAt(s, s', ses, t, now, cap, i) && s'.affinities[i].count == AppliedTo(s, ses, t, now, cap, newId).affinityCount
  {
    var i := UpsertId(s.affinities, TargetKey(ses, t), newId);
    forall j | RowOf(s, j, t.entry) && i !in s.affinities
      ensures s.affinities[j].key != TargetKey(ses, t)
    {
      assert !RowHolds(s.affinities, j, TargetKey(ses, t));
    }
  }

  lemma {:induction false} ReinforceRecordsTarget(s: Store, sid: Id, ses: Session, t: Target, now: Time, cap: nat, newId: Id)
    requires newId !in s.affinities
    ensures Recorded(s, Reinforce(s, sid, ses, t, now, cap, newId), [AppliedTo(s, ses, t, now, cap, newId)], sid, ses, t, now, cap)
  {
    ReinforceOnRow(s, sid, ses, t, now, cap, newId);
    var s', i := Reinforce(s, sid, ses, t, now, cap, newId), UpsertId(s.affinities, TargetKey(ses, t), newId);
    assert Applied(t.entry, s'.stats[t.entry].count, s'.affinities[i].count, now) == AppliedTo(s, ses, t, now, cap, newId);
  }

  lemma {:induction false} ReinforceSparesOthers(s: Store, sid: Id, ses: Session, t: Target, now: Time, cap: nat, newId: Id, e: Id)
    requires newId !in s.affinities && e != t.entry
    ensures SparesEntry(s, Reinforce(s, sid, ses, t, now, cap, newId), sid, e)
  {
    var i := UpsertId(s.affinities, TargetKey(ses, t), newId);
    assert !RowOf(s, i, e);
  }

  lemma {:induction false} SparesTwice(s: Store, mid: Store, s': Store, sid: Id, e: Id)
    requires SparesEntry(s, mid, sid, e) && SparesEntry(mid, s', sid, e)
    ensures SparesEntry(s, s', sid, e)
  {
    forall i | RowOf(s, i, e)
      ensures SameRow(s, s', i)
    {
      assert RowOf(mid, i, e) && SameRow(s, mid, i) && SameRow(mid, s', i);
    }
  }

  /** What is recorded for a target stays while only other entries are worked on. */
  lemma {:induction false} RecordedStays(s: Store, mid: Store, s': Store, some: seq<Applied>, all: seq<Applied>, sid: Id, ses: Session,
                                         t: Target, now: Time, cap: nat)
    requires Recorded(s, mid, some, sid, ses, t, now, cap) && SparesEntry(mid, s', sid, t.entry)
    requires forall a :: a in some ==> a in all
    ensures Recorded(s, s', all, sid, ses, t, now, cap)
  {
    var i :| RecordedAt(s, mid, ses, t, now, cap, i) && Applied(t.entry, mid.stats[t.entry].count, mid.affinities[i].count, now) in some;
    RecordedRowStays(s, mid, s', sid, ses, t, now, cap, i);
  }

  lemma {:induction false} RecordedRowStays(s: Store, mid: Store, s': Store, sid: Id, ses: Session, t: Target, now: Time, cap: nat, i: Id)
    requires RecordedAt(s, mid, ses, t, now, cap, i) && SparesEntry(mid, s', sid, t.entry)
    ensures RecordedAt(s, s', ses, t, now, cap, i) && s'.affinities[i] == mid.affinities[i]
  {
    assert RowOf(mid, i, t.entry) && SameRow(mid, s', i);
    forall j | j != i && RowOf(s, j, t.entry)
      ensures SameRow(s, s', j)
    {
      assert RowOf(mid, j, t.entry) && SameRow(s, mid, j) && SameRow(mid, s', j);
    }
  }

  /** Work on other entries before does not matter either. */
  lemma {:induction false} RecordedFromEarlier(s: Store, mid: Store, s': Store, some: seq<Applied>, all: seq<Applied>, sid: Id, ses: Session,
                                               t: Target, now: Time, cap: nat)
    requires SparesEntry(s, mid, sid, t.entry) && Recorded(mid, s', some, sid, ses, t, now, cap)
    requires forall a :: a in some ==> a in all
    requires s.affinities.Keys <= mid.affinities.Keys
    ensures Recorded(s, s', all, sid, ses, t, now, cap)
  {
    var i :| RecordedAt(mid, s', ses, t, now, cap, i) && Applied(t.entry, s'.stats[t.entry].count, s'.affinities[i].count, now) in some;
    RecordedRowFromEarlier(s, mid, s', sid, ses, t, now, cap, i);
  }

  lemma {:induction false} RecordedRowFromEarlier(s: Store, mid: Store, s': Store, sid: Id, ses: Session, t: Target, now: Time, cap: nat, i: Id)
    requires SparesEntry(s, mid, sid, t.entry) && RecordedAt(mid, s', ses, t, now, cap, i) && s.affinities.Keys <= mid.affinities.Keys
    ensures RecordedAt(s, s', ses, t, now, cap, i)
  {
    if i in mid.affinities {
      assert RowOf(mid, i, t.entry) && RowOf(s, i, t.entry) && SameRow(s, mid, i);
    }
    forall j | RowOf(s, j, t.entry)
      ensures RowOf(mid, j, t.entry) && SameRow(s, mid, j)
    {
    }
  }

  /** The loop records every target and touches no other entry. */
  lemma {:induction false} LoopRecords(s: Store, sid: Id, ses: Session, ts: seq<Target>, now: Time, cap: nat, newIds: seq<Id>)
    requires |newIds| >= |ts| && FreshIds(s, newIds) && (ts == [] || |ses.embedding| == s.vecDim)
    requires Distinct(Entries(ts)) && forall e :: e in Entries(ts) ==> (sid, e) !in s.receipts
    ensures var r := ReinforceAll(s, sid, ses, ts, now, cap, newIds);
      && r.Ok?
      && (forall t :: t in ts ==> Recorded(s, r.value.0, r.value.1.applied, sid, ses, t, now, cap))
      && (forall e :: e !in Entries(ts) ==> SparesEntry(s, r.value.0, sid, e))
    decreases |ts|
  {
    LoopRuns(s, sid, ses, ts, now, cap, newIds);
    if ts != [] {
      EntriesSplit(ts);
      assert newIds[0] in newIds;
      var first, rest, mid := ts[0], ts[1..], Reinforce(s, sid, ses, ts[0], now, cap, newIds[0]);
      ReinforceOnRow(s, sid, ses, first, now, cap, newIds[0]);
      FreshIdsShrink(s, mid, newIds);
      LoopRecords(mid, sid, ses, rest, now, cap, newIds[1..]);
      var r, after := ReinforceAll(s, sid, ses, ts, now, cap, newIds), ReinforceAll(mid, sid, ses, rest, now, cap, newIds[1..]);
      assert r.value.0 == after.value.0 && r.value.1.applied == [AppliedTo(s, ses, first, now, cap, newIds[0])] + after.value.1.applied;
      FirstRecorded(s, sid, ses, first, now, cap, newIds[0], after.value.0, r.value.1.applied);
      forall t | t in rest
        ensures Recorded(s, r.value.0, r.value.1.applied, sid, ses, t, now, cap)
      {
        EntryListed(rest, t);
        ReinforceSparesOthers(s, sid, ses, first, now, cap, newIds[0], t.entry);
        RecordedFromEarlier(s, mid, after.value.0, after.value.1.applied, r.value.1.applied, sid, ses, t, now, cap);
      }
      forall e | e !in Entries(ts)
        ensures SparesEntry(s, r.value.0, sid, e)
      {
        ReinforceSparesOthers(s, sid, ses, first, now, cap, newIds[0], e);
        SparesTwice(s, mid, after.value.0, sid, e);
      }
    }
  }

  lemma {:induction false} EntryListed(ts: seq<Target>, t: Target)
    requires t in ts
    ensures t.entry in Entries(ts)
  {
    var k :| 0 <= k < |ts| && ts[k] == t;
    EntriesAt(ts, k);
  }

  lemma {:induction false} FirstRecorded(s: Store, sid: Id, ses: Session, t: Target, now: Time, cap: nat, newId: Id,
                                         s': Store, applied: seq<Applied>)
    requires newId !in s.affinities && AppliedTo(s, ses, t, now, cap, newId) in applied
    requires SparesEntry(Reinforce(s, sid, ses, t, now, cap, newId), s', sid, t.entry)
    ensures Recorded(s, s', applied, sid, ses, t, now, cap)
  {
    ReinforceRecordsTarget(s, sid, ses, t, now, cap, newId);
    RecordedStays(s, Reinforce(s, sid, ses, t, now, cap, newId), s', [AppliedTo(s, ses, t, now, cap, newId)], applied, sid, ses, t, now, cap);
  }

  /**
   * Main result: acceptance records every target that had no receipt, a chunk under the block it lies in and anything
   * else under the block given, and leaves everything of every other entry as it was.
   */
  lemma {:induction false} AcceptanceRecords(s: Store, c: Content, now: Time, cap: nat, sid: Id, ts: seq<Target>,
                                             gate: Option<(Text, nat)>, newIds: seq<Id>)
    requires |newIds| >= |ts| && FreshIds(s, newIds) && Submit(s, c, now, cap, sid, ts, gate, newIds).Ok?
    ensures sid in s.sessions
    ensures var (s', acc) := Submit(s, c, now, cap, sid, ts, gate, newIds).value;
      forall t :: IsNovel(s, sid, ts, t) ==>
        && (t.chunk.Some? ==> t.chunk.value in c.chunks)
        && Recorded(s, s', acc.applied, sid, s.sessions[sid],
                    Target(t.entry, if t.chunk.Some? then Some(c.chunks[t.chunk.value]) else t.block, t.chunk), now, cap)
    ensures var s' := Submit(s, c, now, cap, sid, ts, gate, newIds).value.0;
      forall e :: (forall t :: IsNovel(s, sid, ts, t) ==> t.entry != e) ==> SparesEntry(s, s', sid, e)
  {
    AdmittedDistinct(ts);
    SubmittedIs(s, c, now, cap, sid, ts, gate, newIds);
    TriageSplits(s, c, sid, ts);
    var ses, novel := s.sessions[sid], Triage(s, c, sid, ts).value.novel;
    LoopRuns(s, sid, ses, novel, now, cap, newIds);
    LoopRecords(s, sid, ses, novel, now, cap, newIds);
    var (s', acc) := ReinforceAll(s, sid, ses, novel, now, cap, newIds).value;
    forall t | IsNovel(s, sid, ts, t)
      ensures t.chunk.Some? ==> t.chunk.value in c.chunks
      ensures Recorded(s, s', acc.applied, sid, ses,
                       Target(t.entry, if t.chunk.Some? then Some(c.chunks[t.chunk.value]) else t.block, t.chunk), now, cap)
    {
      NovelIsKept(s, c, sid, ts, t);
    }
    forall e | (forall t :: IsNovel(s, sid, ts, t) ==> t.entry != e)
      ensures SparesEntry(s, s', sid, e)
    {
      if e in Entries(novel) {
        NovelEntries(s, c, sid, ts, e);
      }
    }
  }

  lemma {:induction false} NovelIsKept(s: Store, c: Content, sid: Id, ts: seq<Target>, t: Target)
    requires Triage(s, c, sid, ts).Ok? && IsNovel(s, sid, ts, t)
    ensures t.chunk.Some? ==> t.chunk.value in c.chunks
    ensures Target(t.entry, if t.chunk.Some? then Some(c.chunks[t.chunk.value]) else t.block, t.chunk)
            in Triage(s, c, sid, ts).value.novel
  {
    TriageExactly(s, c, sid, ts);
    assert Justified(s, c, sid, t);
    assert Canonical(c, t) in Triage(s, c, sid, ts).value.novel;
  }

  lemma {:induction false} NovelEntries(s: Store, c: Content, sid: Id, ts: seq<Target>, e: Id)
    requires Triage(s, c, sid, ts).Ok? && e in Entries(Triage(s, c, sid, ts).value.novel)
    ensures exists t :: IsNovel(s, sid, ts, t) && t.entry == e
  {
    var novel := Triage(s, c, sid, ts).value.novel;
    TriageExactly(s, c, sid, ts);
    var t' := EntryOfSome(novel, e);
    var t :| IsNovel(s, sid, ts, t) && t' == Canonical(c, t);
  }

  lemma {:induction false} EntryOfSome(ts: seq<Target>, e: Id) returns (t: Target)
    requires e in Entries(ts)
    ensures t in ts && t.entry == e
  {
    if e == ts[0].entry {
      t := ts[0];
    } else {
      t := EntryOfSome(ts[1..], e);
    }
  }

  // ---- Refusals tell the truth ----

  /** Some target without a receipt fails in this way. */
  ghost predicate Blames(s: Store, sid: Id, ts: seq<Target>, e: Id, t: Target) {
    IsNovel(s, sid, ts, t) && t.entry == e
  }

  ghost predicate Warranted(s: Store, c: Content, now: Time, sid: Id, ts: seq<Target>, gate: Option<(Text, nat)>, refusal: Refusal) {
    match refusal
    case SessionNotFound => sid !in s.sessions
    case SessionExpired => sid in s.sessions && s.sessions[sid].expires <= now
    case NoTargets => ts == []
    case DuplicateTarget => exists i, j :: 0 <= i < j < |ts| && ts[i].entry == ts[j].entry
    case EmbeddingMismatch => sid in s.sessions && gate.Some? && gate.value != (s.sessions[sid].model, s.sessions[sid].dim)
    case NotReturned(e) => exists t :: Blames(s, sid, ts, e, t) && (sid, e) !in s.results
    case EntryMissing(e) => exists t :: Blames(s, sid, ts, e, t) && e !in c.entries
    case BlockMismatch(e) =>
      exists t :: Blames(s, sid, ts, e, t) && (sid, e) in s.results && t.block.Some? && s.results[(sid, e)].block != t.block
    case BlockNotOwned(e) =>
      exists t :: Blames(s, sid, ts, e, t) && t.block.Some? && !(t.block.value in c.blocks && c.blocks[t.block.value] == e)
    case ChunkMismatch(e) =>
      exists t :: Blames(s, sid, ts, e, t) && (sid, e) in s.results && t.chunk.Some? && s.results[(sid, e)].chunk != t.chunk
    case ChunkNotOwned(e) =>
      exists t :: Blames(s, sid, ts, e, t) && t.chunk.Some?
                  && !(t.chunk.value in c.chunks && c.chunks[t.chunk.value] in c.blocks && c.blocks[c.chunks[t.chunk.value]] == e)
    case ChunkOutsideBlock(e) =>
      exists t :: Blames(s, sid, ts, e, t) && t.chunk.Some? && t.block.Some? && t.chunk.value in c.chunks
                  && t.block.value != c.chunks[t.chunk.value]
    case VectorRejected => sid in s.sessions && |s.sessions[sid].embedding| != s.vecDim && exists t :: IsNovel(s, sid, ts, t)
  }

  lemma {:induction false} TriageBlames(s: Store, c: Content, now: Time, sid: Id, ts: seq<Target>, gate: Option<(Text, nat)>, all: seq<Target>)
    requires Triage(s, c, sid, ts).Err? && forall t :: t in ts ==> t in all
    ensures Warranted(s, c, now, sid, all, gate, Triage(s, c, sid, ts).error)
  {
    if (sid, ts[0].entry) in s.receipts || Validate(s, c, sid, ts[0]).Ok? {
      TriageBlames(s, c, now, sid, ts[1..], gate, all);
    } else {
      assert Blames(s, sid, all, ts[0].entry, ts[0]);
    }
  }

  lemma {:induction false} LoopRefuses(s: Store, sid: Id, ses: Session, ts: seq<Target>, now: Time, cap: nat, newIds: seq<Id>)
    requires |newIds| >= |ts| && ReinforceAll(s, sid, ses, ts, now, cap, newIds).Err?
    ensures ts != [] && ReinforceAll(s, sid, ses, ts, now, cap, newIds).error == VectorRejected
    decreases |ts|
  {
    if (sid, ts[0].entry) in s.receipts {
      LoopRefuses(s, sid, ses, ts[1..], now, cap, newIds[1..]);
    } else if |ses.embedding| == s.vecDim {
      LoopRefuses(Reinforce(s, sid, ses, ts[0], now, cap, newIds[0]), sid, ses, ts[1..], now, cap, newIds[1..]);
    }
  }

  /** Whatever reason is given for a refusal holds. */
  lemma {:induction false} RefusalsAreTrue(s: Store, c: Content, now: Time, cap: nat, sid: Id, ts: seq<Target>,
                                           gate: Option<(Text, nat)>, newIds: seq<Id>)
    requires |newIds| >= |ts| && Submit(s, c, now, cap, sid, ts, gate, newIds).Err?
    ensures Warranted(s, c, now, sid, ts, gate, Submit(s, c, now, cap, sid, ts, gate, newIds).error)
  {
    if Admit(s, now, sid, ts, gate).None? {
      TriageShrinks(s, c, sid, ts);
      if Triage(s, c, sid, ts).Err? {
        TriageBlames(s, c, now, sid, ts, gate, ts);
      } else {
        var novel := Triage(s, c, sid, ts).value.novel;
        LoopRefuses(s, sid, s.sessions[sid], novel, now, cap, newIds);
        AdmittedDistinct(ts);
        TriageSplits(s, c, sid, ts);
        LoopRuns(s, sid, s.sessions[sid], novel, now, cap, newIds);
        SomeNovel(s, c, sid, ts);
      }
    }
  }
}
