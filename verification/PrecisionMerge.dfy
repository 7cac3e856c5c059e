/**
 * Clearing block/chunk precision row by row, merging rows that collapse to one target.
 * The row-by-row pass is shown to be a group-by over the target keys.
 */
module PrecisionMerge {
  import opened Prelude
  import opened SignalTables

  /** The two affinity tables: ordinary rows and their vectors. */
  datatype Index = Index(rows: map<Id, Affinity>, vectors: map<Id, Vector>)

  /** Vector rows whose affinity row is gone. */
  function Orphans(ix: Index): set<Id> {
    ix.vectors.Keys - ix.rows.Keys
  }

  datatype Update = Update(id: Id, block: Option<Id>, chunk: Option<Id>)

  datatype Outcome = Outcome(index: Index, degraded: nat, dropped: nat)

  function Retarget(k: Key, u: Update): Key {
    k.(block := u.block, chunk := u.chunk)
  }

  ghost predicate Holds(rows: map<Id, Affinity>, i: Id, other: Id, k: Key) {
    i in rows && i != other && rows[i].key == k
  }

  /** The row, other than `other`, that occupies key `k`. */
  ghost function Occupant(rows: map<Id, Affinity>, other: Id, k: Key): (o: Option<Id>)
    ensures o.Some? ==> Holds(rows, o.value, other, k)
    ensures o.None? ==> forall i :: !Holds(rows, i, other, k)
  {
    if exists i :: Holds(rows, i, other, k) then
      var i :| Holds(rows, i, other, k); Some(i)
    else None
  }

  /** Whether the degraded row's example replaces the survivor's. */
  predicate IsLatest(id: Id, degraded: Affinity, survivorId: Id, survivor: Affinity) {
    || degraded.last > survivor.last
    || (degraded.last == survivor.last
        && (degraded.updated > survivor.updated
            || (degraded.updated == survivor.updated && id > survivorId)))
  }

  function MergeRows(id: Id, degraded: Affinity, survivorId: Id, survivor: Affinity): Affinity {
    var example := if IsLatest(id, degraded, survivorId, survivor) then degraded else survivor;
    survivor.(raw := example.raw, effective := example.effective, dim := example.dim,
              count := Max(degraded.count, survivor.count),
              last := if degraded.last > survivor.last then degraded.last else survivor.last,
              created := if degraded.created < survivor.created then degraded.created else survivor.created,
              updated := if degraded.updated > survivor.updated then degraded.updated else survivor.updated)
  }

  function VectorOf(vectors: map<Id, Vector>, i: Id): Option<Vector> {
    if i in vectors then Some(vectors[i]) else None
  }

  function MergeVectors(latest: bool, degraded: Option<Vector>, survivor: Option<Vector>): Option<Vector> {
    if latest then (if degraded.Some? then degraded else survivor)
    else (if survivor.Some? then survivor else degraded)
  }

  function PutVector(vectors: map<Id, Vector>, i: Id, v: Option<Vector>): map<Id, Vector> {
    if v.Some? then vectors[i := v.value] else vectors
  }

  function MergeInto(ix: Index, id: Id, survivorId: Id): Index
    requires id in ix.rows && survivorId in ix.rows
  {
    var degraded, survivor := ix.rows[id], ix.rows[survivorId];
    var v := MergeVectors(IsLatest(id, degraded, survivorId, survivor),
                          VectorOf(ix.vectors, id), VectorOf(ix.vectors, survivorId));
    Index(ix.rows[survivorId := MergeRows(id, degraded, survivorId, survivor)] - {id},
          PutVector(ix.vectors - {survivorId, id}, survivorId, v))
  }

  function Dropped(vectors: map<Id, Vector>, id: Id, survivorId: Id): nat {
    if id in vectors && survivorId in vectors then 1 else 0
  }

  ghost function Step(ix: Index, u: Update): Outcome {
    if u.id !in ix.rows then Outcome(ix, 0, 0)
    else
      var target := Retarget(ix.rows[u.id].key, u);
      match Occupant(ix.rows, u.id, target)
      case None => Outcome(ix.(rows := ix.rows[u.id := ix.rows[u.id].(key := target)]), 1, 0)
      case Some(survivor) => Outcome(MergeInto(ix, u.id, survivor), 1, Dropped(ix.vectors, u.id, survivor))
  }

  ghost function Degrade(ix: Index, us: seq<Update>): Outcome
    decreases |us|
  {
    if us == [] then Outcome(ix, 0, 0)
    else
      var first := Step(ix, us[0]);
      var rest := Degrade(first.index, us[1..]);
      Outcome(rest.index, first.degraded + rest.degraded, first.dropped + rest.dropped)
  }

  function Ids(us: seq<Update>): set<Id> {
    if us == [] then {} else {us[0].id} + Ids(us[1..])
  }

  predicate NoRepeats(us: seq<Update>) {
    us == [] || (us[0].id !in Ids(us[1..]) && NoRepeats(us[1..]))
  }

  /** The key each row ends under: its own, or the one its update asks for. */
  function Targets(rows: map<Id, Affinity>, us: seq<Update>): (t: map<Id, Key>)
    ensures t.Keys == rows.Keys
    ensures forall i :: i in rows && i !in Ids(us) ==> t[i] == rows[i].key
  {
    if us == [] then map i | i in rows :: rows[i].key
    else if us[0].id in rows then Targets(rows, us[1..])[us[0].id := Retarget(rows[us[0].id].key, us[0])]
    else Targets(rows, us[1..])
  }

  /** Each row is updated once, and no row to be updated already sits at a target: what every caller builds. */
  ghost predicate Separated(rows: map<Id, Affinity>, us: seq<Update>) {
    && NoRepeats(us)
    && Ids(us) <= rows.Keys
    && forall i, j :: i in Ids(us) && j in Ids(us) ==> rows[j].key != Targets(rows, us)[i]
  }

  /** The example columns of a row: what the provider embedded. */
  ghost predicate SameExample(a: Affinity, b: Affinity) {
    a.raw == b.raw && a.effective == b.effective && a.dim == b.dim
  }

  /** `row` carries `j`'s example, and its vector whenever `j` had one. */
  ghost predicate ExampleFrom(ix: Index, row: Affinity, vector: Option<Vector>, j: Id)
    requires j in ix.rows
  {
    && SameExample(row, ix.rows[j])
    && (j in ix.vectors ==> vector == Some(ix.vectors[j]))
  }

  /** For one aggregate row, the original rows its columns come from. */
  datatype Sources = Sources(count: Id, created: Id, updated: Id, example: Id, vector: Id)

  ghost predicate Below(a: Affinity, va: Option<Vector>, b: Affinity, vb: Option<Vector>) {
    && a.count <= b.count && a.last <= b.last && b.created <= a.created && a.updated <= b.updated
    && (va.Some? ==> vb.Some?)
  }

  ghost predicate Sourced(ix: Index, ms: set<Id>, row: Affinity, vector: Option<Vector>, src: Sources)
    requires ms <= ix.rows.Keys
  {
    && src.count in ms && ix.rows[src.count].count == row.count
    && src.created in ms && ix.rows[src.created].created == row.created
    && src.updated in ms && ix.rows[src.updated].updated == row.updated
    && src.example in ms && ix.rows[src.example].last == row.last
    && ExampleFrom(ix, row, vector, src.example)
    && (vector.Some? ==> src.vector in ms && src.vector in ix.vectors && vector.value == ix.vectors[src.vector])
  }

  /**
   * `row` is the group-by aggregate of the members `ms`: maximal count, time and update, minimal
   * creation, and one member's example among those reinforced last; it has a vector iff a member has.
   */
  ghost predicate Aggregates(ix: Index, ms: set<Id>, row: Affinity, vector: Option<Vector>) {
    && ms <= ix.rows.Keys
    && (forall j :: j in ms ==> Below(ix.rows[j], VectorOf(ix.vectors, j), row, vector))
    && exists src :: Sourced(ix, ms, row, vector, src)
  }

  /** The rows of class `k`, leaving out the rows `ids` still to be processed. */
  function Members(targets: map<Id, Key>, ids: set<Id>, k: Key): set<Id> {
    set j | j in targets && j !in ids && targets[j] == k
  }

  /** Row `i`, not pending, holds key `k`. */
  ghost predicate Sits(rows: map<Id, Affinity>, ids: set<Id>, i: Id, k: Key) {
    i in rows && i !in ids && rows[i].key == k
  }

  ghost predicate Occupied(rows: map<Id, Affinity>, k: Key) {
    exists i :: Sits(rows, {}, i, k)
  }

  /** `out` is the group-by of `ix` under `targets`: one aggregate row per class, named after a member. */
  ghost predicate GroupMerged(ix: Index, targets: map<Id, Key>, out: Index)
    requires targets.Keys == ix.rows.Keys
  {
    && UniqueKeys(out.rows)
    && Orphans(out) == Orphans(ix)
    && out.rows.Keys <= targets.Keys
    && (forall j {:trigger Occupied(out.rows, targets[j])} :: j in targets ==> Occupied(out.rows, targets[j]))
    && (forall i :: i in out.rows ==> out.rows[i].key == targets[i])
    && (forall i {:trigger VectorOf(out.vectors, i)} :: i in out.rows ==>
          Aggregates(ix, Members(targets, {}, targets[i]), out.rows[i], VectorOf(out.vectors, i)))
  }

  // ---- The proof: a settled row stands for every member of its class already processed ----

  /** Rows outside `ids` sit at their targets; no row of `ids` occupies any target of `ids`. */
  ghost predicate Settled(targets: map<Id, Key>, rows: map<Id, Affinity>, ids: set<Id>) {
    && rows.Keys <= targets.Keys
    && ids <= rows.Keys
    && (forall i :: i in rows && i !in ids ==> rows[i].key == targets[i])
    && (forall i, j :: i in ids && j in ids ==> rows[j].key != targets[i])
  }

  ghost predicate Represented(targets: map<Id, Key>, rows: map<Id, Affinity>, ids: set<Id>) {
    forall j :: j in targets && j !in ids ==> exists i :: Sits(rows, ids, i, targets[j])
  }

  ghost predicate Untouched(ix0: Index, ix: Index, ids: set<Id>) {
    forall i :: i in ids ==>
      i in ix0.rows && i in ix.rows && ix.rows[i] == ix0.rows[i] && VectorOf(ix.vectors, i) == VectorOf(ix0.vectors, i)
  }

  ghost predicate AllExplained(ix0: Index, targets: map<Id, Key>, ids: set<Id>, ix: Index) {
    forall i :: i in ix.rows && i !in ids ==>
      Aggregates(ix0, Members(targets, ids, ix.rows[i].key), ix.rows[i], VectorOf(ix.vectors, i))
  }

  ghost predicate Traced(ix0: Index, targets: map<Id, Key>, ids: set<Id>, ix: Index) {
    && targets.Keys == ix0.rows.Keys
    && UniqueKeys(ix.rows)
    && Orphans(ix) == Orphans(ix0)
    && Settled(targets, ix.rows, ids)
    && Represented(targets, ix.rows, ids)
    && Untouched(ix0, ix, ids)
    && AllExplained(ix0, targets, ids, ix)
  }

  lemma {:induction false} MoveKeepsUnique(rows: map<Id, Affinity>, id: Id, k: Key)
    requires UniqueKeys(rows) && id in rows && Occupant(rows, id, k).None?
    ensures UniqueKeys(rows[id := rows[id].(key := k)])
  {
    forall i | i in rows && i != id
      ensures rows[i].key != k
    {
      assert !Holds(rows, i, id, k);
    }
  }

  /** A row alone is its own aggregate. */
  lemma {:induction false} AloneAggregates(ix: Index, id: Id, row: Affinity)
    requires id in ix.rows && row.(key := ix.rows[id].key) == ix.rows[id]
    ensures Aggregates(ix, {id}, row, VectorOf(ix.vectors, id))
  {
    assert Sourced(ix, {id}, row, VectorOf(ix.vectors, id), Sources(id, id, id, id, id));
  }

  /** Merging one more row into an aggregate gives the aggregate of one more member. */
  lemma {:induction false} MergedRowAggregates(ix: Index, ms: set<Id>, id: Id, sid: Id, b: Affinity, vb: Option<Vector>)
    requires id in ix.rows && Aggregates(ix, ms, b, vb)
    ensures Aggregates(ix, ms + {id}, MergeRows(id, ix.rows[id], sid, b),
                       MergeVectors(IsLatest(id, ix.rows[id], sid, b), VectorOf(ix.vectors, id), vb))
  {
    var a, va := ix.rows[id], VectorOf(ix.vectors, id);
    var latest := IsLatest(id, a, sid, b);
    var src :| Sourced(ix, ms, b, vb, src);
    var src' := Sources(if a.count >= b.count then id else src.count,
                        if a.created < b.created then id else src.created,
                        if a.updated > b.updated then id else src.updated,
                        if latest then id else src.example,
                        if va.None? || (!latest && vb.Some?) then src.vector else id);
    assert Sourced(ix, ms + {id}, MergeRows(id, a, sid, b), MergeVectors(latest, va, vb), src');
  }

  lemma {:induction false} MoveKeepsRepresented(targets: map<Id, Key>, rows: map<Id, Affinity>, ids: set<Id>, id: Id)
    requires id in rows && id in ids && id in targets && Represented(targets, rows, ids)
    ensures Represented(targets, rows[id := rows[id].(key := targets[id])], ids - {id})
  {
    var rows' := rows[id := rows[id].(key := targets[id])];
    forall j | j in targets && j !in ids - {id}
      ensures exists i :: Sits(rows', ids - {id}, i, targets[j])
    {
      if j == id {
        assert Sits(rows', ids - {id}, id, targets[j]);
      } else {
        var i :| Sits(rows, ids, i, targets[j]);
        assert Sits(rows', ids - {id}, i, targets[j]);
      }
    }
  }

  lemma {:induction false} MergeKeepsRepresented(targets: map<Id, Key>, ix: Index, ids: set<Id>, id: Id, sid: Id)
    requires id in ids && id in targets && Represented(targets, ix.rows, ids)
    requires id in ix.rows && Sits(ix.rows, ids, sid, targets[id])
    ensures Represented(targets, MergeInto(ix, id, sid).rows, ids - {id})
  {
    var rows' := MergeInto(ix, id, sid).rows;
    forall j | j in targets && j !in ids - {id}
      ensures exists i :: Sits(rows', ids - {id}, i, targets[j])
    {
      if j == id {
        assert Sits(rows', ids - {id}, sid, targets[j]);
      } else {
        var i :| Sits(ix.rows, ids, i, targets[j]);
        assert Sits(rows', ids - {id}, i, targets[j]);
      }
    }
  }

  lemma {:induction false} FreeTargetHasNoMembers(targets: map<Id, Key>, rows: map<Id, Affinity>, ids: set<Id>, id: Id)
    requires id in ids && id in targets && Represented(targets, rows, ids) && Occupant(rows, id, targets[id]).None?
    ensures Members(targets, ids - {id}, targets[id]) == {id}
  {
    forall j | j in Members(targets, ids, targets[id])
      ensures false
    {
      var i :| Sits(rows, ids, i, targets[j]);
      assert Holds(rows, i, id, targets[id]);
    }
    assert Members(targets, ids - {id}, targets[id]) == Members(targets, ids, targets[id]) + {id};
  }

  lemma {:induction false} OtherRowsExplained(ix0: Index, targets: map<Id, Key>, ids: set<Id>, ix: Index, id: Id)
    requires id in targets && AllExplained(ix0, targets, ids, ix)
    ensures forall i :: i in ix.rows && i !in ids && ix.rows[i].key != targets[id] ==>
      Aggregates(ix0, Members(targets, ids - {id}, ix.rows[i].key), ix.rows[i], VectorOf(ix.vectors, i))
  {
    forall i | i in ix.rows && i !in ids && ix.rows[i].key != targets[id]
      ensures Members(targets, ids - {id}, ix.rows[i].key) == Members(targets, ids, ix.rows[i].key)
    {
    }
  }

  lemma {:induction false} MoveKeepsExplained(ix0: Index, targets: map<Id, Key>, ids: set<Id>, ix: Index, id: Id)
    requires id in ids && id in ix.rows && id in targets
    requires Represented(targets, ix.rows, ids) && Untouched(ix0, ix, ids) && AllExplained(ix0, targets, ids, ix)
    requires Occupant(ix.rows, id, targets[id]).None?
    ensures AllExplained(ix0, targets, ids - {id}, ix.(rows := ix.rows[id := ix.rows[id].(key := targets[id])]))
  {
    FreeTargetHasNoMembers(targets, ix.rows, ids, id);
    AloneAggregates(ix0, id, ix.rows[id].(key := targets[id]));
    OtherRowsExplained(ix0, targets, ids, ix, id);
    forall i | i in ix.rows && i != id
      ensures ix.rows[i].key != targets[id]
    {
      assert !Holds(ix.rows, i, id, targets[id]);
    }
  }

  lemma {:induction false} MergeKeepsExplained(ix0: Index, targets: map<Id, Key>, ids: set<Id>, ix: Index, id: Id, sid: Id)
    requires id in ids && id in ix.rows && id in targets
    requires UniqueKeys(ix.rows) && Untouched(ix0, ix, ids) && AllExplained(ix0, targets, ids, ix)
    requires Sits(ix.rows, ids, sid, targets[id])
    ensures AllExplained(ix0, targets, ids - {id}, MergeInto(ix, id, sid))
  {
    var ix', k := MergeInto(ix, id, sid), targets[id];
    MergedRowAggregates(ix0, Members(targets, ids, k), id, sid, ix.rows[sid], VectorOf(ix.vectors, sid));
    assert Members(targets, ids - {id}, k) == Members(targets, ids, k) + {id};
    OtherRowsExplained(ix0, targets, ids, ix, id);
    forall i | i in ix'.rows && i !in ids - {id}
      ensures Aggregates(ix0, Members(targets, ids - {id}, ix'.rows[i].key), ix'.rows[i], VectorOf(ix'.vectors, i))
    {
      if i != sid {
        assert ix'.rows[i] == ix.rows[i] && VectorOf(ix'.vectors, i) == VectorOf(ix.vectors, i);
      }
    }
  }

  lemma {:induction false} MergeKeepsSettled(ix0: Index, targets: map<Id, Key>, ids: set<Id>, ix: Index, id: Id, sid: Id)
    requires id in ids && Settled(targets, ix.rows, ids) && Untouched(ix0, ix, ids) && sid in ix.rows && sid !in ids
    ensures Settled(targets, MergeInto(ix, id, sid).rows, ids - {id})
    ensures Untouched(ix0, MergeInto(ix, id, sid), ids - {id})
  {
  }

  lemma {:induction false} MergeKeepsUnique(ix: Index, id: Id, sid: Id)
    requires UniqueKeys(ix.rows) && id in ix.rows && sid in ix.rows && id != sid
    ensures UniqueKeys(MergeInto(ix, id, sid).rows)
    ensures Orphans(MergeInto(ix, id, sid)) == Orphans(ix)
  {
  }

  lemma {:induction false} MoveKeepsSettled(ix0: Index, targets: map<Id, Key>, ids: set<Id>, ix: Index, id: Id)
    requires id in ids && Settled(targets, ix.rows, ids) && Untouched(ix0, ix, ids)
    ensures var ix' := ix.(rows := ix.rows[id := ix.rows[id].(key := targets[id])]);
            Settled(targets, ix'.rows, ids - {id}) && Untouched(ix0, ix', ids - {id})
  {
  }

  lemma {:induction false} MoveKeepsTrace(ix0: Index, targets: map<Id, Key>, ids: set<Id>, ix: Index, id: Id)
    requires id in ids && Traced(ix0, targets, ids, ix) && Occupant(ix.rows, id, targets[id]).None?
    ensures Traced(ix0, targets, ids - {id}, ix.(rows := ix.rows[id := ix.rows[id].(key := targets[id])]))
  {
    MoveKeepsUnique(ix.rows, id, targets[id]);
    MoveKeepsSettled(ix0, targets, ids, ix, id);
    MoveKeepsRepresented(targets, ix.rows, ids, id);
    MoveKeepsExplained(ix0, targets, ids, ix, id);
  }

  lemma {:induction false} MergeKeepsTrace(ix0: Index, targets: map<Id, Key>, ids: set<Id>, ix: Index, id: Id, sid: Id)
    requires id in ids && Traced(ix0, targets, ids, ix) && Sits(ix.rows, ids, sid, targets[id])
    ensures Traced(ix0, targets, ids - {id}, MergeInto(ix, id, sid))
  {
    MergeKeepsUnique(ix, id, sid);
    MergeKeepsSettled(ix0, targets, ids, ix, id, sid);
    MergeKeepsRepresented(targets, ix, ids, id, sid);
    MergeKeepsExplained(ix0, targets, ids, ix, id, sid);
  }

  /** One update settles one more row. */
  lemma {:induction false} StepKeepsTrace(ix0: Index, targets: map<Id, Key>, ids: set<Id>, ix: Index, u: Update)
    requires u.id in ids && Traced(ix0, targets, ids, ix)
    requires u.id in ix0.rows && targets[u.id] == Retarget(ix0.rows[u.id].key, u)
    ensures Traced(ix0, targets, ids - {u.id}, Step(ix, u).index)
    ensures Step(ix, u).degraded == 1
  {
    assert ix.rows[u.id] == ix0.rows[u.id];
    match Occupant(ix.rows, u.id, targets[u.id])
    case None => MoveKeepsTrace(ix0, targets, ids, ix, u.id);
    case Some(sid) =>
      assert Holds(ix.rows, sid, u.id, targets[u.id]);
      assert Sits(ix.rows, ids, sid, targets[u.id]);
      MergeKeepsTrace(ix0, targets, ids, ix, u.id, sid);
  }

  /** A step reports exactly the vector rows it removed. */
  lemma {:induction false} StepDropsExactly(ix: Index, u: Update)
    ensures Step(ix, u).dropped == |ix.vectors| - |Step(ix, u).index.vectors|
  {
    if u.id in ix.rows {
      match Occupant(ix.rows, u.id, Retarget(ix.rows[u.id].key, u))
      case None =>
      case Some(sid) => MergeDropsExactly(ix, u.id, sid);
    }
  }

  lemma {:induction false} MergeDropsExactly(ix: Index, id: Id, sid: Id)
    requires id in ix.rows && sid in ix.rows && id != sid
    ensures |MergeInto(ix, id, sid).vectors| == |ix.vectors| - Dropped(ix.vectors, id, sid)
  {
    var before, after := ix.vectors.Keys, MergeInto(ix, id, sid).vectors.Keys;
    assert |before| == |ix.vectors| && |after| == |MergeInto(ix, id, sid).vectors|;
    if id in before {
      assert after + {id} == before + {sid};
    } else {
      assert after == before;
    }
  }

  // ---- Main results ----

  lemma {:induction false} DegradeTrace(ix0: Index, targets: map<Id, Key>, ix: Index, us: seq<Update>)
    requires NoRepeats(us) && Traced(ix0, targets, Ids(us), ix)
    requires Ids(us) <= ix0.rows.Keys && Aimed(ix0.rows, targets, us)
    ensures Traced(ix0, targets, {}, Degrade(ix, us).index)
    ensures Degrade(ix, us).degraded == |us|
    decreases |us|
  {
    if us != [] {
      StepKeepsTrace(ix0, targets, Ids(us), ix, us[0]);
      assert Ids(us) - {us[0].id} == Ids(us[1..]);
      DegradeTrace(ix0, targets, Step(ix, us[0]).index, us[1..]);
    }
  }

  ghost predicate Aimed(rows: map<Id, Affinity>, targets: map<Id, Key>, us: seq<Update>) {
    us == [] || (&& us[0].id in rows && us[0].id in targets
                 && targets[us[0].id] == Retarget(rows[us[0].id].key, us[0])
                 && Aimed(rows, targets, us[1..]))
  }

  lemma {:induction false} TargetsAim(rows: map<Id, Affinity>, us: seq<Update>, targets: map<Id, Key>)
    requires NoRepeats(us) && Ids(us) <= rows.Keys <= targets.Keys
    requires forall i :: i in Ids(us) ==> targets[i] == Targets(rows, us)[i]
    ensures Aimed(rows, targets, us)
  {
    if us != [] {
      assert us[0].id in Ids(us);
      TargetsAim(rows, us[1..], targets);
    }
  }

  lemma {:induction false} TraceStarts(ix: Index, us: seq<Update>)
    requires UniqueKeys(ix.rows) && Separated(ix.rows, us)
    ensures Traced(ix, Targets(ix.rows, us), Ids(us), ix)
  {
    var targets, ids := Targets(ix.rows, us), Ids(us);
    forall j | j in targets && j !in ids
      ensures exists i :: Sits(ix.rows, ids, i, targets[j])
    {
      assert Sits(ix.rows, ids, j, targets[j]);
    }
    forall i | i in ix.rows && i !in ids
      ensures Aggregates(ix, Members(targets, ids, ix.rows[i].key), ix.rows[i], VectorOf(ix.vectors, i))
    {
      assert Members(targets, ids, ix.rows[i].key) == {i};
      AloneAggregates(ix, i, ix.rows[i]);
    }
  }

  /**
   * Main result: processed in any order, the updates leave exactly one row per target key, the
   * aggregate of the rows that collapsed onto it; every update counts, and every lost vector is counted.
   */
  lemma {:induction false} DegradeIsGroupBy(ix: Index, us: seq<Update>)
    requires UniqueKeys(ix.rows) && Separated(ix.rows, us)
    ensures GroupMerged(ix, Targets(ix.rows, us), Degrade(ix, us).index)
    ensures Degrade(ix, us).degraded == |us|
    ensures Degrade(ix, us).dropped == |ix.vectors| - |Degrade(ix, us).index.vectors|
  {
    var targets, out := Targets(ix.rows, us), Degrade(ix, us).index;
    TraceStarts(ix, us);
    TargetsAim(ix.rows, us, targets);
    DegradeTrace(ix, targets, ix, us);
    DegradeDropsExactly(ix, us);
    TracedIsMerged(ix, targets, out);
  }

  lemma {:induction false} TracedIsMerged(ix: Index, targets: map<Id, Key>, out: Index)
    requires Traced(ix, targets, {}, out)
    ensures GroupMerged(ix, targets, out)
  {
    forall j | j in targets
      ensures Occupied(out.rows, targets[j])
    {
      var i :| Sits(out.rows, {}, i, targets[j]);
    }
    forall i | i in out.rows
      ensures out.rows[i].key == targets[i]
      ensures Aggregates(ix, Members(targets, {}, targets[i]), out.rows[i], VectorOf(out.vectors, i))
    {
    }
  }

  lemma {:induction false} DegradeDropsExactly(ix: Index, us: seq<Update>)
    ensures Degrade(ix, us).dropped == |ix.vectors| - |Degrade(ix, us).index.vectors|
    decreases |us|
  {
    if us != [] {
      StepDropsExactly(ix, us[0]);
      DegradeDropsExactly(Step(ix, us[0]).index, us[1..]);
    }
  }

  ghost predicate NewestOfClass(rows: map<Id, Affinity>, targets: map<Id, Key>, i: Id) {
    && i in targets && targets.Keys <= rows.Keys
    && forall j :: j in Members(targets, {}, targets[i]) ==> rows[j].last <= rows[i].last
  }

  /** Class members reinforced last agree on example and vector; with distinct times there is just one of them. */
  ghost predicate LatestAgree(ix: Index, targets: map<Id, Key>) {
    forall i, j :: NewestOfClass(ix.rows, targets, i) && NewestOfClass(ix.rows, targets, j) && targets[i] == targets[j]
      ==> SameExample(ix.rows[i], ix.rows[j]) && VectorOf(ix.vectors, i) == VectorOf(ix.vectors, j)
  }

  /** Two merges of one table under the same targets agree on every column of every row but its id. */
  lemma {:induction false} MergeIsDetermined(ix: Index, targets: map<Id, Key>, out1: Index, out2: Index, i1: Id, i2: Id)
    requires targets.Keys == ix.rows.Keys <= ix.vectors.Keys && LatestAgree(ix, targets)
    requires GroupMerged(ix, targets, out1) && GroupMerged(ix, targets, out2)
    requires i1 in out1.rows && i2 in out2.rows && out1.rows[i1].key == out2.rows[i2].key
    ensures out1.rows[i1] == out2.rows[i2]
    ensures VectorOf(out1.vectors, i1) == VectorOf(out2.vectors, i2)
  {
    AggregateIsDetermined(ix, targets, targets[i1], out1.rows[i1], VectorOf(out1.vectors, i1),
                          out2.rows[i2], VectorOf(out2.vectors, i2));
  }

  lemma {:induction false} AggregateIsDetermined(ix: Index, targets: map<Id, Key>, k: Key, r1: Affinity, v1: Option<Vector>,
                                                 r2: Affinity, v2: Option<Vector>)
    requires targets.Keys == ix.rows.Keys <= ix.vectors.Keys && LatestAgree(ix, targets)
    requires Aggregates(ix, Members(targets, {}, k), r1, v1) && Aggregates(ix, Members(targets, {}, k), r2, v2)
    requires r1.key == r2.key
    ensures r1 == r2 && v1 == v2
  {
    var s1 :| Sourced(ix, Members(targets, {}, k), r1, v1, s1);
    var s2 :| Sourced(ix, Members(targets, {}, k), r2, v2, s2);
    SameMeasures(ix, Members(targets, {}, k), r1, v1, r2, v2);
    ExamplesAgree(ix, targets, k, r1, v1, s1, r2, v2, s2);
  }

  lemma {:induction false} SameMeasures(ix: Index, ms: set<Id>, r1: Affinity, v1: Option<Vector>, r2: Affinity, v2: Option<Vector>)
    requires Aggregates(ix, ms, r1, v1) && Aggregates(ix, ms, r2, v2)
    ensures r1.count == r2.count && r1.last == r2.last && r1.created == r2.created && r1.updated == r2.updated
    ensures forall j :: j in ms ==> ix.rows[j].last <= r1.last
  {
    var s1 :| Sourced(ix, ms, r1, v1, s1);
    var s2 :| Sourced(ix, ms, r2, v2, s2);
    AtMost(ix, ms, r1, v1, s1, r2, v2);
    AtMost(ix, ms, r2, v2, s2, r1, v1);
  }

  lemma {:induction false} ExamplesAgree(ix: Index, targets: map<Id, Key>, k: Key, r1: Affinity, v1: Option<Vector>, s1: Sources,
                                         r2: Affinity, v2: Option<Vector>, s2: Sources)
    requires targets.Keys == ix.rows.Keys <= ix.vectors.Keys && LatestAgree(ix, targets)
    requires Sourced(ix, Members(targets, {}, k), r1, v1, s1) && Sourced(ix, Members(targets, {}, k), r2, v2, s2)
    requires r1.last == r2.last && forall j :: j in Members(targets, {}, k) ==> ix.rows[j].last <= r1.last
    ensures SameExample(r1, r2) && v1 == v2
  {
    assert NewestOfClass(ix.rows, targets, s1.example) && NewestOfClass(ix.rows, targets, s2.example);
  }

  lemma {:induction false} AtMost(ix: Index, ms: set<Id>, a: Affinity, va: Option<Vector>, src: Sources, b: Affinity, vb: Option<Vector>)
    requires ms <= ix.rows.Keys && Sourced(ix, ms, a, va, src) && Aggregates(ix, ms, b, vb)
    ensures a.count <= b.count && a.last <= b.last && b.created <= a.created && a.updated <= b.updated
  {
  }

  lemma {:induction false} TargetOfUpdate(rows: map<Id, Affinity>, us: seq<Update>, u: Update)
    requires NoRepeats(us) && Ids(us) <= rows.Keys && u in us
    ensures u.id in Ids(us) && Targets(rows, us)[u.id] == Retarget(rows[u.id].key, u)
  {
    if u != us[0] {
      assert u in us[1..];
      TargetOfUpdate(rows, us[1..], u);
    }
  }

  lemma {:induction false} UpdateOfId(us: seq<Update>, i: Id) returns (u: Update)
    requires i in Ids(us)
    ensures u in us && u.id == i
  {
    if us[0].id == i {
      u := us[0];
    } else {
      u := UpdateOfId(us[1..], i);
    }
  }

  lemma {:induction false} SameUpdatesSameTargets(rows: map<Id, Affinity>, us: seq<Update>, vs: seq<Update>)
    requires NoRepeats(us) && NoRepeats(vs) && Ids(us) <= rows.Keys && Ids(vs) <= rows.Keys
    requires forall u :: u in us <==> u in vs
    ensures Targets(rows, us) == Targets(rows, vs)
  {
    forall i | i in rows
      ensures Targets(rows, us)[i] == Targets(rows, vs)[i]
    {
      if i in Ids(us) {
        var u := UpdateOfId(us, i);
        TargetOfUpdate(rows, us, u);
        TargetOfUpdate(rows, vs, u);
      } else if i in Ids(vs) {
        var v := UpdateOfId(vs, i);
        TargetOfUpdate(rows, us, v);
        assert false;
      }
    }
  }

  /** The same keys are occupied, and rows with one key agree on every column and on their vectors. */
  ghost predicate SameUpToIds(out1: Index, out2: Index) {
    && (forall k :: Occupied(out1.rows, k) <==> Occupied(out2.rows, k))
    && (forall i1, i2 :: i1 in out1.rows && i2 in out2.rows && out1.rows[i1].key == out2.rows[i2].key ==>
          out1.rows[i1] == out2.rows[i2] && VectorOf(out1.vectors, i1) == VectorOf(out2.vectors, i2))
  }

  lemma {:induction false} OccupiedCarries(ix: Index, targets: map<Id, Key>, out1: Index, out2: Index, k: Key)
    requires targets.Keys == ix.rows.Keys && GroupMerged(ix, targets, out1) && GroupMerged(ix, targets, out2)
    requires Occupied(out1.rows, k)
    ensures Occupied(out2.rows, k)
  {
    var i :| Sits(out1.rows, {}, i, k);
    assert i in targets && k == targets[i];
    assert Occupied(out2.rows, targets[i]);
  }

  lemma {:induction false} MergesAgree(ix: Index, targets: map<Id, Key>, out1: Index, out2: Index)
    requires targets.Keys == ix.rows.Keys <= ix.vectors.Keys && LatestAgree(ix, targets)
    requires GroupMerged(ix, targets, out1) && GroupMerged(ix, targets, out2)
    ensures SameUpToIds(out1, out2)
  {
    forall k
      ensures Occupied(out1.rows, k) <==> Occupied(out2.rows, k)
    {
      if Occupied(out1.rows, k) {
        OccupiedCarries(ix, targets, out1, out2, k);
      } else if Occupied(out2.rows, k) {
        OccupiedCarries(ix, targets, out2, out1, k);
      }
    }
    forall i1, i2 | i1 in out1.rows && i2 in out2.rows && out1.rows[i1].key == out2.rows[i2].key
      ensures out1.rows[i1] == out2.rows[i2] && VectorOf(out1.vectors, i1) == VectorOf(out2.vectors, i2)
    {
      MergeIsDetermined(ix, targets, out1, out2, i1, i2);
    }
  }

  /**
   * Main result: the processing order decides only which id a merged row keeps, whenever the newest
   * members of a class agree.
   */
  lemma {:induction false} OrderDoesNotMatter(ix: Index, us: seq<Update>, vs: seq<Update>)
    requires UniqueKeys(ix.rows) && ix.rows.Keys <= ix.vectors.Keys
    requires Separated(ix.rows, us) && Separated(ix.rows, vs) && forall u :: u in us <==> u in vs
    requires LatestAgree(ix, Targets(ix.rows, us))
    ensures SameUpToIds(Degrade(ix, us).index, Degrade(ix, vs).index)
  {
    SameUpdatesSameTargets(ix.rows, us, vs);
    DegradeIsGroupBy(ix, us);
    DegradeIsGroupBy(ix, vs);
    MergesAgree(ix, Targets(ix.rows, us), Degrade(ix, us).index, Degrade(ix, vs).index);
  }

  /** Of two rows tied on time and update, both newer than the survivor, the one processed later leaves its text. */
  lemma {:induction false} LaterTieWins(ix: Index, sid: Id, u: Update, v: Update)
    requires UniqueKeys(ix.rows) && sid in ix.rows && u.id in ix.rows && v.id in ix.rows
    requires sid != u.id && v.id > sid && u.id != v.id
    requires Retarget(ix.rows[u.id].key, u) == ix.rows[sid].key == Retarget(ix.rows[v.id].key, v)
    requires ix.rows[u.id].last == ix.rows[v.id].last > ix.rows[sid].last
    requires ix.rows[u.id].updated == ix.rows[v.id].updated > ix.rows[sid].updated
    ensures sid in Degrade(ix, [u, v]).index.rows && Degrade(ix, [u, v]).index.rows[sid].raw == ix.rows[v.id].raw
  {
    MergeTwo(ix, sid, u, v);
  }

  /** Two updates in a row that both merge into row `sid`. */
  lemma {:induction false} MergeTwo(ix: Index, sid: Id, u: Update, v: Update)
    requires UniqueKeys(ix.rows) && sid in ix.rows && u.id in ix.rows && v.id in ix.rows
    requires sid != u.id && sid != v.id && u.id != v.id
    requires Retarget(ix.rows[u.id].key, u) == ix.rows[sid].key == Retarget(ix.rows[v.id].key, v)
    ensures Degrade(ix, [u, v]).index == MergeInto(MergeInto(ix, u.id, sid), v.id, sid)
  {
    assert Holds(ix.rows, sid, u.id, ix.rows[sid].key);
    var ix1 := MergeInto(ix, u.id, sid);
    assert Step(ix, u).index == ix1;
    assert Holds(ix1.rows, sid, v.id, ix.rows[sid].key);
    assert Step(ix1, v).index == MergeInto(ix1, v.id, sid);
    assert [u, v][1..] == [v] && [v][1..] == [];
    assert Degrade(ix1, [v]).index == Degrade(Step(ix1, v).index, []).index;
  }

  // ---- Two passes are one ----

  lemma {:induction false} AggregatesCompose(ix: Index, t1: map<Id, Key>, mid: Index, t2: map<Id, Key>, t: map<Id, Key>,
                                             k: Key, row: Affinity, vector: Option<Vector>)
    requires t1.Keys == ix.rows.Keys == t.Keys && t2.Keys == mid.rows.Keys && GroupMerged(ix, t1, mid)
    requires forall j, m :: j in ix.rows && m in mid.rows && mid.rows[m].key == t1[j] ==> t[j] == t2[m]
    requires Aggregates(mid, Members(t2, {}, k), row, vector)
    ensures Aggregates(ix, Members(t, {}, k), row, vector)
  {
    forall j | j in Members(t, {}, k)
      ensures Below(ix.rows[j], VectorOf(ix.vectors, j), row, vector)
    {
      var m := StandsIn(ix, t1, mid, j);
      assert m in Members(t2, {}, k);
      assert Below(mid.rows[m], VectorOf(mid.vectors, m), row, vector);
    }
    var src :| Sourced(mid, Members(t2, {}, k), row, vector, src);
    var composed := ComposedSources(ix, t1, mid, t2, t, k, row, vector, src);
  }

  lemma {:induction false} StandsIn(ix: Index, t1: map<Id, Key>, mid: Index, j: Id) returns (m: Id)
    requires t1.Keys == ix.rows.Keys && GroupMerged(ix, t1, mid) && j in ix.rows
    ensures m in mid.rows && mid.rows[m].key == t1[j]
    ensures Below(ix.rows[j], VectorOf(ix.vectors, j), mid.rows[m], VectorOf(mid.vectors, m))
  {
    assert Occupied(mid.rows, t1[j]);
    m :| Sits(mid.rows, {}, m, t1[j]);
    assert Aggregates(ix, Members(t1, {}, t1[m]), mid.rows[m], VectorOf(mid.vectors, m));
    assert j in Members(t1, {}, t1[m]);
  }

  /** Keys alone: rows sit at their targets, and every row's target is taken. */
  ghost predicate Rekeyed(targets: map<Id, Key>, rows: map<Id, Affinity>) {
    && (forall i :: i in rows ==> i in targets && rows[i].key == targets[i])
    && (forall j :: j in targets ==> Occupied(rows, targets[j]))
  }

  lemma {:induction false} MergedIsRekeyed(ix: Index, targets: map<Id, Key>, out: Index)
    requires targets.Keys == ix.rows.Keys && GroupMerged(ix, targets, out)
    ensures Rekeyed(targets, out.rows)
  {
  }

  /** The rows a half-way row takes its columns from, members of its class. */
  lemma {:induction false} HalfwaySources(ix: Index, t1: map<Id, Key>, mid: Index, m: Id) returns (src: Sources)
    requires t1.Keys == ix.rows.Keys && GroupMerged(ix, t1, mid) && m in mid.rows
    ensures mid.rows[m].key == t1[m] && Sourced(ix, Members(t1, {}, t1[m]), mid.rows[m], VectorOf(mid.vectors, m), src)
  {
    assert Aggregates(ix, Members(t1, {}, t1[m]), mid.rows[m], VectorOf(mid.vectors, m));
    src :| Sourced(ix, Members(t1, {}, t1[m]), mid.rows[m], VectorOf(mid.vectors, m), src);
  }

  lemma {:induction false} ComposedSources(ix: Index, t1: map<Id, Key>, mid: Index, t2: map<Id, Key>, t: map<Id, Key>,
                                           k: Key, row: Affinity, vector: Option<Vector>, src: Sources) returns (composed: Sources)
    requires t1.Keys == ix.rows.Keys == t.Keys && t2.Keys == mid.rows.Keys && GroupMerged(ix, t1, mid)
    requires forall j, m :: j in ix.rows && m in mid.rows && mid.rows[m].key == t1[j] ==> t[j] == t2[m]
    requires Sourced(mid, Members(t2, {}, k), row, vector, src)
    ensures Members(t, {}, k) <= ix.rows.Keys && Sourced(ix, Members(t, {}, k), row, vector, composed)
  {
    var count := HalfwaySources(ix, t1, mid, src.count);
    var created := HalfwaySources(ix, t1, mid, src.created);
    var updated := HalfwaySources(ix, t1, mid, src.updated);
    var example := HalfwaySources(ix, t1, mid, src.example);
    composed := Sources(count.count, created.created, updated.updated, example.example, src.vector);
    if vector.Some? {
      var of := HalfwaySources(ix, t1, mid, src.vector);
      composed := composed.(vector := of.vector);
    }
  }

  /** A group-by of a group-by is the group-by of the composed keys. */
  lemma {:induction false} GroupsCompose(ix: Index, t1: map<Id, Key>, mid: Index, t2: map<Id, Key>, out: Index, t: map<Id, Key>)
    requires t1.Keys == ix.rows.Keys == t.Keys && t2.Keys == mid.rows.Keys
    requires GroupMerged(ix, t1, mid) && GroupMerged(mid, t2, out)
    requires forall j, m :: j in ix.rows && m in mid.rows && mid.rows[m].key == t1[j] ==> t[j] == t2[m]
    ensures GroupMerged(ix, t, out)
  {
    forall j | j in t
      ensures Occupied(out.rows, t[j])
    {
      KeyStaysOccupied(ix, t1, mid, t2, out, t, j);
    }
    forall i | i in out.rows
      ensures out.rows[i].key == t[i] && Aggregates(ix, Members(t, {}, t[i]), out.rows[i], VectorOf(out.vectors, i))
    {
      RowComposes(ix, t1, mid, t2, out, t, i);
    }
  }

  lemma {:induction false} KeyStaysOccupied(ix: Index, t1: map<Id, Key>, mid: Index, t2: map<Id, Key>, out: Index, t: map<Id, Key>, j: Id)
    requires t1.Keys == ix.rows.Keys == t.Keys && t2.Keys == mid.rows.Keys
    requires GroupMerged(ix, t1, mid) && GroupMerged(mid, t2, out) && j in t
    requires forall m :: m in mid.rows && mid.rows[m].key == t1[j] ==> t[j] == t2[m]
    ensures Occupied(out.rows, t[j])
  {
    var m := StandsIn(ix, t1, mid, j);
    assert Occupied(out.rows, t2[m]);
  }

  lemma {:induction false} RowComposes(ix: Index, t1: map<Id, Key>, mid: Index, t2: map<Id, Key>, out: Index, t: map<Id, Key>, i: Id)
    requires t1.Keys == ix.rows.Keys == t.Keys && t2.Keys == mid.rows.Keys
    requires GroupMerged(ix, t1, mid) && GroupMerged(mid, t2, out) && i in out.rows
    requires forall j, m :: j in ix.rows && m in mid.rows && mid.rows[m].key == t1[j] ==> t[j] == t2[m]
    ensures i in t && out.rows[i].key == t[i] && Aggregates(ix, Members(t, {}, t[i]), out.rows[i], VectorOf(out.vectors, i))
  {
    assert mid.rows[i].key == t1[i];
    assert Aggregates(mid, Members(t2, {}, t2[i]), out.rows[i], VectorOf(out.vectors, i));
    AggregatesCompose(ix, t1, mid, t2, t, t2[i], out.rows[i], VectorOf(out.vectors, i));
  }

  /**
   * Of two merged rows the later one leaves its example: later by reinforcement, then by update, then by id. Its vector
   * comes with it, or the other's when it has none.
   */
  lemma {:induction false} MergeKeepsLaterExample(ix: Index, id: Id, survivorId: Id)
    requires id in ix.rows && survivorId in ix.rows && id != survivorId
    ensures var a, b := ix.rows[id], ix.rows[survivorId];
      var later := if a.last != b.last then (if a.last > b.last then id else survivorId)
                   else if a.updated != b.updated then (if a.updated > b.updated then id else survivorId)
                   else if id > survivorId then id else survivorId;
      var earlier := if later == id then survivorId else id;
      var out := MergeInto(ix, id, survivorId);
      && out.rows.Keys == ix.rows.Keys - {id} && out.rows[survivorId].key == b.key
      && SameExample(out.rows[survivorId], ix.rows[later])
      && VectorOf(out.vectors, survivorId) == (if later in ix.vectors then VectorOf(ix.vectors, later) else VectorOf(ix.vectors, earlier))
      && id !in out.vectors
      && (forall i :: i != id && i != survivorId ==> VectorOf(out.vectors, i) == VectorOf(ix.vectors, i))
      && (forall i :: i in ix.rows && i != id && i != survivorId ==> out.rows[i] == ix.rows[i])
  {
  }
}
