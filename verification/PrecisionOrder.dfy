/**
 * When the processing order of precision updates can be seen: exactly which example a merged row may end with,
 * over all orders, for tables whose rows were last updated when they were last reinforced.
 */
module PrecisionOrder {
  import opened Prelude
  import opened SignalTables
  import opened PrecisionMerge
  import opened SignalOps

  /** What feedback writes and merging keeps. */
  ghost predicate TimesAgree(rows: map<Id, Affinity>) {
    forall i :: i in rows ==> rows[i].updated == rows[i].last
  }

  ghost predicate Newest(rows: map<Id, Affinity>, ms: set<Id>, n: Id) {
    n in ms && ms <= rows.Keys && forall j :: j in ms ==> rows[j].last <= rows[n].last
  }

  ghost predicate NoNewestAbove(rows: map<Id, Affinity>, ms: set<Id>, survivor: Id) {
    forall n: Id :: Newest(rows, ms, n) ==> n <= survivor
  }

  /**
   * The row whose example may be kept when `survivor` keeps its id: a newest row with a greater id; with none of
   * those the survivor, when it is among the newest; and otherwise any newest row.
   */
  ghost predicate Picks(rows: map<Id, Affinity>, ms: set<Id>, survivor: Id, x: Id) {
    && Newest(rows, ms, x)
    && (x <= survivor ==> NoNewestAbove(rows, ms, survivor))
    && (x < survivor ==> !Newest(rows, ms, survivor))
  }

  /** Example and times of row `x`, and its vector whenever it had one. */
  ghost predicate From(ix: Index, row: Affinity, vector: Option<Vector>, x: Id) {
    && x in ix.rows && ExampleFrom(ix, row, vector, x)
    && row.last == ix.rows[x].last == row.updated
  }

  ghost predicate HasPick(ix: Index, ms: set<Id>, survivor: Id, row: Affinity, vector: Option<Vector>) {
    exists x :: Picks(ix.rows, ms, survivor, x) && From(ix, row, vector, x)
  }

  // ---- Every order ends with a pick ----

  lemma {:induction false} NewestGrows(rows: map<Id, Affinity>, ms: set<Id>, id: Id, x: Id)
    requires Newest(rows, ms, x) && id in rows && id !in ms
    ensures rows[id].last > rows[x].last ==> forall n :: Newest(rows, ms + {id}, n) <==> n == id
    ensures rows[id].last == rows[x].last ==> forall n :: Newest(rows, ms + {id}, n) <==> n == id || Newest(rows, ms, n)
    ensures rows[id].last < rows[x].last ==> forall n :: Newest(rows, ms + {id}, n) <==> Newest(rows, ms, n)
  {
    forall n
      ensures Newest(rows, ms + {id}, n) <==> n in ms + {id} && rows[n].last >= rows[x].last && rows[n].last >= rows[id].last
    {
      if n in ms + {id} && rows[n].last >= rows[x].last && rows[n].last >= rows[id].last {
        assert ms + {id} <= rows.Keys;
      }
      if Newest(rows, ms + {id}, n) {
        assert x in ms + {id} && id in ms + {id};
      }
    }
    forall n
      ensures Newest(rows, ms, n) <==> n in ms && rows[n].last >= rows[x].last
    {
      if Newest(rows, ms, n) {
        assert x in ms;
      }
    }
  }

  /** Merging one more row keeps the pick or makes the new row the pick. */
  lemma {:induction false} PickAfterMerge(rows: map<Id, Affinity>, ms: set<Id>, survivor: Id, id: Id, x: Id)
    requires Picks(rows, ms, survivor, x) && id in rows && id !in ms && survivor in ms
    ensures rows[id].last > rows[x].last || (rows[id].last == rows[x].last && id > survivor) ==> Picks(rows, ms + {id}, survivor, id)
    ensures rows[id].last < rows[x].last || (rows[id].last == rows[x].last && id < survivor) ==> Picks(rows, ms + {id}, survivor, x)
  {
    NewestGrows(rows, ms, id, x);
  }

  lemma {:induction false} MergePicks(ix: Index, ms: set<Id>, survivor: Id, id: Id, b: Affinity, vb: Option<Vector>)
    requires HasPick(ix, ms, survivor, b, vb) && survivor in ms && id !in ms
    requires id in ix.rows && ix.rows[id].updated == ix.rows[id].last
    ensures HasPick(ix, ms + {id}, survivor, MergeRows(id, ix.rows[id], survivor, b),
                    MergeVectors(IsLatest(id, ix.rows[id], survivor, b), VectorOf(ix.vectors, id), vb))
  {
    var x :| Picks(ix.rows, ms, survivor, x) && From(ix, b, vb, x);
    PickAfterMerge(ix.rows, ms, survivor, id, x);
    var y := if IsLatest(id, ix.rows[id], survivor, b) then id else x;
    assert Picks(ix.rows, ms + {id}, survivor, y);
    assert From(ix, MergeRows(id, ix.rows[id], survivor, b), MergeVectors(IsLatest(id, ix.rows[id], survivor, b), VectorOf(ix.vectors, id), vb), y);
  }

  lemma {:induction false} AlonePicks(ix: Index, id: Id, row: Affinity)
    requires id in ix.rows && row.(key := ix.rows[id].key) == ix.rows[id] && row.updated == row.last
    ensures HasPick(ix, {id}, id, row, VectorOf(ix.vectors, id))
  {
    assert Picks(ix.rows, {id}, id, id);
    assert From(ix, row, VectorOf(ix.vectors, id), id);
  }

  /** Every settled row carries a pick of its class as far as it is processed. */
  ghost predicate AllPicked(ix0: Index, targets: map<Id, Key>, ids: set<Id>, ix: Index) {
    forall i :: i in ix.rows && i !in ids ==>
      HasPick(ix0, Members(targets, ids, ix.rows[i].key), i, ix.rows[i], VectorOf(ix.vectors, i))
  }

  lemma {:induction false} SameMembers(targets: map<Id, Key>, ids: set<Id>, id: Id, k: Key)
    requires id in targets && id in ids
    ensures Members(targets, ids - {id}, k) == if k == targets[id] then Members(targets, ids, k) + {id} else Members(targets, ids, k)
  {
  }

  lemma {:induction false} MoveKeepsPicked(ix0: Index, targets: map<Id, Key>, ids: set<Id>, ix: Index, id: Id)
    requires id in ids && Traced(ix0, targets, ids, ix) && AllPicked(ix0, targets, ids, ix) && TimesAgree(ix0.rows)
    requires Occupant(ix.rows, id, targets[id]).None?
    ensures AllPicked(ix0, targets, ids - {id}, ix.(rows := ix.rows[id := ix.rows[id].(key := targets[id])]))
  {
    var row := ix.rows[id].(key := targets[id]);
    FreeTargetHasNoMembers(targets, ix.rows, ids, id);
    AlonePicks(ix0, id, row);
    forall i | i in ix.rows && i !in ids
      ensures Members(targets, ids - {id}, ix.rows[i].key) == Members(targets, ids, ix.rows[i].key)
    {
      assert !Holds(ix.rows, i, id, targets[id]);
      SameMembers(targets, ids, id, ix.rows[i].key);
    }
  }

  lemma {:induction false} MergedPickAt(ix0: Index, ms: set<Id>, ix: Index, id: Id, sid: Id)
    requires id in ix.rows && sid in ix.rows && id != sid && sid in ms && id !in ms && id in ix0.rows
    requires ix.rows[id] == ix0.rows[id] && VectorOf(ix.vectors, id) == VectorOf(ix0.vectors, id)
    requires HasPick(ix0, ms, sid, ix.rows[sid], VectorOf(ix.vectors, sid))
    requires ix0.rows[id].updated == ix0.rows[id].last
    ensures HasPick(ix0, ms + {id}, sid, MergeInto(ix, id, sid).rows[sid], VectorOf(MergeInto(ix, id, sid).vectors, sid))
  {
    MergePicks(ix0, ms, sid, id, ix.rows[sid], VectorOf(ix.vectors, sid));
    var v := MergeVectors(IsLatest(id, ix.rows[id], sid, ix.rows[sid]), VectorOf(ix.vectors, id), VectorOf(ix.vectors, sid));
    assert VectorOf(MergeInto(ix, id, sid).vectors, sid) == v;
  }

  lemma {:induction false} MergedPick(ix0: Index, targets: map<Id, Key>, ids: set<Id>, ix: Index, id: Id, sid: Id)
    requires id in ids && Traced(ix0, targets, ids, ix) && AllPicked(ix0, targets, ids, ix) && TimesAgree(ix0.rows)
    requires Sits(ix.rows, ids, sid, targets[id])
    ensures var ix' := MergeInto(ix, id, sid);
      HasPick(ix0, Members(targets, ids - {id}, targets[id]), sid, ix'.rows[sid], VectorOf(ix'.vectors, sid))
  {
    SameMembers(targets, ids, id, targets[id]);
    MergedPickAt(ix0, Members(targets, ids, targets[id]), ix, id, sid);
  }

  lemma {:induction false} OtherPick(ix0: Index, targets: map<Id, Key>, ids: set<Id>, ix: Index, id: Id, sid: Id, i: Id)
    requires id in ids && id in targets && UniqueKeys(ix.rows) && AllPicked(ix0, targets, ids, ix)
    requires id in ix.rows && Sits(ix.rows, ids, sid, targets[id]) && i in ix.rows && i !in ids && i != sid
    ensures var ix' := MergeInto(ix, id, sid);
      HasPick(ix0, Members(targets, ids - {id}, ix.rows[i].key), i, ix'.rows[i], VectorOf(ix'.vectors, i))
  {
    SameMembers(targets, ids, id, ix.rows[i].key);
    assert MergeInto(ix, id, sid).rows[i] == ix.rows[i] && VectorOf(MergeInto(ix, id, sid).vectors, i) == VectorOf(ix.vectors, i);
  }

  lemma {:induction false} MergeKeepsPicked(ix0: Index, targets: map<Id, Key>, ids: set<Id>, ix: Index, id: Id, sid: Id)
    requires id in ids && Traced(ix0, targets, ids, ix) && AllPicked(ix0, targets, ids, ix) && TimesAgree(ix0.rows)
    requires Sits(ix.rows, ids, sid, targets[id])
    ensures AllPicked(ix0, targets, ids - {id}, MergeInto(ix, id, sid))
  {
    var ix' := MergeInto(ix, id, sid);
    MergedKeys(ix, id, sid);
    MergedPick(ix0, targets, ids, ix, id, sid);
    forall i | i in ix'.rows && i !in ids - {id}
      ensures HasPick(ix0, Members(targets, ids - {id}, ix'.rows[i].key), i, ix'.rows[i], VectorOf(ix'.vectors, i))
    {
      if i != sid {
        OtherPick(ix0, targets, ids, ix, id, sid, i);
      }
    }
  }

  lemma {:induction false} MergedKeys(ix: Index, id: Id, sid: Id)
    requires id in ix.rows && sid in ix.rows && id != sid
    ensures var rows := MergeInto(ix, id, sid).rows;
      rows.Keys == ix.rows.Keys - {id} && forall i :: i in rows ==> rows[i].key == ix.rows[i].key
  {
  }

  lemma {:induction false} StepKeepsPicked(ix0: Index, targets: map<Id, Key>, ids: set<Id>, ix: Index, u: Update)
    requires u.id in ids && Traced(ix0, targets, ids, ix) && AllPicked(ix0, targets, ids, ix) && TimesAgree(ix0.rows)
    requires targets[u.id] == Retarget(ix0.rows[u.id].key, u)
    ensures AllPicked(ix0, targets, ids - {u.id}, Step(ix, u).index)
  {
    assert ix.rows[u.id] == ix0.rows[u.id];
    match Occupant(ix.rows, u.id, targets[u.id])
    case None => MoveKeepsPicked(ix0, targets, ids, ix, u.id);
    case Some(sid) =>
      assert Holds(ix.rows, sid, u.id, targets[u.id]);
      MergeKeepsPicked(ix0, targets, ids, ix, u.id, sid);
  }

  /** Everything known of a table in the middle of a batch, with the updates `us` still to come. */
  ghost predicate Prepared(ix0: Index, targets: map<Id, Key>, us: seq<Update>, ix: Index) {
    && NoRepeats(us) && Ids(us) <= ix0.rows.Keys && Aimed(ix0.rows, targets, us)
    && TimesAgree(ix0.rows)
    && Traced(ix0, targets, Ids(us), ix) && AllPicked(ix0, targets, Ids(us), ix)
  }

  lemma {:induction false} PendingStep(rows: map<Id, Affinity>, targets: map<Id, Key>, us: seq<Update>)
    requires us != [] && NoRepeats(us) && Ids(us) <= rows.Keys && Aimed(rows, targets, us)
    ensures NoRepeats(us[1..]) && Ids(us[1..]) <= rows.Keys && Aimed(rows, targets, us[1..])
    ensures Ids(us[1..]) == Ids(us) - {us[0].id} && us[0].id in Ids(us)
    ensures us[0].id in rows && us[0].id in targets && targets[us[0].id] == Retarget(rows[us[0].id].key, us[0])
  {
  }

  lemma {:induction false} TraceStep(ix0: Index, targets: map<Id, Key>, ids: set<Id>, left: set<Id>, ix: Index, u: Update)
    requires u.id in ids && left == ids - {u.id} && Traced(ix0, targets, ids, ix) && AllPicked(ix0, targets, ids, ix) && TimesAgree(ix0.rows)
    requires u.id in ix0.rows && targets[u.id] == Retarget(ix0.rows[u.id].key, u)
    ensures Traced(ix0, targets, left, Step(ix, u).index) && AllPicked(ix0, targets, left, Step(ix, u).index)
  {
    StepKeepsTrace(ix0, targets, ids, ix, u);
    StepKeepsPicked(ix0, targets, ids, ix, u);
  }

  lemma {:induction false} PreparedStep(ix0: Index, targets: map<Id, Key>, us: seq<Update>, ix: Index)
    requires us != [] && Prepared(ix0, targets, us, ix)
    ensures Prepared(ix0, targets, us[1..], Step(ix, us[0]).index)
  {
    PendingStep(ix0.rows, targets, us);
    TraceStep(ix0, targets, Ids(us), Ids(us[1..]), ix, us[0]);
  }

  ghost predicate Carried(holds: (seq<Update>, Index) -> bool) {
    forall us: seq<Update>, ix: Index {:trigger holds(us, ix)} :: us != [] && holds(us, ix) ==> holds(us[1..], Step(ix, us[0]).index)
  }

  /** What every step carries over holds in the middle of a batch. */
  lemma {:induction false} CarriedBetween(holds: (seq<Update>, Index) -> bool, a: seq<Update>, b: seq<Update>, ix: Index)
    requires Carried(holds) && holds(a + b, ix)
    ensures holds(b, Degrade(ix, a).index)
    decreases |a|
  {
    if a == [] {
      assert a + b == b;
    } else {
      assert (a + b)[0] == a[0] && (a + b)[1..] == a[1..] + b;
      CarriedBetween(holds, a[1..], b, Step(ix, a[0]).index);
    }
  }

  ghost function PreparedFor(ix0: Index, targets: map<Id, Key>): (seq<Update>, Index) -> bool {
    (us: seq<Update>, ix: Index) => Prepared(ix0, targets, us, ix)
  }

  lemma {:induction false} PreparedCarried(ix0: Index, targets: map<Id, Key>)
    ensures Carried(PreparedFor(ix0, targets))
  {
    forall us: seq<Update>, ix: Index | us != [] && PreparedFor(ix0, targets)(us, ix)
      ensures PreparedFor(ix0, targets)(us[1..], Step(ix, us[0]).index)
    {
      PreparedStep(ix0, targets, us, ix);
    }
  }

  lemma {:induction false} PreparedBetween(ix0: Index, targets: map<Id, Key>, a: seq<Update>, b: seq<Update>, ix: Index)
    requires Prepared(ix0, targets, a + b, ix)
    ensures Prepared(ix0, targets, b, Degrade(ix, a).index)
  {
    PreparedCarried(ix0, targets);
    CarriedBetween(PreparedFor(ix0, targets), a, b, ix);
  }

  /** Tables the updates may be run on. */
  ghost predicate Ready(ix: Index, us: seq<Update>) {
    UniqueKeys(ix.rows) && TimesAgree(ix.rows) && Separated(ix.rows, us)
  }

  /** Rows not updated stay where they are. */
  lemma {:induction false} OthersStay(ix: Index, us: seq<Update>, i: Id)
    requires i in ix.rows && i !in Ids(us)
    ensures i in Degrade(ix, us).index.rows
    decreases |us|
  {
    if us != [] {
      OthersStay(Step(ix, us[0]).index, us[1..], i);
    }
  }

  /** No row but `i` itself sat at its target from the start. */
  ghost predicate Survivable(rows: map<Id, Affinity>, us: seq<Update>, i: Id) {
    && i in rows
    && forall s :: s in rows && s !in Ids(us) && Targets(rows, us)[s] == Targets(rows, us)[i] ==> s == i
  }

  /** The rows of the class of `i`. */
  function Class(rows: map<Id, Affinity>, us: seq<Update>, i: Id): set<Id>
    requires i in rows
  {
    Members(Targets(rows, us), {}, Targets(rows, us)[i])
  }

  lemma {:induction false} StartPicked(ix: Index, us: seq<Update>)
    requires Ready(ix, us)
    ensures AllPicked(ix, Targets(ix.rows, us), Ids(us), ix)
  {
    var targets, ids := Targets(ix.rows, us), Ids(us);
    forall i | i in ix.rows && i !in ids
      ensures HasPick(ix, Members(targets, ids, ix.rows[i].key), i, ix.rows[i], VectorOf(ix.vectors, i))
    {
      assert Members(targets, ids, ix.rows[i].key) == {i};
      AlonePicks(ix, i, ix.rows[i]);
    }
  }

  lemma {:induction false} ReadyPrepared(ix: Index, us: seq<Update>)
    requires Ready(ix, us)
    ensures Prepared(ix, Targets(ix.rows, us), us, ix)
  {
    TraceStarts(ix, us);
    TargetsAim(ix.rows, us, Targets(ix.rows, us));
    StartPicked(ix, us);
  }

  lemma {:induction false} AllEndPicked(ix: Index, us: seq<Update>)
    requires Ready(ix, us)
    ensures AllPicked(ix, Targets(ix.rows, us), {}, Degrade(ix, us).index)
  {
    ReadyPrepared(ix, us);
    assert us + [] == us;
    PreparedBetween(ix, Targets(ix.rows, us), us, [], ix);
  }

  /** Whatever the order, a row that is left could survive and carries one of its picks. */
  lemma {:induction false} EveryOrderPicks(ix: Index, us: seq<Update>, i: Id)
    requires Ready(ix, us) && i in Degrade(ix, us).index.rows
    ensures Survivable(ix.rows, us, i)
    ensures HasPick(ix, Class(ix.rows, us, i), i, Degrade(ix, us).index.rows[i], VectorOf(Degrade(ix, us).index.vectors, i))
  {
    var targets, out := Targets(ix.rows, us), Degrade(ix, us).index;
    AllEndPicked(ix, us);
    DegradeIsGroupBy(ix, us);
    forall s | s in ix.rows && s !in Ids(us) && targets[s] == targets[i]
      ensures s == i
    {
      OthersStay(ix, us, s);
    }
  }

  // ---- Every pick is met by some order ----

  function Without(us: seq<Update>, drop: set<Id>): seq<Update> {
    if us == [] then [] else (if us[0].id in drop then [] else [us[0]]) + Without(us[1..], drop)
  }

  lemma {:induction false} WithoutKeeps(us: seq<Update>, drop: set<Id>)
    ensures forall u :: u in Without(us, drop) <==> u in us && u.id !in drop
    ensures Ids(Without(us, drop)) == Ids(us) - drop
    ensures NoRepeats(us) ==> NoRepeats(Without(us, drop))
  {
    if us != [] {
      WithoutKeeps(us[1..], drop);
      if us[0].id !in drop {
        assert Without(us, drop)[1..] == Without(us[1..], drop);
      } else {
        assert Without(us, drop) == Without(us[1..], drop);
      }
    }
  }

  lemma {:induction false} IdsAppend(a: seq<Update>, b: seq<Update>)
    ensures Ids(a + b) == Ids(a) + Ids(b)
    ensures NoRepeats(a) && NoRepeats(b) && Ids(a) !! Ids(b) ==> NoRepeats(a + b)
  {
    if a == [] {
      assert a + b == b;
    } else {
      IdsAppend(a[1..], b);
      assert (a + b)[1..] == a[1..] + b;
    }
  }

  lemma {:induction false} IdsOne(u: Update)
    ensures Ids([u]) == {u.id} && NoRepeats([u])
  {
    assert [u][1..] == [];
  }

  lemma {:induction false} DegradeAppend(ix: Index, a: seq<Update>, b: seq<Update>)
    ensures Degrade(ix, a + b).index == Degrade(Degrade(ix, a).index, b).index
    decreases |a|
  {
    if a == [] {
      assert a + b == b;
    } else {
      DegradeAppend(Step(ix, a[0]).index, a[1..], b);
      assert (a + b)[1..] == a[1..] + b;
    }
  }

  lemma {:induction false} DegradeOne(ix: Index, u: Update)
    ensures Degrade(ix, [u]).index == Step(ix, u).index
  {
    assert [u][1..] == [];
    assert Degrade(Step(ix, u).index, []).index == Step(ix, u).index;
  }

  /** The same updates in another order. */
  ghost predicate Reorders(us: seq<Update>, vs: seq<Update>) {
    NoRepeats(vs) && forall u :: u in us <==> u in vs
  }

  lemma {:induction false} SameIds(us: seq<Update>, vs: seq<Update>)
    requires forall u :: u in us ==> u in vs
    ensures Ids(us) <= Ids(vs)
  {
    forall i | i in Ids(us)
      ensures i in Ids(vs)
    {
      var u := UpdateOfId(us, i);
      IdOfUpdate(vs, u);
    }
  }

  lemma {:induction false} IdOfUpdate(us: seq<Update>, u: Update)
    requires u in us
    ensures u.id in Ids(us)
  {
    if u != us[0] {
      IdOfUpdate(us[1..], u);
    }
  }

  lemma {:induction false} ReorderedReady(ix: Index, us: seq<Update>, vs: seq<Update>)
    requires Ready(ix, us) && Reorders(us, vs)
    ensures Ready(ix, vs) && Ids(vs) == Ids(us) && Targets(ix.rows, vs) == Targets(ix.rows, us)
  {
    SameIds(us, vs);
    SameIds(vs, us);
    SameUpdatesSameTargets(ix.rows, us, vs);
  }

  /** One update moved to the front, the rest in order. */
  lemma {:induction false} FrontReorders(us: seq<Update>, u: Update)
    requires NoRepeats(us) && u in us
    ensures Reorders(us, [u] + Without(us, {u.id}))
  {
    WithoutKeeps(us, {u.id});
    IdsOne(u);
    IdsAppend([u], Without(us, {u.id}));
    forall v | v in us && v.id == u.id
      ensures v == u
    {
      UpdateIsUnique(us, u, v);
    }
  }

  lemma {:induction false} BackReorders(us: seq<Update>, u: Update)
    requires NoRepeats(us) && u in us
    ensures Reorders(us, Without(us, {u.id}) + [u])
  {
    WithoutKeeps(us, {u.id});
    IdsOne(u);
    IdsAppend(Without(us, {u.id}), [u]);
    forall v | v in us && v.id == u.id
      ensures v == u
    {
      UpdateIsUnique(us, u, v);
    }
  }

  lemma {:induction false} UpdateIsUnique(us: seq<Update>, u: Update, v: Update)
    requires NoRepeats(us) && u in us && v in us && u.id == v.id
    ensures u == v
  {
    if u != us[0] && v != us[0] {
      UpdateIsUnique(us[1..], u, v);
    } else if u != us[0] {
      IdOfUpdate(us[1..], u);
    } else if v != us[0] {
      IdOfUpdate(us[1..], v);
    }
  }

  lemma {:induction false} ReordersTwice(us: seq<Update>, vs: seq<Update>, ws: seq<Update>)
    requires Reorders(us, vs) && Reorders(vs, ws)
    ensures Reorders(us, ws)
  {
  }

  /** Row `i` is left and carries the example of `x`. */
  ghost predicate EndsWith(ix: Index, vs: seq<Update>, i: Id, x: Id) {
    i in Degrade(ix, vs).index.rows && From(ix, Degrade(ix, vs).index.rows[i], VectorOf(Degrade(ix, vs).index.vectors, i), x)
  }

  /** Processed first, a row whose target nobody holds keeps its id. */
  lemma {:induction false} FirstSurvives(ix: Index, vs: seq<Update>)
    requires Ready(ix, vs) && vs != [] && Survivable(ix.rows, vs, vs[0].id)
    ensures Occupant(ix.rows, vs[0].id, Targets(ix.rows, vs)[vs[0].id]).None?
    ensures Step(ix, vs[0]).index == ix.(rows := ix.rows[vs[0].id := ix.rows[vs[0].id].(key := Targets(ix.rows, vs)[vs[0].id])])
    ensures vs[0].id in Degrade(ix, vs).index.rows
  {
    var u, targets := vs[0], Targets(ix.rows, vs);
    TargetOfUpdate(ix.rows, vs, u);
    forall o | o in ix.rows && o != u.id
      ensures ix.rows[o].key != targets[u.id]
    {
      if o !in Ids(vs) {
        assert targets[o] == ix.rows[o].key;
      }
    }
    OthersStay(Step(ix, u).index, vs[1..], u.id);
  }

  /** An order in which `i` keeps its id. */
  lemma {:induction false} SurvivingOrder(ix: Index, us: seq<Update>, i: Id) returns (vs: seq<Update>)
    requires Ready(ix, us) && Survivable(ix.rows, us, i)
    ensures Reorders(us, vs) && i in Degrade(ix, vs).index.rows
    ensures i in Ids(us) ==> vs != [] && vs[0].id == i
  {
    if i in Ids(us) {
      var u := UpdateOfId(us, i);
      vs := [u] + Without(us, {i});
      FrontReorders(us, u);
      ReorderedReady(ix, us, vs);
      FirstSurvives(ix, vs);
    } else {
      vs := us;
      OthersStay(ix, us, i);
    }
  }

  lemma {:induction false} PickIsSurvivor(rows: map<Id, Affinity>, ms: set<Id>, i: Id, x: Id)
    requires Picks(rows, ms, i, i) && Picks(rows, ms, i, x)
    ensures x == i
  {
  }

  /** A survivor among the newest, none of them above it, keeps its own example in any order. */
  lemma {:induction false} OwnPickMet(ix: Index, us: seq<Update>, i: Id) returns (vs: seq<Update>)
    requires Ready(ix, us) && Survivable(ix.rows, us, i) && Picks(ix.rows, Class(ix.rows, us, i), i, i)
    ensures Reorders(us, vs) && EndsWith(ix, vs, i, i)
  {
    vs := SurvivingOrder(ix, us, i);
    ReorderedReady(ix, us, vs);
    EveryOrderPicks(ix, vs, i);
    var out := Degrade(ix, vs).index;
    var x :| Picks(ix.rows, Class(ix.rows, us, i), i, x) && From(ix, out.rows[i], VectorOf(out.vectors, i), x);
    PickIsSurvivor(ix.rows, Class(ix.rows, us, i), i, x);
  }

  // ---- A newest row above the survivor, processed last ----

  lemma {:induction false} Between(ix: Index, a: seq<Update>, b: seq<Update>)
    requires Ready(ix, a + b)
    ensures Prepared(ix, Targets(ix.rows, a + b), b, Degrade(ix, a).index)
  {
    ReadyPrepared(ix, a + b);
    PreparedBetween(ix, Targets(ix.rows, a + b), a, b, ix);
  }

  /** Row `i` carries the example of `x`. */
  ghost predicate Carries(ix0: Index, ix: Index, i: Id, x: Id) {
    i in ix.rows && From(ix0, ix.rows[i], VectorOf(ix.vectors, i), x)
  }

  /** Pending row `u` merges into settled row `i` of its class and leaves its example. */
  lemma {:induction false} NewestTakesOver(ix0: Index, targets: map<Id, Key>, ids: set<Id>, ix: Index, u: Update, i: Id)
    requires Traced(ix0, targets, ids, ix) && u.id in ids && targets[u.id] == Retarget(ix0.rows[u.id].key, u)
    requires ix0.rows[u.id].updated == ix0.rows[u.id].last
    requires i in ix.rows && i !in ids && targets[i] == targets[u.id]
    requires ix.rows[i].updated == ix.rows[i].last
    requires ix0.rows[u.id].last > ix.rows[i].last || (ix0.rows[u.id].last == ix.rows[i].last && u.id > i)
    ensures Carries(ix0, Step(ix, u).index, i, u.id)
  {
    PendingIntact(ix0, targets, ids, ix, u.id);
    SettledOccupies(ix0, targets, ids, ix, u.id, i);
    MergeTakesOver(ix0, ix, u.id, i);
  }

  lemma {:induction false} PendingIntact(ix0: Index, targets: map<Id, Key>, ids: set<Id>, ix: Index, id: Id)
    requires Traced(ix0, targets, ids, ix) && id in ids && id in ix0.rows
    ensures id in ix.rows && ix.rows[id] == ix0.rows[id] && VectorOf(ix.vectors, id) == VectorOf(ix0.vectors, id)
  {
  }

  lemma {:induction false} SettledOccupies(ix0: Index, targets: map<Id, Key>, ids: set<Id>, ix: Index, id: Id, i: Id)
    requires Traced(ix0, targets, ids, ix) && id in ids && id in targets && i in ix.rows && i !in ids && targets[i] == targets[id]
    ensures Occupant(ix.rows, id, targets[id]) == Some(i)
  {
    assert Holds(ix.rows, i, id, targets[id]);
    var o := Occupant(ix.rows, id, targets[id]);
    assert Holds(ix.rows, o.value, id, targets[id]);
  }

  lemma {:induction false} MergeTakesOver(ix0: Index, ix: Index, id: Id, i: Id)
    requires id in ix.rows && i in ix.rows && id != i && id in ix0.rows
    requires ix.rows[id] == ix0.rows[id] && VectorOf(ix.vectors, id) == VectorOf(ix0.vectors, id)
    requires ix.rows[id].updated == ix.rows[id].last && ix.rows[i].updated == ix.rows[i].last
    requires ix.rows[id].last > ix.rows[i].last || (ix.rows[id].last == ix.rows[i].last && id > i)
    ensures Carries(ix0, MergeInto(ix, id, i), i, id)
  {
  }

  /** The settled row's times are those of a row processed before. */
  lemma {:induction false} SettledTimes(ix0: Index, targets: map<Id, Key>, ids: set<Id>, ix: Index, i: Id, x: Id)
    requires Settled(targets, ix.rows, ids) && AllPicked(ix0, targets, ids, ix) && i in ix.rows && i !in ids
    requires Newest(ix0.rows, Members(targets, {}, targets[i]), x)
    ensures ix.rows[i].updated == ix.rows[i].last <= ix0.rows[x].last
  {
    var ms := Members(targets, ids, ix.rows[i].key);
    assert HasPick(ix0, ms, i, ix.rows[i], VectorOf(ix.vectors, i));
    var y :| Picks(ix0.rows, ms, i, y) && From(ix0, ix.rows[i], VectorOf(ix.vectors, i), y);
    assert y in Members(targets, {}, targets[i]);
  }

  lemma {:induction false} LastTakesOver(ix: Index, a: seq<Update>, u: Update, i: Id)
    requires Ready(ix, a + [u]) && i in Degrade(ix, a).index.rows && i != u.id && i in ix.rows && u.id in ix.rows
    requires Targets(ix.rows, a + [u])[i] == Targets(ix.rows, a + [u])[u.id]
    requires Picks(ix.rows, Class(ix.rows, a + [u], i), i, u.id) && u.id > i
    ensures EndsWith(ix, a + [u], i, u.id)
  {
    var targets, mid := Targets(ix.rows, a + [u]), Degrade(ix, a).index;
    Between(ix, a, [u]);
    IdsOne(u);
    assert u in a + [u];
    TargetOfUpdate(ix.rows, a + [u], u);
    SettledTimes(ix, targets, {u.id}, mid, i, u.id);
    NewestTakesOver(ix, targets, {u.id}, mid, u, i);
    DegradeAppend(ix, a, [u]);
    DegradeOne(mid, u);
  }

  /** The survivor's update in front, when it has one; then `x` at the end. */
  lemma {:induction false} AbovePickMet(ix: Index, us: seq<Update>, i: Id, x: Id) returns (vs: seq<Update>)
    requires Ready(ix, us) && Survivable(ix.rows, us, i) && x in ix.rows && Targets(ix.rows, us)[x] == Targets(ix.rows, us)[i]
    requires Picks(ix.rows, Class(ix.rows, us, i), i, x) && x > i
    ensures Reorders(us, vs) && EndsWith(ix, vs, i, x)
  {
    var ws := SurvivingOrder(ix, us, i);
    ReorderedReady(ix, us, ws);
    PickPending(ix, us, i, x);
    var u := UpdateOfId(ws, x);
    BackReorders(ws, u);
    vs := Without(ws, {x}) + [u];
    ReordersTwice(us, ws, vs);
    ReorderedReady(ix, us, vs);
    StillSurvives(ix, ws, vs, Without(ws, {x}), u, i);
    LastTakesOver(ix, Without(ws, {x}), u, i);
  }

  /** A pick other than the survivor was pending: a row at its target from the start would have survived. */
  lemma {:induction false} PickPending(ix: Index, us: seq<Update>, i: Id, x: Id)
    requires Survivable(ix.rows, us, i) && x in ix.rows && Targets(ix.rows, us)[x] == Targets(ix.rows, us)[i] && x != i
    ensures x in Ids(us)
  {
  }

  lemma {:induction false} StillSurvives(ix: Index, ws: seq<Update>, vs: seq<Update>, a: seq<Update>, u: Update, i: Id)
    requires Ready(ix, ws) && Ready(ix, vs) && a == Without(ws, {u.id}) && vs == a + [u] && i != u.id && i in ix.rows
    requires Ids(vs) == Ids(ws) && Targets(ix.rows, vs) == Targets(ix.rows, ws) && Survivable(ix.rows, ws, i)
    requires i in Ids(ws) ==> ws != [] && ws[0].id == i
    ensures i in Degrade(ix, a).index.rows
  {
    WithoutKeeps(ws, {u.id});
    if i in Ids(ws) {
      assert a != [] && a[0] == ws[0];
      assert vs[0] == a[0];
      FirstSurvives(ix, vs);
      assert i in Step(ix, a[0]).index.rows;
      assert i !in Ids(a[1..]) by {
        assert NoRepeats(a);
      }
      OthersStay(Step(ix, a[0]).index, a[1..], i);
    } else {
      OthersStay(ix, a, i);
    }
  }

  // ---- A newest row below the survivor, processed first ----

  /** Rows of the class that are still pending cannot replace the example of `x` any more. */
  ghost predicate Unbeaten(ix0: Index, targets: map<Id, Key>, ids: set<Id>, i: Id, x: Id) {
    forall j :: j in ids && j in ix0.rows && j in targets && i in targets && targets[j] == targets[i] ==>
      x in ix0.rows && (ix0.rows[j].last < ix0.rows[x].last || (ix0.rows[j].last == ix0.rows[x].last && j < i))
  }

  /** A pending row is still as it was, and merges with a settled row only if their targets agree. */
  lemma {:induction false} PendingMeets(ix0: Index, targets: map<Id, Key>, ids: set<Id>, ix: Index, u: Update, i: Id)
    requires Traced(ix0, targets, ids, ix) && u.id in ids && targets[u.id] == Retarget(ix0.rows[u.id].key, u)
    requires i in ix.rows && i !in ids
    ensures u.id in ix.rows && i in targets && ix.rows[u.id] == ix0.rows[u.id]
    ensures Occupant(ix.rows, u.id, Retarget(ix.rows[u.id].key, u)) == Some(i) ==> targets[u.id] == targets[i]
  {
    match Occupant(ix.rows, u.id, targets[u.id])
    case None =>
    case Some(o) => assert Holds(ix.rows, o, u.id, targets[u.id]);
  }

  lemma {:induction false} UnbeatenStep(ix0: Index, targets: map<Id, Key>, ids: set<Id>, ix: Index, u: Update, i: Id, x: Id)
    requires Traced(ix0, targets, ids, ix) && TimesAgree(ix0.rows) && u.id in ids && targets[u.id] == Retarget(ix0.rows[u.id].key, u)
    requires i !in ids && Carries(ix0, ix, i, x) && Unbeaten(ix0, targets, ids, i, x)
    ensures Carries(ix0, Step(ix, u).index, i, x)
  {
    PendingMeets(ix0, targets, ids, ix, u, i);
    StepSpares(ix0, ix, u, i, x);
  }

  lemma {:induction false} StepSpares(ix0: Index, ix: Index, u: Update, i: Id, x: Id)
    requires Carries(ix0, ix, i, x) && u.id in ix.rows && u.id != i && ix.rows[u.id].updated == ix.rows[u.id].last
    requires Occupant(ix.rows, u.id, Retarget(ix.rows[u.id].key, u)) == Some(i) ==>
      && x in ix0.rows && ix0.rows[x].updated == ix0.rows[x].last
      && (ix.rows[u.id].last < ix0.rows[x].last || (ix.rows[u.id].last == ix0.rows[x].last && u.id < i))
    ensures Carries(ix0, Step(ix, u).index, i, x)
  {
    match Occupant(ix.rows, u.id, Retarget(ix.rows[u.id].key, u))
    case None =>
    case Some(o) =>
      assert Holds(ix.rows, o, u.id, Retarget(ix.rows[u.id].key, u));
      if o == i {
        UnbeatenMerge(ix0, ix, u.id, i, x);
      }
  }

  /** A row that cannot beat the example leaves it in place. */
  lemma {:induction false} UnbeatenMerge(ix0: Index, ix: Index, id: Id, i: Id, x: Id)
    requires Carries(ix0, ix, i, x) && id in ix.rows && id != i && x in ix0.rows
    requires ix.rows[id].last < ix0.rows[x].last || (ix.rows[id].last == ix0.rows[x].last && id < i)
    requires ix0.rows[x].updated == ix0.rows[x].last && ix.rows[id].updated == ix.rows[id].last
    ensures Carries(ix0, MergeInto(ix, id, i), i, x)
  {
  }

  lemma {:induction false} UnbeatenStays(ix0: Index, targets: map<Id, Key>, ix: Index, us: seq<Update>, i: Id, x: Id)
    requires Prepared(ix0, targets, us, ix) && i !in Ids(us) && Carries(ix0, ix, i, x)
    requires Unbeaten(ix0, targets, Ids(us), i, x)
    ensures Carries(ix0, Degrade(ix, us).index, i, x)
    decreases |us|
  {
    if us != [] {
      UnbeatenStep(ix0, targets, Ids(us), ix, us[0], i, x);
      PreparedStep(ix0, targets, us, ix);
      UnbeatenStays(ix0, targets, Step(ix, us[0]).index, us[1..], i, x);
    }
  }

  lemma {:induction false} TakesOverForGood(ix0: Index, targets: map<Id, Key>, mid: Index, u: Update, rest: seq<Update>, i: Id)
    requires Prepared(ix0, targets, [u] + rest, mid) && i !in Ids([u] + rest) && i in mid.rows && i in targets && u.id in targets
    requires targets[i] == targets[u.id] && mid.rows[i].updated == mid.rows[i].last < ix0.rows[u.id].last
    requires Picks(ix0.rows, Members(targets, {}, targets[i]), i, u.id) && u.id < i
    ensures Carries(ix0, Degrade(mid, [u] + rest).index, i, u.id)
  {
    var all := [u] + rest;
    assert all[0] == u && all[1..] == rest;
    PreparedStep(ix0, targets, all, mid);
    NewestTakesOver(ix0, targets, Ids(all), mid, u, i);
    RestUnbeaten(ix0, targets, Ids(rest), i, u.id);
    UnbeatenStays(ix0, targets, Step(mid, u).index, rest, i, u.id);
  }

  /** After `i`, or with `i` in place from the start, `u` takes over and is never replaced. */
  lemma {:induction false} FirstTakesOver(ix: Index, a: seq<Update>, u: Update, rest: seq<Update>, i: Id)
    requires Ready(ix, a + ([u] + rest)) && i in Degrade(ix, a).index.rows && i !in Ids([u] + rest) && i in ix.rows && u.id in ix.rows
    requires Targets(ix.rows, a + ([u] + rest))[i] == Targets(ix.rows, a + ([u] + rest))[u.id]
    requires Degrade(ix, a).index.rows[i].updated == Degrade(ix, a).index.rows[i].last < ix.rows[u.id].last
    requires Picks(ix.rows, Class(ix.rows, a + ([u] + rest), i), i, u.id) && u.id < i
    ensures EndsWith(ix, a + ([u] + rest), i, u.id)
  {
    Between(ix, a, [u] + rest);
    TakesOverForGood(ix, Targets(ix.rows, a + ([u] + rest)), Degrade(ix, a).index, u, rest, i);
    DegradeAppend(ix, a, [u] + rest);
  }

  lemma {:induction false} RestUnbeaten(ix: Index, targets: map<Id, Key>, ids: set<Id>, i: Id, x: Id)
    requires targets.Keys == ix.rows.Keys && i in targets && Picks(ix.rows, Members(targets, {}, targets[i]), i, x) && x < i && i !in ids
    ensures Unbeaten(ix, targets, ids, i, x)
  {
    var ms := Members(targets, {}, targets[i]);
    forall j | j in ids && j in targets && targets[j] == targets[i]
      ensures ix.rows[j].last < ix.rows[x].last || (ix.rows[j].last == ix.rows[x].last && j < i)
    {
      assert j in ms;
      if ix.rows[j].last == ix.rows[x].last {
        assert Newest(ix.rows, ms, j);
      }
    }
  }

  lemma {:induction false} BelowPickMet(ix: Index, us: seq<Update>, i: Id, x: Id) returns (vs: seq<Update>)
    requires Ready(ix, us) && Survivable(ix.rows, us, i) && x in ix.rows && Targets(ix.rows, us)[x] == Targets(ix.rows, us)[i]
    requires Picks(ix.rows, Class(ix.rows, us, i), i, x) && x < i
    ensures Reorders(us, vs) && EndsWith(ix, vs, i, x)
  {
    PickPending(ix, us, i, x);
    var u := UpdateOfId(us, x);
    assert i in Class(ix.rows, us, i);
    assert ix.rows[i].last < ix.rows[x].last;
    if i in Ids(us) {
      var w := UpdateOfId(us, i);
      FrontReorders(us, u);
      var ws := [u] + Without(us, {x});
      ReorderedReady(ix, us, ws);
      FrontReorders(ws, w);
      vs := [w] + Without(ws, {i});
      ReordersTwice(us, ws, vs);
      ReorderedReady(ix, us, vs);
      FirstSurvives(ix, vs);
      assert ws[1..] == Without(us, {x});
      var rest := Without(Without(us, {x}), {i});
      assert Without(ws, {i}) == [u] + rest;
      DegradeOne(ix, w);
      WithoutKeeps(ws, {i});
      FirstTakesOver(ix, [w], u, rest, i);
    } else {
      FrontReorders(us, u);
      var rest := Without(us, {x});
      vs := [u] + rest;
      ReorderedReady(ix, us, vs);
      assert [] + vs == vs;
      FirstTakesOver(ix, [], u, rest, i);
    }
  }

  // ---- Exactly when the order shows ----

  ghost predicate Outcome(ix: Index, us: seq<Update>, i: Id, x: Id) {
    && x in ix.rows && Survivable(ix.rows, us, i) && Targets(ix.rows, us)[x] == Targets(ix.rows, us)[i]
    && Picks(ix.rows, Class(ix.rows, us, i), i, x)
  }

  /** Every outcome is met by some order. */
  lemma {:induction false} OutcomeMet(ix: Index, us: seq<Update>, i: Id, x: Id) returns (vs: seq<Update>)
    requires Ready(ix, us) && Outcome(ix, us, i, x)
    ensures Reorders(us, vs) && EndsWith(ix, vs, i, x)
  {
    if x == i {
      vs := OwnPickMet(ix, us, i);
    } else if x > i {
      vs := AbovePickMet(ix, us, i, x);
    } else {
      vs := BelowPickMet(ix, us, i, x);
    }
  }

  /** Whatever may be kept within one class, whoever survives, has one example. */
  ghost predicate OutcomeExamplesAgree(ix: Index, us: seq<Update>) {
    forall i, x, j, y :: Outcome(ix, us, i, x) && Outcome(ix, us, j, y) && Targets(ix.rows, us)[x] == Targets(ix.rows, us)[y] ==>
      SameExample(ix.rows[x], ix.rows[y])
  }

  /** And one vector. */
  ghost predicate OutcomeVectorsAgree(ix: Index, us: seq<Update>) {
    forall i, x, j, y :: Outcome(ix, us, i, x) && Outcome(ix, us, j, y) && Targets(ix.rows, us)[x] == Targets(ix.rows, us)[y] ==>
      VectorOf(ix.vectors, x) == VectorOf(ix.vectors, y)
  }

  /** The rows whose examples may be kept have their vectors; others, survivors among them, may lack theirs. */
  ghost predicate OutcomesHaveVectors(ix: Index, us: seq<Update>) {
    forall i, x :: Outcome(ix, us, i, x) ==> x in ix.vectors
  }

  ghost predicate SameRowsUpToIds(out1: Index, out2: Index) {
    && (forall k :: Occupied(out1.rows, k) <==> Occupied(out2.rows, k))
    && (forall i1, i2 :: i1 in out1.rows && i2 in out2.rows && out1.rows[i1].key == out2.rows[i2].key ==> out1.rows[i1] == out2.rows[i2])
  }

  /** Two orders of the same updates leave different rows, ids and vectors aside. */
  ghost predicate OrderShowsInRows(ix: Index, us: seq<Update>) {
    exists vs, ws :: Reorders(us, vs) && Reorders(us, ws) && !SameRowsUpToIds(Degrade(ix, vs).index, Degrade(ix, ws).index)
  }

  /** Two orders of the same updates leave different rows or vectors, ids aside. */
  ghost predicate OrderShows(ix: Index, us: seq<Update>) {
    exists vs, ws :: Reorders(us, vs) && Reorders(us, ws) && !SameUpToIds(Degrade(ix, vs).index, Degrade(ix, ws).index)
  }

  lemma {:induction false} AnOutcome(ix: Index, us: seq<Update>, vs: seq<Update>, i: Id) returns (x: Id)
    requires Ready(ix, us) && Reorders(us, vs) && i in Degrade(ix, vs).index.rows
    ensures Outcome(ix, us, i, x)
    ensures From(ix, Degrade(ix, vs).index.rows[i], VectorOf(Degrade(ix, vs).index.vectors, i), x)
  {
    ReorderedReady(ix, us, vs);
    EveryOrderPicks(ix, vs, i);
    var out := Degrade(ix, vs).index;
    x :| Picks(ix.rows, Class(ix.rows, us, i), i, x) && From(ix, out.rows[i], VectorOf(out.vectors, i), x);
    assert x in Class(ix.rows, us, i);
  }

  lemma {:induction false} AgreeingRows(ix: Index, us: seq<Update>, vs: seq<Update>, ws: seq<Update>, i: Id, j: Id)
    requires Ready(ix, us) && OutcomeExamplesAgree(ix, us) && Reorders(us, vs) && Reorders(us, ws)
    requires i in Degrade(ix, vs).index.rows && j in Degrade(ix, ws).index.rows
    requires Degrade(ix, vs).index.rows[i].key == Degrade(ix, ws).index.rows[j].key
    ensures Degrade(ix, vs).index.rows[i] == Degrade(ix, ws).index.rows[j]
    ensures OutcomeVectorsAgree(ix, us) && OutcomesHaveVectors(ix, us) ==>
      VectorOf(Degrade(ix, vs).index.vectors, i) == VectorOf(Degrade(ix, ws).index.vectors, j)
  {
    var out1, out2, targets := Degrade(ix, vs).index, Degrade(ix, ws).index, Targets(ix.rows, us);
    ReorderedReady(ix, us, vs);
    ReorderedReady(ix, us, ws);
    DegradeIsGroupBy(ix, vs);
    DegradeIsGroupBy(ix, ws);
    var x := AnOutcome(ix, us, vs, i);
    var y := AnOutcome(ix, us, ws, j);
    SameMeasures(ix, Members(targets, {}, targets[i]), out1.rows[i], VectorOf(out1.vectors, i), out2.rows[j], VectorOf(out2.vectors, j));
  }

  lemma {:induction false} SameOccupied(ix: Index, targets: map<Id, Key>, out1: Index, out2: Index)
    requires targets.Keys == ix.rows.Keys && GroupMerged(ix, targets, out1) && GroupMerged(ix, targets, out2)
    ensures forall k :: Occupied(out1.rows, k) <==> Occupied(out2.rows, k)
  {
    forall k
      ensures Occupied(out1.rows, k) <==> Occupied(out2.rows, k)
    {
      if Occupied(out1.rows, k) {
        OccupiedCarries(ix, targets, out1, out2, k);
      } else if Occupied(out2.rows, k) {
        OccupiedCarries(ix, targets, out2, out1, k);
      }
    }
  }

  lemma {:induction false} ReorderedOccupied(ix: Index, us: seq<Update>, vs: seq<Update>, ws: seq<Update>)
    requires Ready(ix, us) && Reorders(us, vs) && Reorders(us, ws)
    ensures forall k :: Occupied(Degrade(ix, vs).index.rows, k) <==> Occupied(Degrade(ix, ws).index.rows, k)
  {
    ReorderedReady(ix, us, vs);
    ReorderedReady(ix, us, ws);
    DegradeIsGroupBy(ix, vs);
    DegradeIsGroupBy(ix, ws);
    SameOccupied(ix, Targets(ix.rows, us), Degrade(ix, vs).index, Degrade(ix, ws).index);
  }

  lemma {:induction false} AgreeingHides(ix: Index, us: seq<Update>, vs: seq<Update>, ws: seq<Update>)
    requires Ready(ix, us) && OutcomeExamplesAgree(ix, us) && Reorders(us, vs) && Reorders(us, ws)
    ensures SameRowsUpToIds(Degrade(ix, vs).index, Degrade(ix, ws).index)
    ensures OutcomeVectorsAgree(ix, us) && OutcomesHaveVectors(ix, us) ==> SameUpToIds(Degrade(ix, vs).index, Degrade(ix, ws).index)
  {
    var out1, out2 := Degrade(ix, vs).index, Degrade(ix, ws).index;
    ReorderedOccupied(ix, us, vs, ws);
    forall i, j | i in out1.rows && j in out2.rows && out1.rows[i].key == out2.rows[j].key
      ensures out1.rows[i] == out2.rows[j]
      ensures OutcomeVectorsAgree(ix, us) && OutcomesHaveVectors(ix, us) ==> VectorOf(out1.vectors, i) == VectorOf(out2.vectors, j)
    {
      AgreeingRows(ix, us, vs, ws, i, j);
    }
  }

  /** Two outcomes of one class are both met, under one key. */
  lemma {:induction false} BothMet(ix: Index, us: seq<Update>, i: Id, x: Id, j: Id, y: Id) returns (vs: seq<Update>, ws: seq<Update>)
    requires Ready(ix, us) && Outcome(ix, us, i, x) && Outcome(ix, us, j, y) && Targets(ix.rows, us)[x] == Targets(ix.rows, us)[y]
    ensures Reorders(us, vs) && EndsWith(ix, vs, i, x) && Reorders(us, ws) && EndsWith(ix, ws, j, y)
    ensures Degrade(ix, vs).index.rows[i].key == Degrade(ix, ws).index.rows[j].key
  {
    vs := OutcomeMet(ix, us, i, x);
    ws := OutcomeMet(ix, us, j, y);
    ReorderedReady(ix, us, vs);
    ReorderedReady(ix, us, ws);
    DegradeIsGroupBy(ix, vs);
    DegradeIsGroupBy(ix, ws);
  }

  /** Main result: the order can be seen in the rows, ids aside, if and only if two possible outcomes of one class differ in their example. */
  lemma {:induction false} RowsShowExactlyWhen(ix: Index, us: seq<Update>)
    requires Ready(ix, us)
    ensures OrderShowsInRows(ix, us) <==> !OutcomeExamplesAgree(ix, us)
  {
    if OutcomeExamplesAgree(ix, us) {
      forall vs, ws | Reorders(us, vs) && Reorders(us, ws)
        ensures SameRowsUpToIds(Degrade(ix, vs).index, Degrade(ix, ws).index)
      {
        AgreeingHides(ix, us, vs, ws);
      }
    } else {
      var i, x, j, y :| Outcome(ix, us, i, x) && Outcome(ix, us, j, y) && Targets(ix.rows, us)[x] == Targets(ix.rows, us)[y] &&
        !SameExample(ix.rows[x], ix.rows[y]);
      var vs, ws := BothMet(ix, us, i, x, j, y);
      assert Degrade(ix, vs).index.rows[i] != Degrade(ix, ws).index.rows[j];
    }
  }

  lemma {:induction false} VectorsShow(ix: Index, us: seq<Update>, i: Id, x: Id, j: Id, y: Id)
    requires Ready(ix, us) && Outcome(ix, us, i, x) && Outcome(ix, us, j, y) && Targets(ix.rows, us)[x] == Targets(ix.rows, us)[y]
    requires x in ix.vectors && y in ix.vectors && ix.vectors[x] != ix.vectors[y]
    ensures OrderShows(ix, us)
  {
    var vs, ws := BothMet(ix, us, i, x, j, y);
    assert VectorOf(Degrade(ix, vs).index.vectors, i) == Some(ix.vectors[x]);
    assert VectorOf(Degrade(ix, ws).index.vectors, j) == Some(ix.vectors[y]);
  }

  /**
   * Main result: when the rows that may be kept have vectors, the order can be seen, ids aside, if and only if two
   * possible outcomes of one class differ in example or vector.
   */
  lemma {:induction false} OrderShowsExactlyWhen(ix: Index, us: seq<Update>)
    requires Ready(ix, us) && OutcomesHaveVectors(ix, us)
    ensures OrderShows(ix, us) <==> !(OutcomeExamplesAgree(ix, us) && OutcomeVectorsAgree(ix, us))
  {
    if !OutcomeExamplesAgree(ix, us) {
      RowsShowExactlyWhen(ix, us);
      RowsShowing(ix, us);
    } else if !OutcomeVectorsAgree(ix, us) {
      var i, x, j, y :| Outcome(ix, us, i, x) && Outcome(ix, us, j, y) && Targets(ix.rows, us)[x] == Targets(ix.rows, us)[y] &&
        VectorOf(ix.vectors, x) != VectorOf(ix.vectors, y);
      VectorsShow(ix, us, i, x, j, y);
    } else {
      NothingShows(ix, us);
    }
  }

  lemma {:induction false} NothingShows(ix: Index, us: seq<Update>)
    requires Ready(ix, us) && OutcomesHaveVectors(ix, us) && OutcomeExamplesAgree(ix, us) && OutcomeVectorsAgree(ix, us)
    ensures !OrderShows(ix, us)
  {
    forall vs, ws | Reorders(us, vs) && Reorders(us, ws)
      ensures SameUpToIds(Degrade(ix, vs).index, Degrade(ix, ws).index)
    {
      AgreeingHides(ix, us, vs, ws);
    }
  }

  lemma {:induction false} RowsShowing(ix: Index, us: seq<Update>)
    requires OrderShowsInRows(ix, us)
    ensures OrderShows(ix, us)
  {
    var vs, ws :| Reorders(us, vs) && Reorders(us, ws) && !SameRowsUpToIds(Degrade(ix, vs).index, Degrade(ix, ws).index);
    assert !SameUpToIds(Degrade(ix, vs).index, Degrade(ix, ws).index);
  }

  /** Distinct reinforcement times within a class leave no choice. */
  lemma {:induction false} DistinctTimesAgree(ix: Index, targets: map<Id, Key>)
    requires targets.Keys == ix.rows.Keys
    requires forall i, j :: i in targets && j in targets && targets[i] == targets[j] && ix.rows[i].last == ix.rows[j].last ==> i == j
    ensures LatestAgree(ix, targets)
  {
    forall i, j | NewestOfClass(ix.rows, targets, i) && NewestOfClass(ix.rows, targets, j) && targets[i] == targets[j]
      ensures i == j
    {
      assert i in Members(targets, {}, targets[j]) && j in Members(targets, {}, targets[i]);
    }
  }

  // ---- Two orders callers build ----

  lemma {:induction false} AscendingOne(x: Id)
    ensures Ascending({x}) == [x] && Ascending({}) == []
  {
    assert Least({x}) in {x};
    assert {x} - {x} == {};
  }

  function Row(key: Key, text: Text, time: Time): Affinity {
    Affinity(key, text, text, 2, 1, time, time, time)
  }

  /** One query and one entry: a row without precision, a later one of chunk 20, and one of block 5 from the same instant. */
  function TiedRows(): map<Id, Affinity> {
    var k := Key(0, 0, 7, None, None);
    map[1 := Row(k, 10, 0), 2 := Row(k.(chunk := Some(20)), 11, 5), 3 := Row(k.(block := Some(5)), 12, 5)]
  }

  function TiedStore(): Store {
    Store(map[], map[], map[(100, 7) := Receipt(None, None, 5), (101, 7) := Receipt(None, Some(20), 5), (102, 7) := Receipt(Some(5), None, 5)],
          map[7 := Stats(3, 5, 5)], TiedRows(), map[1 := [], 2 := [], 3 := []], 0)
  }

  lemma {:induction false} TiedReceipts()
    ensures StatsMatchReceipts(TiedStore().receipts, TiedStore().stats, 3)
  {
    var receipts := TiedStore().receipts;
    assert ReceiptsOf(receipts, 7) == {(100, 7), (101, 7), (102, 7)};
    forall e | e != 7
      ensures ReceiptsOf(receipts, e) == {}
    {
    }
  }

  lemma {:induction false} TiedStoreConsistent()
    ensures Consistent(TiedStore(), 3, 5)
  {
    TiedReceipts();
    TiedRowsFit();
  }

  lemma {:induction false} TiedRowsFit()
    ensures UniqueKeys(TiedRows()) && AllWithinStats(TiedRows(), TiedStore().stats) && StatsAttained(TiedRows(), TiedStore().stats)
  {
    assert Attains(TiedRows(), 2, 7, 5);
  }

  const CLEAR_CHUNK := Update(2, None, None)
  const CLEAR_BLOCK := Update(3, None, None)

  lemma {:induction false} SecondWins(u: Update, v: Update)
    requires {u, v} == {CLEAR_CHUNK, CLEAR_BLOCK} && u != v
    ensures var out := Degrade(IndexOf(TiedStore()), [u, v]).index; 1 in out.rows && out.rows[1].raw == TiedRows()[v.id].raw
  {
    LaterTieWins(IndexOf(TiedStore()), 1, u, v);
  }

  /** Deleting the block with its chunk clears the block's row first. */
  lemma {:induction false} TogetherBlockFirst()
    ensures DegradeBlock(TiedStore(), 5, {20}).affinities == Degrade(IndexOf(TiedStore()), [CLEAR_BLOCK, CLEAR_CHUNK]).index.rows
  {
    var rows := TiedRows();
    AscendingOne(3);
    AscendingOne(2);
    assert OfBlock(rows, 5) == {3} && OfChunks(rows, {20}) - OfBlock(rows, 5) == {2};
    assert BlockOrder(rows, 5, {20}) == [3, 2];
    assert [3, 2][1..] == [2] && [2][1..] == [];
    assert UpdatesFor(rows, [2], AwayFromBlock(5, {20})) == [CLEAR_CHUNK];
    assert UpdatesFor(rows, [3, 2], AwayFromBlock(5, {20})) == [CLEAR_BLOCK, CLEAR_CHUNK];
  }

  lemma {:induction false} ChunkAlone()
    ensures IndexOf(DegradeChunks(TiedStore(), {20})) == Degrade(IndexOf(TiedStore()), [CLEAR_CHUNK]).index
  {
    var rows := TiedRows();
    AscendingOne(2);
    assert Moved(rows, AwayFromChunks({20})) == {2};
    assert [2][1..] == [];
    assert UpdatesFor(rows, [2], AwayFromChunks({20})) == [CLEAR_CHUNK];
  }

  lemma {:induction false} AfterChunk()
    ensures var rows := Degrade(IndexOf(TiedStore()), [CLEAR_CHUNK]).index.rows;
      rows.Keys == {1, 3} && rows[1].key == TiedRows()[1].key && rows[3] == TiedRows()[3]
  {
    var ix := IndexOf(TiedStore());
    DegradeOne(ix, CLEAR_CHUNK);
    assert Holds(ix.rows, 1, 2, ix.rows[1].key);
    assert Retarget(ix.rows[2].key, CLEAR_CHUNK) == ix.rows[1].key;
    var o := Occupant(ix.rows, 2, ix.rows[1].key);
    assert Holds(ix.rows, o.value, 2, ix.rows[1].key);
    assert o.value == 1;
  }

  /** Replacing the chunk first and deleting the block later clears the chunk's row first. */
  lemma {:induction false} ApartChunkFirst()
    ensures DegradeBlock(DegradeChunks(TiedStore(), {20}), 5, {}).affinities ==
            Degrade(IndexOf(TiedStore()), [CLEAR_CHUNK, CLEAR_BLOCK]).index.rows
  {
    var s := DegradeChunks(TiedStore(), {20});
    ChunkAlone();
    AfterChunk();
    AscendingOne(3);
    assert OfBlock(s.affinities, 5) == {3} && OfChunks(s.affinities, {}) - OfBlock(s.affinities, 5) == {};
    assert BlockOrder(s.affinities, 5, {}) == [3];
    assert [3][1..] == [];
    assert UpdatesFor(s.affinities, [3], AwayFromBlock(5, {})) == [CLEAR_BLOCK];
    DegradeAppend(IndexOf(TiedStore()), [CLEAR_CHUNK], [CLEAR_BLOCK]);
    assert [CLEAR_CHUNK] + [CLEAR_BLOCK] == [CLEAR_CHUNK, CLEAR_BLOCK];
  }

  lemma {:induction false} TogetherKeepsChunkText()
    ensures 1 in DegradeBlock(TiedStore(), 5, {20}).affinities && DegradeBlock(TiedStore(), 5, {20}).affinities[1].raw == 11
  {
    TogetherBlockFirst();
    SecondWins(CLEAR_BLOCK, CLEAR_CHUNK);
  }

  lemma {:induction false} ApartKeepsBlockText()
    ensures var s := DegradeBlock(DegradeChunks(TiedStore(), {20}), 5, {}); 1 in s.affinities && s.affinities[1].raw == 12
  {
    ApartChunkFirst();
    SecondWins(CLEAR_CHUNK, CLEAR_BLOCK);
  }

  /** On one consistent store two ways to lose the same block and chunk keep different query texts. */
  lemma {:induction false} TiedTimesKeepLastProcessed() returns (s: Store, together: Store, apart: Store)
    ensures Consistent(s, 3, 5)
    ensures together == DegradeBlock(s, 5, {20}) && apart == DegradeBlock(DegradeChunks(s, {20}), 5, {})
    ensures 1 in together.affinities && 1 in apart.affinities
    ensures together.affinities[1].raw != apart.affinities[1].raw
  {
    TiedStoreConsistent();
    TogetherKeepsChunkText();
    ApartKeepsBlockText();
    s, together, apart := TiedStore(), DegradeBlock(TiedStore(), 5, {20}), DegradeBlock(DegradeChunks(TiedStore(), {20}), 5, {});
  }
}
