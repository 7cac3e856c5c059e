/**
 * Re-embedding after a model change: affinity rows are grouped by their model-independent key, the
 * provider embeds one example per group, and a fingerprint guards the replacement.
 */
module Reembedding {
  import opened Prelude
  import opened SignalTables
  import opened Fingerprint

  const MAX_PERSISTED_REINFORCEMENTS: nat := 3
  const EMPTY_TEXT: Text := 0

  datatype GroupKey = GroupKey(hash: Text, entry: Id, block: Option<Id>, chunk: Option<Id>)

  datatype Group = Group(survivor: Id, members: seq<Id>, raw: Text, effective: Text, count: nat,
                         last: Time, created: Time, updated: Time)

  function GroupKeyOf(k: Key): GroupKey {
    GroupKey(k.hash, k.entry, k.block, k.chunk)
  }

  function StartGroup(id: Id, a: Affinity): Group {
    Group(id, [id], a.raw, a.effective, Min(a.count, MAX_PERSISTED_REINFORCEMENTS), a.last, a.created, a.updated)
  }

  predicate Supersedes(id: Id, a: Affinity, g: Group) {
    || a.last > g.last
    || (a.last == g.last && (a.updated > g.updated || (a.updated == g.updated && id > g.survivor)))
  }

  function JoinGroup(g: Group, id: Id, a: Affinity): Group {
    var latest := Supersedes(id, a, g);
    Group(if latest then id else g.survivor, g.members + [id],
          if latest then a.raw else g.raw, if latest then a.effective else g.effective,
          Min(Max(g.count, a.count), MAX_PERSISTED_REINFORCEMENTS),
          if a.last > g.last then a.last else g.last,
          if a.created < g.created then a.created else g.created,
          if a.updated > g.updated then a.updated else g.updated)
  }

  function AddToGroups(groups: map<GroupKey, Group>, id: Id, a: Affinity): map<GroupKey, Group> {
    var k := GroupKeyOf(a.key);
    groups[k := if k in groups then JoinGroup(groups[k], id, a) else StartGroup(id, a)]
  }

  /** The grouping loop over the listed rows. */
  function GroupsOf(rows: map<Id, Affinity>, order: seq<Id>): map<GroupKey, Group>
    requires forall i :: i in order ==> i in rows
  {
    if order == [] then map[]
    else AddToGroups(GroupsOf(rows, order[..|order| - 1]), order[|order| - 1], rows[order[|order| - 1]])
  }

  /** The listed rows that share model-independent key `k`. */
  ghost predicate InGroup(rows: map<Id, Affinity>, order: seq<Id>, k: GroupKey, i: Id) {
    i in order && i in rows && GroupKeyOf(rows[i].key) == k
  }

  ghost predicate Capped(rows: map<Id, Affinity>) {
    forall i :: i in rows ==> rows[i].count <= MAX_PERSISTED_REINFORCEMENTS
  }

  /** Feedback writes one instant to both columns. */
  ghost predicate SingleClock(rows: map<Id, Affinity>) {
    forall i :: i in rows ==> rows[i].updated == rows[i].last
  }

  ghost predicate NoNewer(a: Affinity, i: Id, b: Affinity, j: Id) {
    a.last < b.last || (a.last == b.last && i <= j)
  }

  /** `g` aggregates exactly the listed rows of key `k`, and its survivor is the latest of them. */
  ghost predicate Summarises(rows: map<Id, Affinity>, order: seq<Id>, k: GroupKey, g: Group) {
    && Distinct(g.members)
    && (forall i :: i in g.members <==> InGroup(rows, order, k, i))
    && g.survivor in g.members && g.survivor in rows
    && g.last == rows[g.survivor].last == g.updated
    && g.raw == rows[g.survivor].raw && g.effective == rows[g.survivor].effective
    && (forall i :: InGroup(rows, order, k, i) ==>
          NoNewer(rows[i], i, rows[g.survivor], g.survivor) && rows[i].count <= g.count && g.created <= rows[i].created)
    && (exists i :: InGroup(rows, order, k, i) && rows[i].count == g.count)
    && (exists i :: InGroup(rows, order, k, i) && rows[i].created == g.created)
  }

  lemma {:induction false} StartSummarises(rows: map<Id, Affinity>, order: seq<Id>, id: Id)
    requires id in rows && SingleClock(rows) && Capped(rows)
    requires forall i :: !InGroup(rows, order, GroupKeyOf(rows[id].key), i)
    ensures Summarises(rows, order + [id], GroupKeyOf(rows[id].key), StartGroup(id, rows[id]))
  {
    var k := GroupKeyOf(rows[id].key);
    forall i
      ensures InGroup(rows, order + [id], k, i) <==> i == id
    {
      assert !InGroup(rows, order, k, i);
    }
  }

  lemma {:induction false} JoinSummarises(rows: map<Id, Affinity>, order: seq<Id>, id: Id, g: Group)
    requires id in rows && id !in order && SingleClock(rows) && Capped(rows)
    requires Summarises(rows, order, GroupKeyOf(rows[id].key), g)
    ensures Summarises(rows, order + [id], GroupKeyOf(rows[id].key), JoinGroup(g, id, rows[id]))
  {
    var k, a, g' := GroupKeyOf(rows[id].key), rows[id], JoinGroup(g, id, rows[id]);
    forall i
      ensures InGroup(rows, order + [id], k, i) <==> InGroup(rows, order, k, i) || i == id
    {
    }
    var c :| InGroup(rows, order, k, c) && rows[c].count == g.count;
    var d :| InGroup(rows, order, k, d) && rows[d].created == g.created;
    var c' := if a.count >= g.count then id else c;
    var d' := if a.created < g.created then id else d;
    assert InGroup(rows, order + [id], k, c') && rows[c'].count == g'.count;
    assert InGroup(rows, order + [id], k, d') && rows[d'].created == g'.created;
    assert forall i :: i in g'.members <==> i in g.members || i == id;
    assert !InGroup(rows, order, k, id);
  }

  ghost predicate AllSummarise(rows: map<Id, Affinity>, order: seq<Id>, groups: map<GroupKey, Group>) {
    && (forall k {:trigger Summarises(rows, order, k, groups[k])} :: k in groups ==> Summarises(rows, order, k, groups[k]))
    && (forall i :: i in order && i in rows ==> GroupKeyOf(rows[i].key) in groups)
  }

  lemma {:induction false} OtherGroupSummarises(rows: map<Id, Affinity>, order: seq<Id>, id: Id, k: GroupKey, g: Group)
    requires id in rows && k != GroupKeyOf(rows[id].key) && Summarises(rows, order, k, g)
    ensures Summarises(rows, order + [id], k, g)
  {
    forall i
      ensures InGroup(rows, order + [id], k, i) <==> InGroup(rows, order, k, i)
    {
    }
    var c :| InGroup(rows, order, k, c) && rows[c].count == g.count;
    assert InGroup(rows, order + [id], k, c);
    var d :| InGroup(rows, order, k, d) && rows[d].created == g.created;
    assert InGroup(rows, order + [id], k, d);
  }

  lemma {:induction false} AddedGroupSummarises(rows: map<Id, Affinity>, order: seq<Id>, id: Id, groups: map<GroupKey, Group>)
    requires id in rows && id !in order && SingleClock(rows) && Capped(rows) && AllSummarise(rows, order, groups)
    ensures var k := GroupKeyOf(rows[id].key); Summarises(rows, order + [id], k, AddToGroups(groups, id, rows[id])[k])
  {
    var k := GroupKeyOf(rows[id].key);
    if k in groups {
      JoinSummarises(rows, order, id, groups[k]);
    } else {
      forall i
        ensures !InGroup(rows, order, k, i)
      {
      }
      StartSummarises(rows, order, id);
    }
  }

  /** One more row keeps every group a summary of what has been read. */
  lemma {:induction false} AddSummarises(rows: map<Id, Affinity>, order: seq<Id>, id: Id, groups: map<GroupKey, Group>)
    requires id in rows && id !in order && SingleClock(rows) && Capped(rows) && AllSummarise(rows, order, groups)
    ensures AllSummarise(rows, order + [id], AddToGroups(groups, id, rows[id]))
  {
    var k, groups' := GroupKeyOf(rows[id].key), AddToGroups(groups, id, rows[id]);
    AddedGroupSummarises(rows, order, id, groups);
    forall j | j in groups'
      ensures Summarises(rows, order + [id], j, groups'[j])
    {
      if j != k {
        OtherGroupSummarises(rows, order, id, j, groups[j]);
      }
    }
    assert forall i :: i in order + [id] ==> i in order || i == id;
  }

  /** The finished grouping summarises every row exactly once. */
  lemma {:induction false} GroupingSummarises(rows: map<Id, Affinity>, order: seq<Id>)
    requires SingleClock(rows) && Capped(rows) && Distinct(order) && forall i :: i in order ==> i in rows
    ensures AllSummarise(rows, order, GroupsOf(rows, order))
  {
    if order != [] {
      var n := |order| - 1;
      assert order == order[..n] + [order[n]];
      GroupingSummarises(rows, order[..n]);
      AddSummarises(rows, order[..n], order[n], GroupsOf(rows, order[..n]));
    }
  }

  // ---- The plan ----

  function SortedIds(rows: map<Id, Affinity>): (order: seq<Id>)
    ensures forall i :: i in order <==> i in rows
    ensures Distinct(order)
  {
    AscendingDistinct(rows.Keys);
    Ascending(rows.Keys)
  }

  function AllGroups(rows: map<Id, Affinity>): map<GroupKey, Group> {
    GroupsOf(rows, SortedIds(rows))
  }

  function Survivors(groups: map<GroupKey, Group>): set<Id> {
    set k | k in groups :: groups[k].survivor
  }

  /** The provider inputs, one per survivor, and the fingerprint of the rows they were read from. */
  datatype Plan = Plan(inputs: seq<(Id, Text)>, fingerprint: Bytes)

  function Inputs(rows: map<Id, Affinity>, order: seq<Id>): seq<(Id, Text)>
    requires forall i :: i in order ==> i in rows
  {
    if order == [] then [] else [(order[0], rows[order[0]].effective)] + Inputs(rows, order[1..])
  }

  predicate SurvivesIn(groups: map<GroupKey, Group>, i: Id, a: Affinity) {
    GroupKeyOf(a.key) in groups && groups[GroupKeyOf(a.key)].survivor == i
  }

  // ---- The replacement ----

  datatype Denial =
    | EmptyModel
    | ZeroDimension
    | WrongDimension(id: Id)
    | NonFiniteValue(id: Id)
    | DuplicateVector(id: Id)
    | RowsChanged
    | VectorSetMismatch
    | VectorStorage

  predicate AllFinite(v: Vector) {
    forall x :: x in v ==> x.Finite?
  }

  /** Collecting the provided vectors by id; the first malformed one is reported. */
  function Collect(vectors: seq<(Id, Vector)>, dim: nat): Result<map<Id, Vector>, Denial> {
    if vectors == [] then Ok(map[])
    else
      var n := |vectors| - 1;
      match Collect(vectors[..n], dim)
      case Err(e) => Err(e)
      case Ok(byId) =>
        var (id, v) := vectors[n];
        if |v| != dim then Err(WrongDimension(id))
        else if !AllFinite(v) then Err(NonFiniteValue(id))
        else if id in byId then Err(DuplicateVector(id))
        else Ok(byId[id := v])
  }

  function Rewritten(a: Affinity, g: Group, model: Text, dim: nat): Affinity {
    Affinity(a.key.(model := model), g.raw, g.effective, dim, g.count, g.last, g.created, g.updated)
  }

  function RewrittenRows(rows: map<Id, Affinity>, groups: map<GroupKey, Group>, model: Text, dim: nat): map<Id, Affinity> {
    map i | i in rows && SurvivesIn(groups, i, rows[i]) :: Rewritten(rows[i], groups[GroupKeyOf(rows[i].key)], model, dim)
  }

  /** The tables after a committed replacement. */
  function Replaced(s: Store, model: Text, dim: nat, byId: map<Id, Vector>): Store {
    s.(affinities := RewrittenRows(s.affinities, AllGroups(s.affinities), model, dim), vectors := byId)
  }

  ghost function Replace(s: Store, sp: Spelling, model: Text, dim: nat, fingerprint: Bytes, vectors: seq<(Id, Vector)>):
      Result<Store, Denial>
  {
    if model == EMPTY_TEXT then Err(EmptyModel)
    else if dim == 0 then Err(ZeroDimension)
    else
      match Collect(vectors, dim)
      case Err(e) => Err(e)
      case Ok(byId) =>
        if Preimage(sp, s.affinities) != fingerprint then Err(RowsChanged)
        else if byId.Keys != Survivors(AllGroups(s.affinities)) then Err(VectorSetMismatch)
        else if s.affinities != map[] && dim != s.vecDim then Err(VectorStorage)
        else Ok(Replaced(s, model, dim, byId))
  }

  lemma {:induction false} GroupKeysOfRows(rows: map<Id, Affinity>, order: seq<Id>)
    requires forall i :: i in order ==> i in rows
    ensures forall k :: k in GroupsOf(rows, order) ==>
      InGroup(rows, order, k, GroupsOf(rows, order)[k].survivor)
  {
    if order != [] {
      var n := |order| - 1;
      GroupKeysOfRows(rows, order[..n]);
      assert order == order[..n] + [order[n]];
    }
  }

  /** A group's survivor is one of its rows; the survivors are the rows that survive in their own group. */
  lemma {:induction false} SurvivorsAreRows(rows: map<Id, Affinity>)
    ensures forall i :: i in Survivors(AllGroups(rows)) <==> i in rows && SurvivesIn(AllGroups(rows), i, rows[i])
  {
    var groups := AllGroups(rows);
    GroupKeysOfRows(rows, SortedIds(rows));
    forall i | i in Survivors(groups)
      ensures i in rows && SurvivesIn(groups, i, rows[i])
    {
      var k :| k in groups && groups[k].survivor == i;
      assert InGroup(rows, SortedIds(rows), k, i);
    }
  }

  ghost function PlanOf(s: Store, sp: Spelling): Plan {
    SurvivorsAreRows(s.affinities);
    AscendingDistinct(Survivors(AllGroups(s.affinities)));
    Plan(Inputs(s.affinities, Ascending(Survivors(AllGroups(s.affinities)))), Preimage(sp, s.affinities))
  }

  lemma {:induction false} CommitMeansFingerprint(s: Store, sp: Spelling, model: Text, dim: nat, fingerprint: Bytes, vectors: seq<(Id, Vector)>)
    requires Replace(s, sp, model, dim, fingerprint, vectors).Ok?
    ensures Preimage(sp, s.affinities) == fingerprint
  {
  }

  /** Main result: whatever happened since the plan, a replacement commits only on the very rows it planned. */
  lemma {:induction false} CommitMeansUnchanged(planned: Store, current: Store, sp: Spelling, model: Text, dim: nat, vectors: seq<(Id, Vector)>)
    requires Faithful(sp) && TableFits(sp, planned.affinities) && TableFits(sp, current.affinities)
    requires Replace(current, sp, model, dim, PlanOf(planned, sp).fingerprint, vectors).Ok?
    ensures current.affinities == planned.affinities
  {
    CommitMeansFingerprint(current, sp, model, dim, PlanOf(planned, sp).fingerprint, vectors);
    PreimageIsInjective(sp, planned.affinities, current.affinities);
  }

  function InputIds(inputs: seq<(Id, Text)>): set<Id> {
    if inputs == [] then {} else {inputs[0].0} + InputIds(inputs[1..])
  }

  function VectorIds(vectors: seq<(Id, Vector)>): set<Id> {
    if vectors == [] then {} else VectorIds(vectors[..|vectors| - 1]) + {vectors[|vectors| - 1].0}
  }

  predicate NoRepeatedVector(vectors: seq<(Id, Vector)>) {
    vectors == [] || (vectors[|vectors| - 1].0 !in VectorIds(vectors[..|vectors| - 1]) && NoRepeatedVector(vectors[..|vectors| - 1]))
  }

  /** Exactly one well-formed vector for each planned input. */
  ghost predicate Answers(plan: Plan, dim: nat, vectors: seq<(Id, Vector)>) {
    && (forall v :: v in vectors ==> |v.1| == dim && AllFinite(v.1))
    && NoRepeatedVector(vectors)
    && VectorIds(vectors) == InputIds(plan.inputs)
  }

  /** Collection succeeds exactly on distinct ids with finite vectors of the requested dimension. */
  lemma {:induction false} CollectSucceeds(vectors: seq<(Id, Vector)>, dim: nat)
    ensures Collect(vectors, dim).Ok? <==> (forall v :: v in vectors ==> |v.1| == dim && AllFinite(v.1)) && NoRepeatedVector(vectors)
    ensures Collect(vectors, dim).Ok? ==> Collect(vectors, dim).value.Keys == VectorIds(vectors)
    ensures Collect(vectors, dim).Ok? ==> forall i :: i in Collect(vectors, dim).value ==> |Collect(vectors, dim).value[i]| == dim
  {
    if vectors != [] {
      var n := |vectors| - 1;
      CollectSucceeds(vectors[..n], dim);
      assert forall v :: v in vectors <==> v in vectors[..n] || v == vectors[n];
    }
  }

  lemma {:induction false} InputsName(rows: map<Id, Affinity>, order: seq<Id>)
    requires forall i :: i in order ==> i in rows
    ensures InputIds(Inputs(rows, order)) == set i | i in order
  {
    if order != [] {
      InputsName(rows, order[1..]);
      assert forall i :: i in order <==> i == order[0] || i in order[1..];
    }
  }

  lemma {:induction false} PlanNamesSurvivors(s: Store, sp: Spelling)
    ensures InputIds(PlanOf(s, sp).inputs) == Survivors(AllGroups(s.affinities))
  {
    SurvivorsAreRows(s.affinities);
    AscendingDistinct(Survivors(AllGroups(s.affinities)));
    InputsName(s.affinities, Ascending(Survivors(AllGroups(s.affinities))));
  }

  /**
   * Main result: a fully answered plan commits if and only if the rows are the planned ones (and the
   * vector table, when it is needed, has the new dimension).
   */
  lemma {:induction false} AnsweredPlanCommits(planned: Store, current: Store, sp: Spelling, model: Text, dim: nat, vectors: seq<(Id, Vector)>)
    requires Faithful(sp) && TableFits(sp, planned.affinities) && TableFits(sp, current.affinities)
    requires model != EMPTY_TEXT && dim > 0 && Answers(PlanOf(planned, sp), dim, vectors)
    ensures Replace(current, sp, model, dim, PlanOf(planned, sp).fingerprint, vectors).Ok? <==>
      current.affinities == planned.affinities && (current.affinities == map[] || dim == current.vecDim)
  {
    CollectSucceeds(vectors, dim);
    PlanNamesSurvivors(planned, sp);
    if Replace(current, sp, model, dim, PlanOf(planned, sp).fingerprint, vectors).Ok? {
      CommitMeansUnchanged(planned, current, sp, model, dim, vectors);
    }
  }

  // ---- What a committed replacement leaves ----

  /** One row per model-independent key, all on the active model and dimension, each the summary of its group. */
  ghost predicate Coalesced(old_: map<Id, Affinity>, rows: map<Id, Affinity>, model: Text, dim: nat) {
    && rows.Keys <= old_.Keys
    && (forall i {:trigger rows[i]} :: i in rows ==> rows[i].key == old_[i].key.(model := model) && rows[i].dim == dim)
    && (forall i, j :: i in rows && j in rows && GroupKeyOf(rows[i].key) == GroupKeyOf(rows[j].key) ==> i == j)
    && (forall i {:trigger Represents(rows, old_, i)} :: i in old_ ==> Represents(rows, old_, i))
    && (forall i {:trigger Summary(old_, i, rows[i])} :: i in rows ==> Summary(old_, i, rows[i]))
  }

  /** Some kept row has old row `i`'s model-independent key. */
  ghost predicate Represents(rows: map<Id, Affinity>, old_: map<Id, Affinity>, i: Id)
    requires i in old_
  {
    exists j :: j in rows && GroupKeyOf(rows[j].key) == GroupKeyOf(old_[i].key)
  }

  /** Kept row `i` has the texts of the latest old row of its group (itself), and the group's extremes. */
  ghost predicate Summary(old_: map<Id, Affinity>, i: Id, row: Affinity) {
    && i in old_
    && row.raw == old_[i].raw && row.effective == old_[i].effective
    && row.last == old_[i].last == row.updated
    && (forall j :: j in old_ && GroupKeyOf(old_[j].key) == GroupKeyOf(row.key) ==>
          NoNewer(old_[j], j, old_[i], i) && old_[j].count <= row.count && row.created <= old_[j].created)
    && (exists j :: j in old_ && GroupKeyOf(old_[j].key) == GroupKeyOf(row.key) && old_[j].count == row.count)
    && (exists j :: j in old_ && GroupKeyOf(old_[j].key) == GroupKeyOf(row.key) && old_[j].created == row.created)
  }

  lemma {:induction false} RewrittenIsSummary(rows: map<Id, Affinity>, i: Id, g: Group, model: Text, dim: nat)
    requires i in rows && g.survivor == i && Summarises(rows, SortedIds(rows), GroupKeyOf(rows[i].key), g)
    ensures Summary(rows, i, Rewritten(rows[i], g, model, dim))
  {
    var order, k := SortedIds(rows), GroupKeyOf(rows[i].key);
    forall j | j in rows && GroupKeyOf(rows[j].key) == k
      ensures InGroup(rows, order, k, j)
    {
    }
    var c :| InGroup(rows, order, k, c) && rows[c].count == g.count;
    var d :| InGroup(rows, order, k, d) && rows[d].created == g.created;
    assert GroupKeyOf(rows[c].key) == k && GroupKeyOf(rows[d].key) == k;
  }

  /** The member lists of the groups partition the rows: each row is listed once, in the group of its key. */
  ghost predicate MembersPartition(rows: map<Id, Affinity>, groups: map<GroupKey, Group>) {
    && (forall i :: i in rows ==> GroupKeyOf(rows[i].key) in groups)
    && (forall k :: k in groups ==> Distinct(groups[k].members) && ListsGroup(rows, k, groups[k].members))
  }

  ghost predicate ListsGroup(rows: map<Id, Affinity>, k: GroupKey, members: seq<Id>) {
    forall i :: i in members <==> i in rows && GroupKeyOf(rows[i].key) == k
  }

  lemma {:induction false} GroupsPartition(rows: map<Id, Affinity>)
    requires SingleClock(rows) && Capped(rows)
    ensures MembersPartition(rows, AllGroups(rows))
  {
    GroupingSummarises(rows, SortedIds(rows));
    var groups := AllGroups(rows);
    forall k | k in groups
      ensures Distinct(groups[k].members) && ListsGroup(rows, k, groups[k].members)
    {
      assert Summarises(rows, SortedIds(rows), k, groups[k]);
      forall i
        ensures i in groups[k].members <==> i in rows && GroupKeyOf(rows[i].key) == k
      {
        assert i in groups[k].members <==> InGroup(rows, SortedIds(rows), k, i);
      }
    }
  }

  lemma {:induction false} ReplacedSummaries(s: Store, model: Text, dim: nat, byId: map<Id, Vector>)
    requires SingleClock(s.affinities) && Capped(s.affinities)
    ensures var rows' := Replaced(s, model, dim, byId).affinities;
      forall i {:trigger Summary(s.affinities, i, rows'[i])} :: i in rows' ==> Summary(s.affinities, i, rows'[i])
  {
    var rows, groups, rows' := s.affinities, AllGroups(s.affinities), Replaced(s, model, dim, byId).affinities;
    GroupingSummarises(rows, SortedIds(rows));
    forall i | i in rows'
      ensures Summary(rows, i, rows'[i])
    {
      var k := GroupKeyOf(rows[i].key);
      assert Summarises(rows, SortedIds(rows), k, groups[k]);
      RewrittenIsSummary(rows, i, groups[k], model, dim);
    }
  }

  lemma {:induction false} ReplacedRepresents(s: Store, model: Text, dim: nat, byId: map<Id, Vector>, i: Id)
    requires i in s.affinities
    ensures Represents(Replaced(s, model, dim, byId).affinities, s.affinities, i)
  {
    var rows, groups, rows' := s.affinities, AllGroups(s.affinities), Replaced(s, model, dim, byId).affinities;
    var k := GroupKeyOf(rows[i].key);
    EveryRowGrouped(rows, SortedIds(rows), i);
    GroupKeysOfRows(rows, SortedIds(rows));
    var j := groups[k].survivor;
    assert InGroup(rows, SortedIds(rows), k, j);
    assert j in rows' && GroupKeyOf(rows'[j].key) == k;
  }

  lemma {:induction false} EveryRowGrouped(rows: map<Id, Affinity>, order: seq<Id>, i: Id)
    requires i in order && forall j :: j in order ==> j in rows
    ensures GroupKeyOf(rows[i].key) in GroupsOf(rows, order)
  {
    var n := |order| - 1;
    if i != order[n] {
      assert order == order[..n] + [order[n]];
      EveryRowGrouped(rows, order[..n], i);
    }
  }

  lemma {:induction false} ReplacedKeys(s: Store, model: Text, dim: nat, byId: map<Id, Vector>)
    ensures var rows := Replaced(s, model, dim, byId).affinities;
      && rows.Keys <= s.affinities.Keys
      && (forall i {:trigger rows[i]} :: i in rows ==> rows[i].key == s.affinities[i].key.(model := model) && rows[i].dim == dim)
      && (forall i, j :: i in rows && j in rows && GroupKeyOf(rows[i].key) == GroupKeyOf(rows[j].key) ==> i == j)
  {
    var groups, rows := AllGroups(s.affinities), Replaced(s, model, dim, byId).affinities;
    forall i, j | i in rows && j in rows && GroupKeyOf(rows[i].key) == GroupKeyOf(rows[j].key)
      ensures i == j
    {
      assert SurvivesIn(groups, i, s.affinities[i]) && SurvivesIn(groups, j, s.affinities[j]);
    }
  }

  /** The vector table holds exactly the provided vectors, one per kept row. */
  lemma {:induction false} ReplacedVectors(s: Store, model: Text, dim: nat, byId: map<Id, Vector>)
    requires byId.Keys == Survivors(AllGroups(s.affinities))
    ensures byId.Keys == Replaced(s, model, dim, byId).affinities.Keys && Replaced(s, model, dim, byId).vectors == byId
    ensures forall i :: i in byId ==> Replaced(s, model, dim, byId).affinities[i].key == s.affinities[i].key.(model := model)
  {
    SurvivorsAreRows(s.affinities);
  }

  /** Main result: a committed replacement coalesces the rows into one summary per group. */
  lemma {:induction false} ReplacedCoalesces(s: Store, model: Text, dim: nat, byId: map<Id, Vector>)
    requires SingleClock(s.affinities) && Capped(s.affinities)
    ensures Coalesced(s.affinities, Replaced(s, model, dim, byId).affinities, model, dim)
  {
    ReplacedKeys(s, model, dim, byId);
    ReplacedSummaries(s, model, dim, byId);
    forall i | i in s.affinities
      ensures Represents(Replaced(s, model, dim, byId).affinities, s.affinities, i)
    {
      ReplacedRepresents(s, model, dim, byId, i);
    }
  }

  // ---- Half-way through a replacement ----

  lemma {:induction false} MembersAreGroup(rows: map<Id, Affinity>, order: seq<Id>, k: GroupKey)
    requires (forall i :: i in order ==> i in rows) && k in GroupsOf(rows, order)
    ensures forall i :: i in GroupsOf(rows, order)[k].members <==> InGroup(rows, order, k, i)
  {
    var n := |order| - 1;
    assert order == order[..n] + [order[n]];
    var groups := GroupsOf(rows, order[..n]);
    if k in groups {
      MembersAreGroup(rows, order[..n], k);
    } else {
      forall i | i in order[..n]
        ensures GroupKeyOf(rows[i].key) != k
      {
        EveryRowGrouped(rows, order[..n], i);
      }
    }
  }

  /** Every row is in the group of its key, and each group lists its rows and survives in one of them. */
  ghost predicate Grouped(rows: map<Id, Affinity>, groups: map<GroupKey, Group>) {
    && (forall i :: i in rows ==> GroupKeyOf(rows[i].key) in groups)
    && (forall k :: k in groups ==>
          ListsGroup(rows, k, groups[k].members) && groups[k].survivor in rows && GroupKeyOf(rows[groups[k].survivor].key) == k)
  }

  lemma {:induction false} AllGroupsGrouped(rows: map<Id, Affinity>)
    ensures Grouped(rows, AllGroups(rows))
  {
    var groups, order := AllGroups(rows), SortedIds(rows);
    forall i | i in rows
      ensures GroupKeyOf(rows[i].key) in groups
    {
      EveryRowGrouped(rows, order, i);
    }
    GroupKeysOfRows(rows, order);
    forall k | k in groups
      ensures ListsGroup(rows, k, groups[k].members) && groups[k].survivor in rows && GroupKeyOf(rows[groups[k].survivor].key) == k
    {
      MembersAreGroup(rows, order, k);
      assert InGroup(rows, order, k, groups[k].survivor);
      forall i
        ensures i in groups[k].members <==> i in rows && GroupKeyOf(rows[i].key) == k
      {
        assert i in groups[k].members <==> InGroup(rows, order, k, i);
      }
    }
  }

  /** The group each row belongs to. */
  ghost function OwnGroups(rows: map<Id, Affinity>, groups: map<GroupKey, Group>): map<Id, Group>
    requires Grouped(rows, groups)
  {
    map i | i in rows :: groups[GroupKeyOf(rows[i].key)]
  }

  /** The listed members are the rows whose group survives in `sid`, and no other row has its model-independent key. */
  ghost predicate Mates(rows: map<Id, Affinity>, own: map<Id, Group>, members: seq<Id>, sid: Id) {
    && own.Keys == rows.Keys && sid in rows && own[sid].survivor == sid
    && (forall i :: i in rows ==> (i in members <==> own[i].survivor == sid))
    && (forall i :: i in rows && i !in members ==> GroupKeyOf(rows[i].key) != GroupKeyOf(rows[sid].key))
  }

  lemma {:induction false} MateIsMember(rows: map<Id, Affinity>, groups: map<GroupKey, Group>, sid: Id, i: Id)
    requires Grouped(rows, groups) && sid in rows && SurvivesIn(groups, sid, rows[sid]) && i in rows
    ensures i in groups[GroupKeyOf(rows[sid].key)].members <==> groups[GroupKeyOf(rows[i].key)].survivor == sid
    ensures i in groups[GroupKeyOf(rows[sid].key)].members <==> GroupKeyOf(rows[i].key) == GroupKeyOf(rows[sid].key)
  {
    assert ListsGroup(rows, GroupKeyOf(rows[sid].key), groups[GroupKeyOf(rows[sid].key)].members);
  }

  lemma {:induction false} SurvivorsMates(rows: map<Id, Affinity>, groups: map<GroupKey, Group>, sid: Id)
    requires Grouped(rows, groups) && sid in Survivors(groups)
    ensures sid in rows && GroupKeyOf(rows[sid].key) in groups
    ensures Mates(rows, OwnGroups(rows, groups), groups[GroupKeyOf(rows[sid].key)].members, sid)
  {
    var k :| k in groups && groups[k].survivor == sid;
    forall i | i in rows
      ensures i in groups[k].members <==> groups[GroupKeyOf(rows[i].key)].survivor == sid
      ensures i in groups[k].members <==> GroupKeyOf(rows[i].key) == GroupKeyOf(rows[sid].key)
    {
      MateIsMember(rows, groups, sid, i);
    }
  }

  /** The row is the survivor of its group, found by its model-independent key. */
  ghost predicate HeadsGroup(rows: map<Id, Affinity>, groups: map<GroupKey, Group>, own: map<Id, Group>, sid: Id) {
    && sid in rows && sid in own && GroupKeyOf(rows[sid].key) in groups
    && own[sid] == groups[GroupKeyOf(rows[sid].key)] && Mates(rows, own, own[sid].members, sid)
  }

  lemma {:induction false} SurvivorsHead(rows: map<Id, Affinity>, groups: map<GroupKey, Group>)
    requires Grouped(rows, groups)
    ensures forall sid :: sid in Survivors(groups) ==> HeadsGroup(rows, groups, OwnGroups(rows, groups), sid)
  {
    forall sid | sid in Survivors(groups)
      ensures HeadsGroup(rows, groups, OwnGroups(rows, groups), sid)
    {
      SurvivorsMates(rows, groups, sid);
    }
  }

  /** Row `i` is left alone or is the survivor of its group. */
  ghost predicate Stays(g: Group, done: set<Id>, i: Id) {
    g.survivor in done ==> i == g.survivor
  }

  /** The rows once the groups of the survivors `done` have been rewritten. */
  ghost function MidwayRows(rows: map<Id, Affinity>, own: map<Id, Group>, done: set<Id>, model: Text, dim: nat): map<Id, Affinity>
    requires own.Keys == rows.Keys
  {
    map i | i in rows && Stays(own[i], done, i) :: if own[i].survivor in done then Rewritten(rows[i], own[i], model, dim) else rows[i]
  }

  function Picked(byId: map<Id, Vector>, ids: set<Id>): map<Id, Vector>
    requires ids <= byId.Keys
  {
    map i | i in ids :: byId[i]
  }

  lemma {:induction false} PickedAll(byId: map<Id, Vector>)
    ensures Picked(byId, byId.Keys) == byId
  {
  }

  /** The tables once the groups of the survivors `done` have been rewritten and indexed. */
  ghost function Midway(s: Store, own: map<Id, Group>, done: set<Id>, model: Text, dim: nat, byId: map<Id, Vector>): Store
    requires own.Keys == s.affinities.Keys && done <= byId.Keys
  {
    s.(affinities := MidwayRows(s.affinities, own, done, model, dim), vectors := Picked(byId, done))
  }

  function WithoutMembers(rows: map<Id, Affinity>, members: seq<Id>, survivor: Id): map<Id, Affinity> {
    map i | i in rows && (i == survivor || i !in members) :: rows[i]
  }

  /** What one more group does to one row: it is the survivor, another member, or elsewhere. */
  lemma {:induction false} MidwayRowStep(rows: map<Id, Affinity>, own: map<Id, Group>, members: seq<Id>, done: set<Id>, sid: Id,
                                         model: Text, dim: nat, i: Id)
    requires Mates(rows, own, members, sid) && sid !in done && i in rows
    ensures var mid := MidwayRows(rows, own, done, model, dim); var next := MidwayRows(rows, own, done + {sid}, model, dim);
      if i == sid then i in mid && mid[i] == rows[i] && i in next && next[i] == Rewritten(rows[i], own[i], model, dim)
      else if i in members then i !in next
      else (i in next <==> i in mid) && (i in mid ==> next[i] == mid[i])
  {
  }

  lemma {:induction false} MidwayStep(rows: map<Id, Affinity>, own: map<Id, Group>, members: seq<Id>, done: set<Id>, sid: Id,
                                      model: Text, dim: nat)
    requires Mates(rows, own, members, sid) && sid !in done
    ensures var kept := WithoutMembers(MidwayRows(rows, own, done, model, dim), members, sid);
      && sid in kept && kept[sid] == rows[sid]
      && kept[sid := Rewritten(rows[sid], own[sid], model, dim)] == MidwayRows(rows, own, done + {sid}, model, dim)
  {
    MidwayRowStep(rows, own, members, done, sid, model, dim, sid);
    forall i | i in rows && i != sid
      ensures var kept := WithoutMembers(MidwayRows(rows, own, done, model, dim), members, sid);
        var next := MidwayRows(rows, own, done + {sid}, model, dim);
        (i in next <==> i in kept) && (i in kept ==> next[i] == kept[i])
    {
      MidwayRowStep(rows, own, members, done, sid, model, dim, i);
    }
  }

  /** The rewritten survivor meets no other row of its model-independent key. */
  lemma {:induction false} SurvivorAlone(rows: map<Id, Affinity>, own: map<Id, Group>, members: seq<Id>, done: set<Id>, sid: Id,
                                         model: Text, dim: nat)
    requires Mates(rows, own, members, sid)
    ensures var kept := WithoutMembers(MidwayRows(rows, own, done, model, dim), members, sid);
      forall i :: i in kept && i != sid ==> GroupKeyOf(kept[i].key) != GroupKeyOf(rows[sid].key)
  {
    forall i | i in rows && i != sid && i !in members
      ensures var mid := MidwayRows(rows, own, done, model, dim);
        i in mid ==> GroupKeyOf(mid[i].key) != GroupKeyOf(rows[sid].key)
    {
    }
  }

  lemma {:induction false} SurvivorListed(rows: map<Id, Affinity>, groups: map<GroupKey, Group>, i: Id)
    requires Grouped(rows, groups) && i in rows
    ensures OwnGroups(rows, groups)[i].survivor in Survivors(groups)
  {
  }

  lemma {:induction false} MidwayRowsEnd(rows: map<Id, Affinity>, groups: map<GroupKey, Group>, done: set<Id>, model: Text, dim: nat)
    requires Grouped(rows, groups) && done == Survivors(groups)
    ensures MidwayRows(rows, OwnGroups(rows, groups), done, model, dim) == RewrittenRows(rows, groups, model, dim)
  {
    forall i | i in rows
      ensures OwnGroups(rows, groups)[i].survivor in done
    {
      SurvivorListed(rows, groups, i);
    }
  }

  /** Once every survivor is done, the half-way tables are the replaced ones. */
  lemma {:induction false} MidwayEnds(s: Store, groups: map<GroupKey, Group>, model: Text, dim: nat, byId: map<Id, Vector>)
    requires Grouped(s.affinities, groups) && byId.Keys == Survivors(groups)
    ensures Midway(s, OwnGroups(s.affinities, groups), byId.Keys, model, dim, byId)
            == s.(affinities := RewrittenRows(s.affinities, groups, model, dim), vectors := byId)
  {
    MidwayRowsEnd(s.affinities, groups, byId.Keys, model, dim);
    PickedAll(byId);
  }

  /** Every survivor heads its group, and rewriting them all replaces the tables. */
  lemma {:induction false} Owners(s: Store, model: Text, dim: nat, byId: map<Id, Vector>) returns (own: map<Id, Group>)
    requires byId.Keys == Survivors(AllGroups(s.affinities))
    ensures own.Keys == s.affinities.Keys
    ensures forall sid :: sid in byId ==> HeadsGroup(s.affinities, AllGroups(s.affinities), own, sid)
    ensures Midway(s, own, byId.Keys, model, dim, byId) == Replaced(s, model, dim, byId)
  {
    var groups := AllGroups(s.affinities);
    AllGroupsGrouped(s.affinities);
    own := OwnGroups(s.affinities, groups);
    SurvivorsHead(s.affinities, groups);
    MidwayEnds(s, groups, model, dim, byId);
  }

  // ---- Exactly what the provider is asked, and where its answers go ----

  /** The same query, entry and precision, whatever the model. */
  predicate SameSubject(a: Key, b: Key) {
    a.hash == b.hash && a.entry == b.entry && a.block == b.block && a.chunk == b.chunk
  }

  /** Row `i` is the last reinforced of its subject, the greatest id among equals. */
  ghost predicate LatestOfSubject(rows: map<Id, Affinity>, i: Id) {
    && i in rows
    && forall j :: j in rows && SameSubject(rows[j].key, rows[i].key) ==>
         rows[j].last < rows[i].last || (rows[j].last == rows[i].last && j <= i)
  }

  ghost predicate Asked(rows: map<Id, Affinity>, inputs: seq<(Id, Text)>, i: Id) {
    i in rows && exists n :: 0 <= n < |inputs| && inputs[n].0 == i && inputs[n].1 == rows[i].effective
  }

  /** The effective text of the latest row of every subject, once each, by id. */
  ghost predicate AsksLatest(rows: map<Id, Affinity>, inputs: seq<(Id, Text)>) {
    && (forall n :: 0 <= n < |inputs| ==> LatestOfSubject(rows, inputs[n].0) && inputs[n].1 == rows[inputs[n].0].effective)
    && (forall i :: LatestOfSubject(rows, i) ==> Asked(rows, inputs, i))
    && (forall n, m :: 0 <= n < m < |inputs| ==> inputs[n].0 < inputs[m].0)
  }

  lemma {:induction false} InputsAt(rows: map<Id, Affinity>, order: seq<Id>, n: nat)
    requires (forall i :: i in order ==> i in rows) && n < |order|
    ensures |Inputs(rows, order)| == |order| && Inputs(rows, order)[n] == (order[n], rows[order[n]].effective)
  {
    if n > 0 {
      InputsAt(rows, order[1..], n - 1);
    } else if |order| > 1 {
      InputsAt(rows, order[1..], 0);
    }
  }

  lemma {:induction false} InputsSize(rows: map<Id, Affinity>, order: seq<Id>)
    requires forall i :: i in order ==> i in rows
    ensures |Inputs(rows, order)| == |order|
  {
    if order != [] {
      InputsAt(rows, order, 0);
    }
  }

  /** The survivors are exactly the latest rows. */
  lemma {:induction false} SurvivorsAreLatest(rows: map<Id, Affinity>)
    requires SingleClock(rows) && Capped(rows)
    ensures forall i :: i in Survivors(AllGroups(rows)) <==> LatestOfSubject(rows, i)
  {
    SurvivorsAreRows(rows);
    GroupingSummarises(rows, SortedIds(rows));
    forall i | i in rows
      ensures i in Survivors(AllGroups(rows)) <==> LatestOfSubject(rows, i)
    {
      SurvivorIsLatest(rows, i);
    }
  }

  lemma {:induction false} SurvivorIsLatest(rows: map<Id, Affinity>, i: Id)
    requires AllSummarise(rows, SortedIds(rows), AllGroups(rows)) && i in rows
    ensures SurvivesIn(AllGroups(rows), i, rows[i]) <==> LatestOfSubject(rows, i)
  {
    var order, k := SortedIds(rows), GroupKeyOf(rows[i].key);
    var g := AllGroups(rows)[k];
    assert Summarises(rows, order, k, g);
    GroupIsSubject(rows, order, k, g, i);
  }

  lemma {:induction false} GroupIsSubject(rows: map<Id, Affinity>, order: seq<Id>, k: GroupKey, g: Group, i: Id)
    requires (forall j :: j in order <==> j in rows) && i in rows && k == GroupKeyOf(rows[i].key) && Summarises(rows, order, k, g)
    ensures g.survivor == i <==> LatestOfSubject(rows, i)
  {
    forall j | j in rows
      ensures InGroup(rows, order, k, j) <==> SameSubject(rows[j].key, rows[i].key)
    {
    }
    assert InGroup(rows, order, k, g.survivor) && InGroup(rows, order, k, i);
    assert NoNewer(rows[i], i, rows[g.survivor], g.survivor);
  }

  /** Inputs over an ascending list of exactly the latest rows. */
  lemma {:induction false} InputsAskLatest(rows: map<Id, Affinity>, order: seq<Id>)
    requires (forall i :: i in order ==> i in rows) && forall i :: i in order <==> LatestOfSubject(rows, i)
    requires forall n, m :: 0 <= n < m < |order| ==> order[n] < order[m]
    ensures AsksLatest(rows, Inputs(rows, order))
  {
    var inputs := Inputs(rows, order);
    InputsSize(rows, order);
    forall n | 0 <= n < |order|
      ensures inputs[n] == (order[n], rows[order[n]].effective) && order[n] in order
    {
      InputsAt(rows, order, n);
    }
    forall i | LatestOfSubject(rows, i)
      ensures Asked(rows, inputs, i)
    {
      var n :| 0 <= n < |order| && order[n] == i;
      assert inputs[n].0 == i;
    }
  }

  /** Main result: the plan sends the effective text of the latest row of every subject, each once, in id order. */
  lemma {:induction false} PlanAsksLatest(s: Store, sp: Spelling)
    requires SingleClock(s.affinities) && Capped(s.affinities)
    ensures AsksLatest(s.affinities, PlanOf(s, sp).inputs)
  {
    var survivors := Survivors(AllGroups(s.affinities));
    SurvivorsAreLatest(s.affinities);
    AscendingOrdered(survivors);
    AscendingMembers(survivors);
    SurvivorsAreRows(s.affinities);
    InputsAskLatest(s.affinities, Ascending(survivors));
  }

  /** Every subject has a latest row, so exactly one input answers for each row. */
  lemma {:induction false} OneInputPerSubject(s: Store, sp: Spelling, j: Id) returns (n: nat)
    requires SingleClock(s.affinities) && Capped(s.affinities) && j in s.affinities
    ensures var inputs := PlanOf(s, sp).inputs;
      && n < |inputs| && inputs[n].0 in s.affinities && SameSubject(s.affinities[inputs[n].0].key, s.affinities[j].key)
      && forall m :: 0 <= m < |inputs| && inputs[m].0 in s.affinities && SameSubject(s.affinities[inputs[m].0].key, s.affinities[j].key) ==> m == n
  {
    var rows, inputs := s.affinities, PlanOf(s, sp).inputs;
    PlanAsksLatest(s, sp);
    var i := SubjectHasLatest(rows, j);
    assert Asked(rows, inputs, i);
    n :| 0 <= n < |inputs| && inputs[n].0 == i && inputs[n].1 == rows[i].effective;
    forall m | 0 <= m < |inputs| && SameSubject(rows[inputs[m].0].key, rows[j].key)
      ensures m == n
    {
      assert LatestOfSubject(rows, inputs[m].0) && LatestOfSubject(rows, inputs[n].0);
    }
  }

  lemma {:induction false} SubjectHasLatest(rows: map<Id, Affinity>, j: Id) returns (i: Id)
    requires SingleClock(rows) && Capped(rows) && j in rows
    ensures LatestOfSubject(rows, i) && SameSubject(rows[i].key, rows[j].key)
  {
    var order, k := SortedIds(rows), GroupKeyOf(rows[j].key);
    GroupingSummarises(rows, order);
    var g := AllGroups(rows)[k];
    assert Summarises(rows, order, k, g);
    i := g.survivor;
    assert InGroup(rows, order, k, i);
    GroupIsSubject(rows, order, k, g, i);
  }

  lemma {:induction false} CollectedVectors(vectors: seq<(Id, Vector)>, dim: nat)
    requires Collect(vectors, dim).Ok?
    ensures forall v :: v in vectors ==> v.0 in Collect(vectors, dim).value && Collect(vectors, dim).value[v.0] == v.1
  {
    if vectors != [] {
      var n := |vectors| - 1;
      CollectedVectors(vectors[..n], dim);
      assert forall v :: v in vectors <==> v in vectors[..n] || v == vectors[n];
    }
  }

  /**
   * Main result: after a commit every planned id is a row whose effective text is the one planned for it, whose
   * vector is the one given for it, on the new model and dimension; and there is no other row.
   */
  lemma {:induction false} CommitAnswersPlan(planned: Store, current: Store, sp: Spelling, model: Text, dim: nat, vectors: seq<(Id, Vector)>)
    requires Faithful(sp) && TableFits(sp, planned.affinities) && TableFits(sp, current.affinities)
    requires SingleClock(planned.affinities) && Capped(planned.affinities)
    requires Replace(current, sp, model, dim, PlanOf(planned, sp).fingerprint, vectors).Ok?
    ensures var s' := Replace(current, sp, model, dim, PlanOf(planned, sp).fingerprint, vectors).value;
      && AnswersPlan(planned.affinities, PlanOf(planned, sp).inputs, s'.affinities, model, dim)
      && s'.vectors.Keys == s'.affinities.Keys
      && (forall v :: v in vectors ==> v.0 in s'.vectors && s'.vectors[v.0] == v.1)
  {
    CommitMeansUnchanged(planned, current, sp, model, dim, vectors);
    CommittedIs(current, sp, model, dim, PlanOf(planned, sp).fingerprint, vectors);
    var byId := Collect(vectors, dim).value;
    CollectedVectors(vectors, dim);
    ReplacedVectors(current, model, dim, byId);
    ReplacedAnswers(planned, sp, current, model, dim, byId);
  }

  /** Exactly the planned ids are rows, each with the text planned for it and the subject it had, on the model and dimension. */
  ghost predicate AnswersPlan(old_: map<Id, Affinity>, inputs: seq<(Id, Text)>, rows: map<Id, Affinity>, model: Text, dim: nat) {
    && (forall q :: q in inputs ==> q.0 in rows && rows[q.0].effective == q.1)
    && (forall i :: i in rows ==> i in InputIds(inputs) && i in old_ && KeptUnder(old_[i].key, rows[i], model, dim))
  }

  predicate KeptUnder(k: Key, row: Affinity, model: Text, dim: nat) {
    row.key.model == model && row.dim == dim && SameSubject(row.key, k)
  }

  lemma {:induction false} ReplacedAnswers(planned: Store, sp: Spelling, current: Store, model: Text, dim: nat, byId: map<Id, Vector>)
    requires SingleClock(planned.affinities) && Capped(planned.affinities) && current.affinities == planned.affinities
    requires byId.Keys == Survivors(AllGroups(planned.affinities))
    ensures AnswersPlan(planned.affinities, PlanOf(planned, sp).inputs, Replaced(current, model, dim, byId).affinities, model, dim)
  {
    PlanNamesSurvivors(planned, sp);
    ReplacedVectors(current, model, dim, byId);
    ReplacedUnder(current, model, dim, byId);
    ReplacedTexts(planned, sp, Replaced(current, model, dim, byId).affinities, model, dim, byId, current);
  }

  lemma {:induction false} ReplacedUnder(s: Store, model: Text, dim: nat, byId: map<Id, Vector>)
    ensures var rows := Replaced(s, model, dim, byId).affinities;
      forall i :: i in rows ==> i in s.affinities && KeptUnder(s.affinities[i].key, rows[i], model, dim)
  {
  }

  lemma {:induction false} CommittedIs(s: Store, sp: Spelling, model: Text, dim: nat, fingerprint: Bytes, vectors: seq<(Id, Vector)>)
    requires Replace(s, sp, model, dim, fingerprint, vectors).Ok?
    ensures Collect(vectors, dim).Ok? && Collect(vectors, dim).value.Keys == Survivors(AllGroups(s.affinities))
    ensures Replace(s, sp, model, dim, fingerprint, vectors).value == Replaced(s, model, dim, Collect(vectors, dim).value)
  {
  }

  lemma {:induction false} ReplacedTexts(planned: Store, sp: Spelling, rows': map<Id, Affinity>, model: Text, dim: nat, byId: map<Id, Vector>, current: Store)
    requires SingleClock(planned.affinities) && Capped(planned.affinities) && current.affinities == planned.affinities
    requires rows' == Replaced(current, model, dim, byId).affinities && rows'.Keys == Survivors(AllGroups(planned.affinities))
    ensures forall q :: q in PlanOf(planned, sp).inputs ==> q.0 in rows' && rows'[q.0].effective == q.1
  {
    var rows, inputs := planned.affinities, PlanOf(planned, sp).inputs;
    PlanAsksLatest(planned, sp);
    SurvivorsAreLatest(rows);
    ReplacedSummaries(current, model, dim, byId);
    forall q | q in inputs
      ensures q.0 in rows' && rows'[q.0].effective == q.1
    {
      var n :| 0 <= n < |inputs| && inputs[n] == q;
      assert LatestOfSubject(rows, inputs[n].0);
      assert Summary(rows, q.0, rows'[q.0]);
    }
  }

  // ---- Denials tell the truth ----

  /** The reason given for a denial holds of the tables or of the vectors. */
  ghost predicate Justly(s: Store, sp: Spelling, model: Text, dim: nat, fingerprint: Bytes, vectors: seq<(Id, Vector)>, denial: Denial) {
    match denial
    case EmptyModel => model == EMPTY_TEXT
    case ZeroDimension => dim == 0
    case WrongDimension(id) => exists v :: v in vectors && v.0 == id && |v.1| != dim
    case NonFiniteValue(id) => exists v :: v in vectors && v.0 == id && NonFinite in v.1
    case DuplicateVector(id) => exists n, m :: 0 <= n < m < |vectors| && vectors[n].0 == id == vectors[m].0
    case RowsChanged => Preimage(sp, s.affinities) != fingerprint
    case VectorSetMismatch => VectorIds(vectors) != Survivors(AllGroups(s.affinities))
    case VectorStorage => s.affinities != map[] && dim != s.vecDim
  }

  lemma {:induction false} VectorIdOf(vectors: seq<(Id, Vector)>, id: Id) returns (n: nat)
    requires id in VectorIds(vectors)
    ensures n < |vectors| && vectors[n].0 == id
  {
    if vectors[|vectors| - 1].0 == id {
      n := |vectors| - 1;
    } else {
      n := VectorIdOf(vectors[..|vectors| - 1], id);
    }
  }

  lemma {:induction false} CollectRefuses(s: Store, sp: Spelling, model: Text, dim: nat, fingerprint: Bytes, vectors: seq<(Id, Vector)>,
                                          all: seq<(Id, Vector)>)
    requires Collect(vectors, dim).Err? && vectors <= all
    ensures Justly(s, sp, model, dim, fingerprint, all, Collect(vectors, dim).error)
  {
    var n := |vectors| - 1;
    if Collect(vectors[..n], dim).Err? {
      CollectRefuses(s, sp, model, dim, fingerprint, vectors[..n], all);
    } else {
      var (id, v) := vectors[n];
      assert all[n] == vectors[n] && all[n] in all;
      if |v| == dim && AllFinite(v) {
        CollectSucceeds(vectors[..n], dim);
        var m := VectorIdOf(vectors[..n], id);
        assert all[m].0 == id;
      }
    }
  }

  /** A replacement is denied only for a reason that holds. */
  lemma {:induction false} DenialsAreTrue(s: Store, sp: Spelling, model: Text, dim: nat, fingerprint: Bytes, vectors: seq<(Id, Vector)>)
    requires Replace(s, sp, model, dim, fingerprint, vectors).Err?
    ensures Justly(s, sp, model, dim, fingerprint, vectors, Replace(s, sp, model, dim, fingerprint, vectors).error)
  {
    if model != EMPTY_TEXT && dim != 0 {
      if Collect(vectors, dim).Err? {
        CollectRefuses(s, sp, model, dim, fingerprint, vectors, vectors);
      } else {
        CollectSucceeds(vectors, dim);
      }
    }
  }
}
