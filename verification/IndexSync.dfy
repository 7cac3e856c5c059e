/**
 * Keeping the derived index in step with the `.nomai` files: an incremental pass driven by modification times,
 * a read-only comparison, and the wholesale rebuild they are measured against.
 * The file system is taken not to change during one pass.
 */
module IndexSync {
  import opened Prelude

  type Id = nat
  type Instant = int

  /** The `fs_mtime` column: NULL, or a text that may or may not parse. */
  datatype Stamp = Null | Text(parsed: Option<Instant>)

  /** An index row; `content` is all that is derived from the file. */
  datatype Row<C> = Row(stamp: Stamp, content: C)

  type Index<C> = map<Id, Row<C>>

  /**
   * `scan`: the ids directory names parse to, in directory order; two spellings may parse to one id.
   * `times`: the modification time of each file there is. `contents`: what indexing stores for each file it accepts.
   */
  datatype Disk<C> = Disk(scan: seq<Id>, times: map<Id, Instant>, contents: map<Id, C>)

  datatype Counts = Counts(added: nat, updated: nat, removed: nat, same: nat, reindexed: seq<Id>)

  datatype Drift = Drift(fsOnly: nat, dbOnly: nat, stale: nat, consistent: nat)

  // ---- One entry ----

  predicate Indexable<C>(fs: Disk<C>, id: Id) {
    id in fs.times && id in fs.contents
  }

  function FreshRow<C>(fs: Disk<C>, id: Id): Row<C>
    requires Indexable(fs, id)
  {
    Row(Text(Some(fs.times[id])), fs.contents[id])
  }

  /** Replaces the entry's row; a file that does not parse or cannot be stored leaves the index alone. */
  function Reindex<C>(index: Index<C>, fs: Disk<C>, id: Id): Option<Index<C>> {
    if Indexable(fs, id) then Some(index[id := FreshRow(fs, id)]) else None
  }

  // ---- Incremental pass ----

  datatype Verdict = Add | Refresh | Remove | Keep

  /** What the pass does about a scanned id, given the snapshot of the index taken at its start. */
  function Judge<C>(snapshot: Index<C>, fs: Disk<C>, id: Id): Verdict {
    if id !in snapshot then (if id in fs.times then Add else Keep)
    else if id !in fs.times then Remove
    else if snapshot[id].stamp == Text(Some(fs.times[id])) then Keep
    else Refresh
  }

  /** An entry must be indexed and cannot be. */
  predicate Fails<C>(snapshot: Index<C>, fs: Disk<C>, id: Id) {
    (Judge(snapshot, fs, id).Add? || Judge(snapshot, fs, id).Refresh?) && !Indexable(fs, id)
  }

  function Effect<C>(index: Index<C>, snapshot: Index<C>, fs: Disk<C>, id: Id): Index<C>
    requires !Fails(snapshot, fs, id)
  {
    match Judge(snapshot, fs, id)
    case Keep => index
    case Remove => index - {id}
    case _ => index[id := FreshRow(fs, id)]
  }

  function Tally(c: Counts, verdict: Verdict, id: Id): Counts {
    match verdict
    case Keep => c.(same := c.same + 1)
    case Remove => c.(removed := c.removed + 1)
    case Add => c.(added := c.added + 1, reindexed := c.reindexed + [id])
    case Refresh => c.(updated := c.updated + 1, reindexed := c.reindexed + [id])
  }

  /** `ok` turns false at the first failing entry; what was done before stays done. */
  datatype Pass<C> = Pass(index: Index<C>, counts: Counts, ok: bool)

  function SyncOne<C>(p: Pass<C>, snapshot: Index<C>, fs: Disk<C>, id: Id): Pass<C> {
    if !p.ok then p
    else if Fails(snapshot, fs, id) then p.(ok := false)
    else Pass(Effect(p.index, snapshot, fs, id), Tally(p.counts, Judge(snapshot, fs, id), id), true)
  }

  function SyncScan<C>(snapshot: Index<C>, fs: Disk<C>, ids: seq<Id>): Pass<C> {
    if ids == [] then Pass(snapshot, Counts(0, 0, 0, 0, []), true)
    else SyncOne(SyncScan(snapshot, fs, ids[..|ids| - 1]), snapshot, fs, ids[|ids| - 1])
  }

  function Ids(ids: seq<Id>): set<Id> {
    set id | id in ids
  }

  /** Rows whose directory is gone. */
  function Orphans<C>(index: Index<C>, fs: Disk<C>): set<Id> {
    index.Keys - Ids(fs.scan)
  }

  function Swept<C>(p: Pass<C>, gone: set<Id>): Pass<C> {
    if !p.ok then p else p.(index := p.index - gone, counts := p.counts.(removed := p.counts.removed + |gone|))
  }

  function Sync<C>(index: Index<C>, fs: Disk<C>): Pass<C> {
    Swept(SyncScan(index, fs, fs.scan), Orphans(index, fs))
  }

  // ---- Rebuild ----

  datatype Rebuilt<C> = Rebuilt(index: Index<C>, reindexed: nat, errors: seq<Id>)

  function RebuildOne<C>(r: Rebuilt<C>, fs: Disk<C>, id: Id): Rebuilt<C> {
    match Reindex(r.index, fs, id)
    case Some(index) => Rebuilt(index, r.reindexed + 1, r.errors)
    case None => Rebuilt(r.index, r.reindexed, r.errors + [id])
  }

  function RebuildScan<C>(fs: Disk<C>, ids: seq<Id>): Rebuilt<C> {
    if ids == [] then Rebuilt(map[], 0, [])
    else RebuildOne(RebuildScan(fs, ids[..|ids| - 1]), fs, ids[|ids| - 1])
  }

  /** Wiped, then every scanned entry reindexed; failures are listed and skipped. */
  function Rebuild<C>(fs: Disk<C>): Rebuilt<C> {
    RebuildScan(fs, fs.scan)
  }

  // ---- What a pass leaves ----

  ghost predicate SameRow<C>(a: Index<C>, b: Index<C>, id: Id) {
    (id in a <==> id in b) && (id in a ==> a[id] == b[id])
  }

  ghost predicate SettledAt<C>(snapshot: Index<C>, fs: Disk<C>, id: Id, index: Index<C>) {
    match Judge(snapshot, fs, id)
    case Keep => SameRow(index, snapshot, id)
    case Remove => id !in index
    case _ => Indexable(fs, id) && id in index && index[id] == FreshRow(fs, id)
  }

  /** Once the ids `done` have been passed over: each ends as judged, every other row is as it was. */
  ghost predicate Settled<C>(snapshot: Index<C>, fs: Disk<C>, done: set<Id>, index: Index<C>) {
    forall id :: if id in done then SettledAt(snapshot, fs, id, index) else SameRow(index, snapshot, id)
  }

  lemma {:induction false} IdsPush(init: seq<Id>, last: Id)
    ensures Ids(init + [last]) == Ids(init) + {last}
  {
  }

  lemma {:induction false} EffectSettles<C>(snapshot: Index<C>, fs: Disk<C>, done: set<Id>, index: Index<C>, id: Id)
    requires Settled(snapshot, fs, done, index) && !Fails(snapshot, fs, id)
    ensures Settled(snapshot, fs, done + {id}, Effect(index, snapshot, fs, id))
  {
    var after := Effect(index, snapshot, fs, id);
    forall k
      ensures if k in done + {id} then SettledAt(snapshot, fs, k, after) else SameRow(after, snapshot, k)
    {
      assert if k in done then SettledAt(snapshot, fs, k, index) else SameRow(index, snapshot, k);
    }
  }

  lemma {:induction false} ScanSettles<C>(snapshot: Index<C>, fs: Disk<C>, ids: seq<Id>)
    requires SyncScan(snapshot, fs, ids).ok
    ensures Settled(snapshot, fs, Ids(ids), SyncScan(snapshot, fs, ids).index)
  {
    if ids != [] {
      var init, last := ids[..|ids| - 1], ids[|ids| - 1];
      ScanSettles(snapshot, fs, init);
      assert ids == init + [last];
      IdsPush(init, last);
      EffectSettles(snapshot, fs, Ids(init), SyncScan(snapshot, fs, init).index, last);
    }
  }

  /** The rebuilt index: the indexable ones among the ids, freshly derived. */
  ghost predicate FreshFor<C>(fs: Disk<C>, ids: set<Id>, index: Index<C>) {
    && (forall id :: id in index <==> id in ids && Indexable(fs, id))
    && (forall id :: id in index ==> Indexable(fs, id) && index[id] == FreshRow(fs, id))
  }

  lemma {:induction false} RebuildIsFresh<C>(fs: Disk<C>, ids: seq<Id>)
    ensures FreshFor(fs, Ids(ids), RebuildScan(fs, ids).index)
  {
    if ids != [] {
      var init, last := ids[..|ids| - 1], ids[|ids| - 1];
      RebuildIsFresh(fs, init);
      assert ids == init + [last];
      IdsPush(init, last);
    }
  }

  /** A row the pass leaves alone because its time matches. */
  predicate Skipped<C>(index: Index<C>, fs: Disk<C>, id: Id) {
    id in index && id in fs.times && index[id].stamp == Text(Some(fs.times[id]))
  }

  /** Every such row really was derived from its file. */
  ghost predicate SkippedRowsDerived<C>(index: Index<C>, fs: Disk<C>) {
    forall id :: id in Ids(fs.scan) && Skipped(index, fs, id) ==> Indexable(fs, id) && index[id] == FreshRow(fs, id)
  }

  /** After the sweep too: only scanned ids are left, each as judged. */
  lemma {:induction false} SyncedRows<C>(index: Index<C>, fs: Disk<C>)
    requires Sync(index, fs).ok
    ensures forall id :: id in Sync(index, fs).index ==> id in Ids(fs.scan)
    ensures forall id :: id in Ids(fs.scan) ==> SettledAt(index, fs, id, Sync(index, fs).index)
  {
    ScanSettles(index, fs, fs.scan);
    var scanned, synced := SyncScan(index, fs, fs.scan).index, Sync(index, fs).index;
    assert synced == scanned - Orphans(index, fs);
    forall id | id in Ids(fs.scan)
      ensures SettledAt(index, fs, id, synced)
    {
      assert SettledAt(index, fs, id, scanned) && SameRow(synced, scanned, id);
    }
    forall id | id !in Ids(fs.scan)
      ensures id !in synced
    {
      assert SameRow(scanned, index, id);
    }
  }

  lemma {:induction false} SyncedFresh<C>(index: Index<C>, fs: Disk<C>, synced: Index<C>)
    requires SkippedRowsDerived(index, fs)
    requires forall id :: id in synced ==> id in Ids(fs.scan)
    requires forall id :: id in Ids(fs.scan) ==> SettledAt(index, fs, id, synced)
    ensures FreshFor(fs, Ids(fs.scan), synced)
  {
    forall id | id in Ids(fs.scan)
      ensures id in synced <==> Indexable(fs, id)
      ensures id in synced ==> synced[id] == FreshRow(fs, id)
    {
      assert SettledAt(index, fs, id, synced);
    }
  }

  lemma {:induction false} FreshUnique<C>(fs: Disk<C>, ids: set<Id>, a: Index<C>, b: Index<C>)
    requires FreshFor(fs, ids, a) && FreshFor(fs, ids, b)
    ensures a == b
  {
  }

  lemma {:induction false} RebuiltSkips<C>(index: Index<C>, fs: Disk<C>, synced: Index<C>)
    requires FreshFor(fs, Ids(fs.scan), synced)
    requires forall id :: id in Ids(fs.scan) ==> SettledAt(index, fs, id, synced)
    ensures SkippedRowsDerived(index, fs)
  {
    forall id | id in Ids(fs.scan) && Skipped(index, fs, id)
      ensures Indexable(fs, id) && index[id] == FreshRow(fs, id)
    {
      assert SettledAt(index, fs, id, synced) && SameRow(synced, index, id);
    }
  }

  /** Main result: a pass that succeeds leaves exactly the rebuilt index if and only if every row it skipped was derived from its file. */
  lemma {:induction false} SyncRefinesRebuild<C>(index: Index<C>, fs: Disk<C>)
    requires Sync(index, fs).ok
    ensures Sync(index, fs).index == Rebuild(fs).index <==> SkippedRowsDerived(index, fs)
  {
    var synced, rebuilt := Sync(index, fs).index, Rebuild(fs).index;
    SyncedRows(index, fs);
    RebuildIsFresh(fs, fs.scan);
    SameIffDerived(index, fs, synced, rebuilt);
  }

  lemma {:induction false} SameIffDerived<C>(index: Index<C>, fs: Disk<C>, synced: Index<C>, rebuilt: Index<C>)
    requires FreshFor(fs, Ids(fs.scan), rebuilt)
    requires forall id :: id in synced ==> id in Ids(fs.scan)
    requires forall id :: id in Ids(fs.scan) ==> SettledAt(index, fs, id, synced)
    ensures synced == rebuilt <==> SkippedRowsDerived(index, fs)
  {
    if synced == rebuilt {
      RebuiltSkips(index, fs, synced);
    }
    if SkippedRowsDerived(index, fs) {
      SyncedFresh(index, fs, synced);
      FreshUnique(fs, Ids(fs.scan), synced, rebuilt);
    }
  }

  // ---- Counters ----

  function Total(c: Counts): nat {
    c.added + c.updated + c.removed + c.same
  }

  /** `n` ids counted, and those reindexed listed. */
  predicate Balanced(c: Counts, n: nat) {
    Total(c) == n && |c.reindexed| == c.added + c.updated
  }

  lemma {:induction false} TallyOne(c: Counts, n: nat, verdict: Verdict, id: Id)
    requires Balanced(c, n)
    ensures Balanced(Tally(c, verdict, id), n + 1)
  {
  }

  predicate PassBalanced<C>(p: Pass<C>, n: nat) {
    p.ok ==> Balanced(p.counts, n)
  }

  lemma {:induction false} StepBalanced<C>(p: Pass<C>, snapshot: Index<C>, fs: Disk<C>, id: Id, n: nat)
    requires PassBalanced(p, n)
    ensures PassBalanced(SyncOne(p, snapshot, fs, id), n + 1)
  {
    if p.ok {
      TallyOne(p.counts, n, Judge(snapshot, fs, id), id);
    }
  }

  lemma {:induction false} EmptyBalanced(c: Counts)
    requires c.added == 0 && c.updated == 0 && c.removed == 0 && c.same == 0 && c.reindexed == []
    ensures Balanced(c, 0)
  {
  }

  /** Two directory names that spell one id: one row comes of it, counted as added twice. */
  lemma {:induction false} DoubledNameCountsTwice<C>(fs: Disk<C>, id: Id)
    requires fs.scan == [id, id] && Indexable(fs, id)
    ensures Sync(map[], fs).ok && Sync(map[], fs).counts.added == 2 && Sync(map[], fs).index.Keys == {id}
  {
    var empty: Index<C> := map[];
    assert fs.scan[..1] == [id] && [id][..0] == [];
    assert SyncScan(empty, fs, [id]) == SyncOne(SyncScan(empty, fs, []), empty, fs, id);
    assert SyncScan(empty, fs, fs.scan) == SyncOne(SyncScan(empty, fs, [id]), empty, fs, id);
    assert Orphans(empty, fs) == {};
  }

  lemma {:induction false} ScanBalanced<C>(snapshot: Index<C>, fs: Disk<C>, ids: seq<Id>)
    ensures PassBalanced(SyncScan(snapshot, fs, ids), |ids|)
  {
    if ids == [] {
      var p := SyncScan(snapshot, fs, ids);
      EmptyBalanced(p.counts);
    } else {
      ScanBalanced(snapshot, fs, ids[..|ids| - 1]);
      StepBalanced(SyncScan(snapshot, fs, ids[..|ids| - 1]), snapshot, fs, ids[|ids| - 1], |ids| - 1);
    }
  }

  /** Every scanned directory and every row without one is counted once. */
  lemma {:induction false} CountersAddUp<C>(index: Index<C>, fs: Disk<C>)
    requires Sync(index, fs).ok
    ensures Balanced(Sync(index, fs).counts, |fs.scan| + |Orphans(index, fs)|)
  {
    ScanBalanced(index, fs, fs.scan);
  }

  // ---- Passing again ----

  ghost predicate AllKept<C>(index: Index<C>, fs: Disk<C>, ids: set<Id>) {
    forall id :: id in ids ==> Judge(index, fs, id) == Keep
  }

  /** Nothing to do: each scanned id is up to date, or has neither row nor file. */
  ghost predicate UpToDate<C>(index: Index<C>, fs: Disk<C>) {
    AllKept(index, fs, Ids(fs.scan)) && Orphans(index, fs) == {}
  }

  lemma {:induction false} QuietScan<C>(index: Index<C>, fs: Disk<C>, ids: seq<Id>)
    requires AllKept(index, fs, Ids(ids))
    ensures SyncScan(index, fs, ids) == Pass(index, Counts(0, 0, 0, |ids|, []), true)
  {
    if ids != [] {
      assert ids == ids[..|ids| - 1] + [ids[|ids| - 1]];
      IdsPush(ids[..|ids| - 1], ids[|ids| - 1]);
      QuietScan(index, fs, ids[..|ids| - 1]);
    }
  }

  lemma {:induction false} SyncedIsUpToDate<C>(index: Index<C>, fs: Disk<C>)
    requires Sync(index, fs).ok
    ensures UpToDate(Sync(index, fs).index, fs)
  {
    SyncedRows(index, fs);
    KeptAfter(index, fs, Sync(index, fs).index);
  }

  lemma {:induction false} KeptAfter<C>(index: Index<C>, fs: Disk<C>, synced: Index<C>)
    requires forall id :: id in Ids(fs.scan) ==> SettledAt(index, fs, id, synced)
    ensures AllKept(synced, fs, Ids(fs.scan))
  {
    forall id | id in Ids(fs.scan)
      ensures Judge(synced, fs, id) == Keep
    {
      assert SettledAt(index, fs, id, synced);
    }
  }

  /** An immediate second pass succeeds, changes nothing and counts every directory as unchanged. */
  lemma {:induction false} SecondSyncIsQuiet<C>(index: Index<C>, fs: Disk<C>)
    requires Sync(index, fs).ok
    ensures var synced := Sync(index, fs).index;
      Sync(synced, fs) == Pass(synced, Counts(0, 0, 0, |fs.scan|, []), true)
  {
    SyncedIsUpToDate(index, fs);
    QuietSync(Sync(index, fs).index, fs);
  }

  lemma {:induction false} QuietSync<C>(index: Index<C>, fs: Disk<C>)
    requires UpToDate(index, fs)
    ensures Sync(index, fs) == Pass(index, Counts(0, 0, 0, |fs.scan|, []), true)
  {
    QuietScan(index, fs, fs.scan);
    assert index - {} == index;
  }

  // ---- The read-only comparison ----

  function FileTime<C>(fs: Disk<C>, id: Id): Option<Instant> {
    if id in fs.times then Some(fs.times[id]) else None
  }

  /** A row without a time is taken as consistent; a time that does not parse matches a missing file. */
  function CompareOne<C>(d: Drift, index: Index<C>, fs: Disk<C>, id: Id): Drift {
    if id !in index then d.(fsOnly := d.fsOnly + 1)
    else if index[id].stamp == Null then d.(consistent := d.consistent + 1)
    else if index[id].stamp.parsed == FileTime(fs, id) then d.(consistent := d.consistent + 1)
    else d.(stale := d.stale + 1)
  }

  function Compare<C>(index: Index<C>, fs: Disk<C>, ids: seq<Id>): Drift {
    if ids == [] then Drift(0, 0, 0, 0) else CompareOne(Compare(index, fs, ids[..|ids| - 1]), index, fs, ids[|ids| - 1])
  }

  function Verify<C>(index: Index<C>, fs: Disk<C>): Drift {
    Compare(index, fs, fs.scan).(dbOnly := |Orphans(index, fs)|)
  }

  /** Scanned directories that hold no file. */
  function Empty<C>(fs: Disk<C>, ids: seq<Id>): (n: nat)
    ensures n <= |ids|
  {
    if ids == [] then 0 else Empty(fs, ids[..|ids| - 1]) + if ids[|ids| - 1] in fs.times then 0 else 1
  }

  lemma {:induction false} CompareUpToDate<C>(index: Index<C>, fs: Disk<C>, ids: seq<Id>)
    requires AllKept(index, fs, Ids(ids))
    ensures var d := Compare(index, fs, ids);
      d.stale == 0 && d.dbOnly == 0 && d.fsOnly == Empty(fs, ids) && d.consistent == |ids| - Empty(fs, ids)
  {
    if ids != [] {
      assert ids == ids[..|ids| - 1] + [ids[|ids| - 1]];
      IdsPush(ids[..|ids| - 1], ids[|ids| - 1]);
      CompareUpToDate(index, fs, ids[..|ids| - 1]);
    }
  }

  /** After a successful pass nothing is stale or orphaned; only directories without a file are on disk alone. */
  lemma {:induction false} VerifyAfterSync<C>(index: Index<C>, fs: Disk<C>)
    requires Sync(index, fs).ok
    ensures Verify(Sync(index, fs).index, fs) == Drift(Empty(fs, fs.scan), 0, 0, |fs.scan| - Empty(fs, fs.scan))
  {
    SyncedIsUpToDate(index, fs);
    CompareUpToDate(Sync(index, fs).index, fs, fs.scan);
  }

  /** Comparing and passing disagree on old rows: this one is consistent to the one and refreshed by the other. */
  lemma {:induction false} UnstampedRowsLookConsistent<C>(row: Row<C>, content: C)
    requires row.stamp == Null
    ensures var index, fs := map[7 := row], Disk([7], map[7 := 0], map[7 := content]);
      Verify(index, fs) == Drift(0, 0, 0, 1) && Sync(index, fs).ok && Sync(index, fs).counts.updated == 1
  {
    var index, fs := map[7 := row], Disk([7], map[7 := 0], map[7 := content]);
    assert fs.scan == [7] && fs.scan[..0] == [];
    assert Orphans(index, fs) == {} by { assert 7 in Ids(fs.scan); }
    assert Compare(index, fs, []) == Drift(0, 0, 0, 0);
    assert Compare(index, fs, [7]) == Drift(0, 0, 0, 1);
    assert SyncScan(index, fs, []) == Pass(index, Counts(0, 0, 0, 0, []), true);
    assert Judge(index, fs, 7) == Refresh;
    assert SyncScan(index, fs, [7]).counts.updated == 1;
  }

  lemma {:induction false} FailedScanStays<C>(snapshot: Index<C>, fs: Disk<C>, ids: seq<Id>, n: nat)
    requires n <= |ids| && !SyncScan(snapshot, fs, ids[..n]).ok
    ensures SyncScan(snapshot, fs, ids) == SyncScan(snapshot, fs, ids[..n])
  {
    if n == |ids| {
      assert ids[..n] == ids;
    } else {
      assert ids[..|ids| - 1][..n] == ids[..n];
      FailedScanStays(snapshot, fs, ids[..|ids| - 1], n);
    }
  }

  // ---- What the passes do, directory by directory ----

  /** The directories, by position, whose id is of a kind. */
  function Hits(ids: seq<Id>, kind: Id -> bool): set<int> {
    set n | 0 <= n < |ids| && kind(ids[n])
  }

  function Picked(ids: seq<Id>, kind: Id -> bool): seq<Id> {
    if ids == [] then [] else Picked(ids[..|ids| - 1], kind) + if kind(ids[|ids| - 1]) then [ids[|ids| - 1]] else []
  }

  lemma {:induction false} HitsPush(ids: seq<Id>, kind: Id -> bool)
    requires ids != []
    ensures |Hits(ids, kind)| == |Hits(ids[..|ids| - 1], kind)| + if kind(ids[|ids| - 1]) then 1 else 0
  {
    var n := |ids| - 1;
    var before := Hits(ids[..n], kind);
    assert forall k :: 0 <= k < n ==> ids[..n][k] == ids[k];
    assert Hits(ids, kind) == if kind(ids[n]) then before + {n} else before;
    assert n !in before;
  }

  /** No row, but a file. */
  function New<C>(index: Index<C>, fs: Disk<C>): Id -> bool {
    (id: Id) => id !in index && id in fs.times
  }

  /** A row whose time is not the file's: none, unreadable or another. */
  function Changed<C>(index: Index<C>, fs: Disk<C>): Id -> bool {
    (id: Id) => id in index && id in fs.times && index[id].stamp != Text(Some(fs.times[id]))
  }

  /** A row, but no file. */
  function Emptied<C>(index: Index<C>, fs: Disk<C>): Id -> bool {
    (id: Id) => id in index && id !in fs.times
  }

  /** A row with the file's time, or neither row nor file. */
  function Unchanged<C>(index: Index<C>, fs: Disk<C>): Id -> bool {
    (id: Id) => if id in index then id in fs.times && index[id].stamp == Text(Some(fs.times[id])) else id !in fs.times
  }

  function NewOrChanged<C>(index: Index<C>, fs: Disk<C>): Id -> bool {
    (id: Id) => id in fs.times && (id !in index || index[id].stamp != Text(Some(fs.times[id])))
  }

  lemma {:induction false} FailsExactly<C>(snapshot: Index<C>, fs: Disk<C>, id: Id)
    ensures Fails(snapshot, fs, id) <==> NewOrChanged(snapshot, fs)(id) && id !in fs.contents
  {
  }

  /** A pass succeeds exactly when every new or changed file can be indexed. */
  lemma {:induction false} SyncSucceedsExactly<C>(index: Index<C>, fs: Disk<C>)
    ensures Sync(index, fs).ok <==> forall id :: id in fs.scan && NewOrChanged(index, fs)(id) ==> id in fs.contents
  {
    ScanSucceedsExactly(index, fs, fs.scan);
  }

  lemma {:induction false} ScanSucceedsExactly<C>(snapshot: Index<C>, fs: Disk<C>, ids: seq<Id>)
    ensures SyncScan(snapshot, fs, ids).ok <==> forall id :: id in ids && NewOrChanged(snapshot, fs)(id) ==> id in fs.contents
  {
    if ids != [] {
      var init, last := ids[..|ids| - 1], ids[|ids| - 1];
      ScanSucceedsExactly(snapshot, fs, init);
      FailsExactly(snapshot, fs, last);
      assert forall id :: id in ids <==> id in init || id == last;
    }
  }

  /** What a pass leaves of one id. */
  ghost predicate LeftAs<C>(index: Index<C>, fs: Disk<C>, id: Id, synced: Index<C>) {
    if id !in fs.scan || id !in fs.times then id !in synced
    else if id in index && index[id].stamp == Text(Some(fs.times[id])) then id in synced && synced[id] == index[id]
    else id in fs.contents && id in synced && synced[id].stamp == Text(Some(fs.times[id])) && synced[id].content == fs.contents[id]
  }

  /**
   * Main result: a pass that succeeds keeps the rows with their file's time, derives the rows of all other files
   * afresh, and leaves no row without a scanned directory and a file in it.
   */
  lemma {:induction false} SyncLeaves<C>(index: Index<C>, fs: Disk<C>, id: Id)
    requires Sync(index, fs).ok
    ensures LeftAs(index, fs, id, Sync(index, fs).index)
  {
    SyncedRows(index, fs);
    if id in fs.scan {
      assert id in Ids(fs.scan) && SettledAt(index, fs, id, Sync(index, fs).index);
    }
  }

  ghost predicate Counted<C>(c: Counts, index: Index<C>, fs: Disk<C>, ids: seq<Id>) {
    && c.added == |Hits(ids, New(index, fs))| && c.updated == |Hits(ids, Changed(index, fs))|
    && c.removed == |Hits(ids, Emptied(index, fs))| && c.same == |Hits(ids, Unchanged(index, fs))|
    && c.reindexed == Picked(ids, NewOrChanged(index, fs))
  }

  lemma {:induction false} ScanCounts<C>(snapshot: Index<C>, fs: Disk<C>, ids: seq<Id>)
    requires SyncScan(snapshot, fs, ids).ok
    ensures Counted(SyncScan(snapshot, fs, ids).counts, snapshot, fs, ids)
  {
    if ids == [] {
      assert Hits(ids, New(snapshot, fs)) == {} && Hits(ids, Changed(snapshot, fs)) == {};
      assert Hits(ids, Emptied(snapshot, fs)) == {} && Hits(ids, Unchanged(snapshot, fs)) == {};
    } else {
      ScanCounts(snapshot, fs, ids[..|ids| - 1]);
      HitsPush(ids, New(snapshot, fs));
      HitsPush(ids, Changed(snapshot, fs));
      HitsPush(ids, Emptied(snapshot, fs));
      HitsPush(ids, Unchanged(snapshot, fs));
      TallyCounts(SyncScan(snapshot, fs, ids[..|ids| - 1]).counts, snapshot, fs, ids[|ids| - 1]);
    }
  }

  lemma {:induction false} TallyCounts<C>(c: Counts, snapshot: Index<C>, fs: Disk<C>, id: Id)
    ensures var c' := Tally(c, Judge(snapshot, fs, id), id);
      && c'.added == c.added + (if New(snapshot, fs)(id) then 1 else 0)
      && c'.updated == c.updated + (if Changed(snapshot, fs)(id) then 1 else 0)
      && c'.removed == c.removed + (if Emptied(snapshot, fs)(id) then 1 else 0)
      && c'.same == c.same + (if Unchanged(snapshot, fs)(id) then 1 else 0)
      && c'.reindexed == c.reindexed + (if NewOrChanged(snapshot, fs)(id) then [id] else [])
  {
  }

  lemma {:induction false} OrphansAre<C>(index: Index<C>, fs: Disk<C>)
    ensures Orphans(index, fs) == set id | id in index && id !in fs.scan
  {
    assert forall id :: id in Ids(fs.scan) <==> id in fs.scan;
  }

  /** Main result: each counter is the number of directories of its kind, and of rows without one for the removed. */
  lemma {:induction false} SyncCountsExactly<C>(index: Index<C>, fs: Disk<C>)
    requires Sync(index, fs).ok
    ensures var c := Sync(index, fs).counts;
      && c.added == |Hits(fs.scan, New(index, fs))| && c.updated == |Hits(fs.scan, Changed(index, fs))|
      && c.removed == |Hits(fs.scan, Emptied(index, fs))| + |set id | id in index && id !in fs.scan|
      && c.same == |Hits(fs.scan, Unchanged(index, fs))|
      && c.reindexed == Picked(fs.scan, NewOrChanged(index, fs))
  {
    ScanCounts(index, fs, fs.scan);
    OrphansAre(index, fs);
  }

  /** A row whose recorded time is not that of its file; a row without one is taken at its word. */
  function Stale<C>(index: Index<C>, fs: Disk<C>): Id -> bool {
    (id: Id) => id in index && index[id].stamp.Text? && index[id].stamp.parsed != if id in fs.times then Some(fs.times[id]) else None
  }

  function Missing<C>(index: Index<C>): Id -> bool {
    (id: Id) => id !in index
  }

  function Sound<C>(index: Index<C>, fs: Disk<C>): Id -> bool {
    (id: Id) => id in index && (index[id].stamp == Null || index[id].stamp.parsed == if id in fs.times then Some(fs.times[id]) else None)
  }

  lemma {:induction false} CompareCounts<C>(index: Index<C>, fs: Disk<C>, ids: seq<Id>)
    ensures var d := Compare(index, fs, ids);
      && d.fsOnly == |Hits(ids, Missing(index))| && d.stale == |Hits(ids, Stale(index, fs))|
      && d.consistent == |Hits(ids, Sound(index, fs))| && d.dbOnly == 0
  {
    if ids == [] {
      assert Hits(ids, Missing(index)) == {} && Hits(ids, Stale(index, fs)) == {} && Hits(ids, Sound(index, fs)) == {};
    } else {
      CompareCounts(index, fs, ids[..|ids| - 1]);
      HitsPush(ids, Missing(index));
      HitsPush(ids, Stale(index, fs));
      HitsPush(ids, Sound(index, fs));
    }
  }

  /** Main result: for any index, each kind of drift is counted exactly. */
  lemma {:induction false} VerifyCountsExactly<C>(index: Index<C>, fs: Disk<C>)
    ensures var d := Verify(index, fs);
      && d.fsOnly == |Hits(fs.scan, Missing(index))| && d.stale == |Hits(fs.scan, Stale(index, fs))|
      && d.consistent == |Hits(fs.scan, Sound(index, fs))| && d.dbOnly == |set id | id in index && id !in fs.scan|
  {
    CompareCounts(index, fs, fs.scan);
    OrphansAre(index, fs);
  }

  function Readable<C>(fs: Disk<C>): Id -> bool {
    (id: Id) => id in fs.times && id in fs.contents
  }

  function Unreadable<C>(fs: Disk<C>): Id -> bool {
    (id: Id) => !(id in fs.times && id in fs.contents)
  }

  /** A rebuild counts the directories it indexes and lists the others, in order. */
  lemma {:induction false} RebuildCountsExactly<C>(fs: Disk<C>, ids: seq<Id>)
    ensures RebuildScan(fs, ids).reindexed == |Hits(ids, Readable(fs))| && RebuildScan(fs, ids).errors == Picked(ids, Unreadable(fs))
  {
    if ids == [] {
      assert Hits(ids, Readable(fs)) == {};
    } else {
      RebuildCountsExactly(fs, ids[..|ids| - 1]);
      HitsPush(ids, Readable(fs));
    }
  }
}
