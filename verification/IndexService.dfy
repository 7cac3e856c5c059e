/** The index passes over real documents: what a file's blocks become, and the service methods that store it. */
module IndexService {
  import opened Prelude
  import opened Chunking
  import opened IndexSync

  datatype ParsedBlock = ParsedBlock(kind: nat, text: string, attrs: nat)

  /** Title, tags, attributes, source and times travel together as `header`. */
  datatype Doc = Doc(header: nat, blocks: seq<ParsedBlock>)

  /** `doc` is `None` when the file cannot be read or parsed. */
  datatype File = File(mtime: Instant, doc: Option<Doc>)

  /** Ids of directories, and the entry file of each id that has one. */
  datatype FileSystem = FileSystem(scan: seq<Id>, files: map<Id, File>)

  datatype BlockRow = BlockRow(ordinal: nat, kind: nat, text: string, attrs: nat, chunks: seq<string>)

  datatype Content = Content(header: nat, blocks: seq<BlockRow>)

  function TrimNewlines(s: string): string {
    if s != "" && s[|s| - 1] == '\n' then TrimNewlines(s[..|s| - 1]) else s
  }

  function DeriveBlock(b: ParsedBlock, ordinal: nat, target: nat): BlockRow {
    BlockRow(ordinal, b.kind, TrimNewlines(b.text), b.attrs, ChunkText(TrimNewlines(b.text), target))
  }

  function DeriveBlocks(blocks: seq<ParsedBlock>, target: nat): seq<BlockRow> {
    if blocks == [] then []
    else DeriveBlocks(blocks[..|blocks| - 1], target) + [DeriveBlock(blocks[|blocks| - 1], |blocks| - 1, target)]
  }

  predicate ChunksStorable(b: ParsedBlock, target: nat) {
    |ChunkText(TrimNewlines(b.text), target)| <= U32_LIMIT
  }

  /** No ordinal of a block or a chunk wraps onto one in use. */
  predicate Storable(blocks: seq<ParsedBlock>, target: nat) {
    |blocks| <= U32_LIMIT && forall i :: 0 <= i < |blocks| ==> ChunksStorable(blocks[i], target)
  }

  predicate Accepted(file: File, target: nat) {
    file.doc.Some? && Storable(file.doc.value.blocks, target)
  }

  function ContentOf(doc: Doc, target: nat): Content {
    Content(doc.header, DeriveBlocks(doc.blocks, target))
  }

  /** The disk as the passes see it. */
  function DiskOf(fs: FileSystem, target: nat): Disk<Content> {
    Disk(fs.scan, map id | id in fs.files :: fs.files[id].mtime,
         map id | id in fs.files && Accepted(fs.files[id], target) :: ContentOf(fs.files[id].doc.value, target))
  }

  lemma {:induction false} OneRowEach(blocks: seq<ParsedBlock>, target: nat)
    ensures |DeriveBlocks(blocks, target)| == |blocks|
  {
    if blocks != [] {
      OneRowEach(blocks[..|blocks| - 1], target);
    }
  }

  /** Block `i` of a file becomes the row with ordinal `i`, its text less trailing newlines, split into its chunks. */
  lemma {:induction false} BlocksKeepOrder(blocks: seq<ParsedBlock>, target: nat, i: nat)
    requires i < |blocks|
    ensures |DeriveBlocks(blocks, target)| == |blocks|
    ensures DeriveBlocks(blocks, target)[i] == DeriveBlock(blocks[i], i, target)
  {
    OneRowEach(blocks, target);
    OneRowEach(blocks[..|blocks| - 1], target);
    if i < |blocks| - 1 {
      BlocksKeepOrder(blocks[..|blocks| - 1], target, i);
    }
  }

  lemma {:induction false} DerivePush(blocks: seq<ParsedBlock>, i: nat, target: nat)
    requires i < |blocks|
    ensures DeriveBlocks(blocks[..i + 1], target) == DeriveBlocks(blocks[..i], target) + [DeriveBlock(blocks[i], i, target)]
  {
    assert blocks[..i + 1][..i] == blocks[..i];
  }

  predicate FirstStorable(blocks: seq<ParsedBlock>, n: nat, target: nat)
    requires n <= |blocks|
  {
    n <= U32_LIMIT && forall i :: 0 <= i < n ==> ChunksStorable(blocks[i], target)
  }

  lemma {:induction false} StorableStep(blocks: seq<ParsedBlock>, i: nat, target: nat)
    requires i < |blocks| && FirstStorable(blocks, i, target)
    ensures FirstStorable(blocks, i + 1, target) <==> i < U32_LIMIT && ChunksStorable(blocks[i], target)
    ensures Storable(blocks, target) ==> FirstStorable(blocks, i + 1, target)
  {
  }

  /** A pass that fails sweeps nothing. */
  lemma {:induction false} SyncFails<C>(index: Index<C>, disk: Disk<C>)
    requires !SyncScan(index, disk, disk.scan).ok
    ensures Sync(index, disk) == SyncScan(index, disk, disk.scan)
  {
  }

  /** A pass that stays well sweeps the rows the scan did not name. */
  lemma {:induction false} SyncEnds<C>(index: Index<C>, disk: Disk<C>, swept: Index<C>, counts: Counts, gone: nat)
    requires SyncScan(index, disk, disk.scan).ok && counts == SyncScan(index, disk, disk.scan).counts
    requires swept == SyncScan(index, disk, disk.scan).index - (index.Keys - Ids(disk.scan)) && gone == |index.Keys - Ids(disk.scan)|
    ensures Sync(index, disk) == Pass(swept, counts.(removed := counts.removed + gone), true)
  {
  }

  /** Rows looked at, all but `left`, that the scan did not name. */
  ghost function Unscanned(known: set<Id>, left: set<Id>, scan: seq<Id>): set<Id> {
    (known - left) - Ids(scan)
  }

  lemma {:induction false} UnscannedEnds(known: set<Id>, scan: seq<Id>)
    ensures Unscanned(known, known, scan) == {} && Unscanned(known, {}, scan) == known - Ids(scan)
  {
  }

  lemma {:induction false} UnscannedNext(known: set<Id>, left: set<Id>, scan: seq<Id>, id: Id)
    requires left <= known && id in left
    ensures var before, after := Unscanned(known, left, scan), Unscanned(known, left - {id}, scan);
      if id in scan then after == before else after == before + {id} && |after| == |before| + 1
  {
    var before := Unscanned(known, left, scan);
    assert (known - (left - {id})) - Ids(scan) == if id in scan then before else before + {id};
  }

  lemma {:induction false} LessOneMore<V>(m: map<Id, V>, gone: set<Id>, id: Id)
    ensures m - (gone + {id}) == m - gone - {id}
  {
  }

  class EntryService {
    const target: nat
    var index: Index<Content>

    constructor (chunkTargetSize: nat)
      ensures index == map[] && target == chunkTargetSize
    {
      target, index := chunkTargetSize, map[];
    }

    /** One block and its chunks; refused when an ordinal would wrap onto one in use. */
    method InsertBlock(block: ParsedBlock, ordinal: nat) returns (row: BlockRow, ok: bool)
      ensures ok == (ordinal < U32_LIMIT && ChunksStorable(block, target))
      ensures row == DeriveBlock(block, ordinal, target)
    {
      var text := TrimNewlines(block.text);
      var chunks := SplitText(text, target);
      row := BlockRow(ordinal, block.kind, text, block.attrs, chunks);
      ok := ordinal < U32_LIMIT && |chunks| <= U32_LIMIT;
    }

    /** Inserts the block rows one at a time; the first refused ends it. */
    method InsertBlocks(blocks: seq<ParsedBlock>) returns (rows: seq<BlockRow>, ok: bool)
      ensures ok == Storable(blocks, target)
      ensures ok ==> rows == DeriveBlocks(blocks, target)
    {
      rows, ok := [], true;
      for i := 0 to |blocks|
        invariant ok && FirstStorable(blocks, i, target)
        invariant rows == DeriveBlocks(blocks[..i], target)
      {
        DerivePush(blocks, i, target);
        StorableStep(blocks, i, target);
        var row;
        row, ok := InsertBlock(blocks[i], i);
        if !ok {
          return;
        }
        rows := rows + [row];
      }
      assert blocks[..|blocks|] == blocks;
    }

    method ReindexOne(fs: FileSystem, id: Id) returns (ok: bool)
      modifies this
      ensures ok == Reindex(old(index), DiskOf(fs, target), id).Some?
      ensures index == if ok then Reindex(old(index), DiskOf(fs, target), id).value else old(index)
    {
      if id !in fs.files || fs.files[id].doc.None? {
        return false;
      }
      var doc := fs.files[id].doc.value;
      var rows;
      rows, ok := InsertBlocks(doc.blocks);
      if ok {
        index := index - {id};
        index := index[id := Row(Text(Some(fs.files[id].mtime)), Content(doc.header, rows))];
      }
    }

    /** One scanned id, judged by the snapshot. */
    method SyncEntry(fs: FileSystem, snapshot: Index<Content>, before: Counts, id: Id) returns (counts: Counts, ok: bool)
      modifies this
      ensures Pass(index, counts, ok) == SyncOne(Pass(old(index), before, true), snapshot, DiskOf(fs, target), id)
    {
      counts, ok := before, true;
      var verdict := Judge(snapshot, DiskOf(fs, target), id);
      if verdict.Keep? {
        counts := counts.(same := counts.same + 1);
      } else if verdict.Remove? {
        index := index - {id};
        counts := counts.(removed := counts.removed + 1);
      } else {
        ok := ReindexOne(fs, id);
        if ok {
          counts := counts.(reindexed := counts.reindexed + [id]);
          counts := if verdict.Add? then counts.(added := counts.added + 1) else counts.(updated := counts.updated + 1);
        }
      }
    }

    /** Walks the scanned ids until one fails. */
    method SyncScanned(fs: FileSystem) returns (counts: Counts, ok: bool)
      modifies this
      ensures index == SyncScan(old(index), DiskOf(fs, target), fs.scan).index
      ensures ok == SyncScan(old(index), DiskOf(fs, target), fs.scan).ok
      ensures ok ==> counts == SyncScan(old(index), DiskOf(fs, target), fs.scan).counts
    {
      var snapshot := index;
      ghost var disk := DiskOf(fs, target);
      counts, ok := Counts(0, 0, 0, 0, []), true;
      var i := 0;
      while i < |fs.scan|
        invariant i <= |fs.scan| && ok
        invariant Pass(index, counts, true) == SyncScan(snapshot, disk, fs.scan[..i])
      {
        assert fs.scan[..i + 1][..i] == fs.scan[..i];
        counts, ok := SyncEntry(fs, snapshot, counts, fs.scan[i]);
        i := i + 1;
        if !ok {
          FailedScanStays(snapshot, disk, fs.scan, i);
          return;
        }
      }
      assert fs.scan[..|fs.scan|] == fs.scan;
    }

    method SyncFromFs(fs: FileSystem) returns (r: Option<Counts>)
      modifies this
      ensures index == Sync(old(index), DiskOf(fs, target)).index
      ensures r == if Sync(old(index), DiskOf(fs, target)).ok then Some(Sync(old(index), DiskOf(fs, target)).counts) else None
    {
      var known := index.Keys;
      ghost var before, disk := index, DiskOf(fs, target);
      assert disk.scan == fs.scan;
      var counts, ok := SyncScanned(fs);
      if !ok {
        SyncFails(before, disk);
        return None;
      }
      var gone := Sweep(fs.scan, known);
      SyncEnds(before, disk, index, counts, gone);
      return Some(counts.(removed := counts.removed + gone));
    }

    /** Deletes the rows of `known` whose directory is gone, in the order the rows come; how many. */
    method Sweep(scan: seq<Id>, known: set<Id>) returns (n: nat)
      modifies this
      ensures index == old(index) - (known - Ids(scan)) && n == |known - Ids(scan)|
    {
      n := 0;
      var left := known;
      UnscannedEnds(known, scan);
      assert index - {} == index;
      while left != {}
        invariant left <= known
        invariant index == old(index) - Unscanned(known, left, scan) && n == |Unscanned(known, left, scan)|
        decreases |left|
      {
        var id: Id :| id in left;
        UnscannedNext(known, left, scan, id);
        if id !in scan {
          LessOneMore(old(index), Unscanned(known, left, scan), id);
          index := index - {id};
          n := n + 1;
        }
        left := left - {id};
      }
    }

    method VerifyFs(fs: FileSystem) returns (d: Drift)
      ensures d == Verify(index, DiskOf(fs, target))
    {
      var disk := DiskOf(fs, target);
      d := Drift(0, 0, 0, 0);
      for i := 0 to |fs.scan|
        invariant d == Compare(index, disk, fs.scan[..i])
      {
        var id := fs.scan[i];
        assert fs.scan[..i + 1][..i] == fs.scan[..i];
        if id !in index {
          d := d.(fsOnly := d.fsOnly + 1);
        } else if index[id].stamp == Null || index[id].stamp.parsed == FileTime(disk, id) {
          d := d.(consistent := d.consistent + 1);
        } else {
          d := d.(stale := d.stale + 1);
        }
      }
      assert fs.scan[..|fs.scan|] == fs.scan;
      var orphans := CountOrphans(fs.scan);
      d := d.(dbOnly := orphans);
    }

    method CountOrphans(scan: seq<Id>) returns (n: nat)
      ensures n == |index.Keys - Ids(scan)|
    {
      n := 0;
      var left := index.Keys;
      UnscannedEnds(index.Keys, scan);
      while left != {}
        invariant left <= index.Keys && n == |Unscanned(index.Keys, left, scan)|
        decreases |left|
      {
        var id: Id :| id in left;
        UnscannedNext(index.Keys, left, scan, id);
        if id !in scan {
          n := n + 1;
        }
        left := left - {id};
      }
    }

    method RebuildIndex(fs: FileSystem) returns (reindexed: nat, errors: seq<Id>)
      modifies this
      ensures Rebuilt(index, reindexed, errors) == Rebuild(DiskOf(fs, target))
    {
      index, reindexed, errors := map[], 0, [];
      for i := 0 to |fs.scan|
        invariant Rebuilt(index, reindexed, errors) == RebuildScan(DiskOf(fs, target), fs.scan[..i])
      {
        assert fs.scan[..i + 1][..i] == fs.scan[..i];
        var ok := ReindexOne(fs, fs.scan[i]);
        if ok {
          reindexed := reindexed + 1;
        } else {
          errors := errors + [fs.scan[i]];
        }
      }
      assert fs.scan[..|fs.scan|] == fs.scan;
    }
  }
}
