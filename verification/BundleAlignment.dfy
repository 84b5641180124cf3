/** What it means for rows and disk to be aligned, and why uploads, new folders and deletes
    keep them so, whichever filesystem call fails. */
module BundleAlignment {
  import opened Wrappers
  import opened Paths
  import opened BundleTree

  /** Whatever stands on the disk stands in folders. */
  ghost predicate DiskOk(disk: Disk) {
    forall p, q :: p in disk && Under(p, q) && q != "" ==> q in disk && disk[q].Dir?
  }

  ghost predicate RowOk(b: Build, id: ArtifactId)
    requires id in b.rows
  {
    var row := b.rows[id];
    && row.path != "" && row.path in b.disk && (row.isDir <==> b.disk[row.path].Dir?)
    && row.name == Name(row.path) && row.category == Category(row.path)
  }

  /** Every row has a disk node of its kind and the name and category of its path. */
  ghost predicate Aligned(b: Build) {
    UniquePaths(b.rows) && DiskOk(b.disk) && forall id :: id in b.rows ==> RowOk(b, id)
  }

  /** No row lies beneath a file row. */
  lemma NoRowBelowAFile(b: Build, i: ArtifactId, j: ArtifactId)
    requires Aligned(b) && i in b.rows && j in b.rows && Under(b.rows[i].path, b.rows[j].path)
    ensures b.rows[j].isDir
  {
    assert RowOk(b, i) && RowOk(b, j);
  }

  // ----- create_dir_all -----

  lemma ChainIs(p: string, q: string)
    ensures q in Chain(p) <==> q != "" && OnPath(q, p)
  {
    if q != "" && OnPath(q, p) {
      assert 0 < |q| <= |p| && p[..|q|] == q && (|q| == |p| || p[|q|] == '/');
    }
  }

  lemma ParentChain(p: string, q: string)
    requires Under(p, q) && q != ""
    ensures q in Chain(Parent(p))
  {
    ParentIsLongest(p, q);
    ChainIs(Parent(p), q);
  }

  lemma {:induction false} ParentIsLongest(p: string, q: string)
    requires Under(p, q)
    ensures q == Parent(p) || Under(Parent(p), q)
    decreases |p|
  {
    var n := |p| - 1;
    if p[n] == '/' {
      if |q| < n { assert p[..n][..|q|] == q; } else { assert p[..n] == q; }
    } else {
      assert p[..n][..|q|] == q;
      ParentIsLongest(p[..n], q);
    }
  }

  lemma {:induction false} ParentIsAbove(p: string)
    requires Parent(p) != ""
    ensures Under(p, Parent(p))
    decreases |p|
  {
    var n := |p| - 1;
    if p[n] != '/' {
      ParentIsAbove(p[..n]);
      assert p[..n][..|Parent(p)|] == p[..|Parent(p)|];
    }
  }

  lemma {:induction false} ParentOf(dir: string, name: string)
    requires NoSlash(name)
    ensures Parent(dir + "/" + name) == dir && Parent(name) == ""
    decreases |name|
  {
    var path := dir + "/" + name;
    if name == "" {
      assert path[..|path| - 1] == dir;
    } else {
      var n := |name| - 1;
      assert name == name[..n] + [name[n]] && name[n] in name;
      assert path[..|path| - 1] == dir + "/" + name[..n];
      assert path[|path| - 1] == name[n];
      ParentOf(dir, name[..n]);
    }
  }

  lemma {:induction false} ParentShorter(p: string)
    requires p != ""
    ensures |Parent(p)| < |p|
    decreases |p|
  {
    if p[|p| - 1] != '/' && |p| > 1 { ParentShorter(p[..|p| - 1]); }
  }

  /** Of two entries of one folder, neither lies below the other. */
  lemma SiblingsApart(p: string, q: string)
    requires Parent(p) == Parent(q) && q != ""
    ensures !Under(p, q)
  {
    if Under(p, q) {
      ParentIsLongest(p, q);
      ParentShorter(q);
    }
  }

  lemma UnderTrans(a: string, b: string, c: string)
    requires Under(a, b) && Below(b, c)
    ensures Under(a, c)
  {
    assert a[..|b|] == b;
    if b != c { assert b[..|c|] == a[..|c|]; }
  }

  /** Two folders above one path lie one above the other. */
  lemma UnderTotal(p: string, a: string, b: string)
    requires Below(p, a) && Below(p, b)
    ensures a == b || Under(a, b) || Under(b, a)
  {
    assert p[..|a|] == a && p[..|b|] == b;
    if |a| < |b| { assert b[..|a|] == a; } else if |b| < |a| { assert a[..|b|] == b; }
  }

  lemma MadeDirsOk(disk: Disk, p: string, made: nat)
    requires DiskOk(disk)
    ensures var disk' := MadeDirs(disk, p, made);
      && DiskOk(disk')
      && (forall q :: q in disk ==> q in disk' && disk'[q] == disk[q])
      && (forall q :: q in disk' && q !in disk ==> disk'[q].Dir? && q in Chain(p))
      && (MadeAll(disk, p, made) ==> forall q :: q in Chain(p) ==> q in disk' && disk'[q].Dir?)
  {
    var disk' := MadeDirs(disk, p, made);
    forall x, q | x in disk' && Under(x, q) && q != "" ensures q in disk' && disk'[q].Dir? {
      if x !in disk {
        ChainIs(p, x);
        assert Under(p, q) by { if x != p { UnderTrans(p, x, q); } }
        ChainIs(p, q);
      }
    }
    if MadeAll(disk, p, made) {
      forall q | q in Chain(p) ensures q in disk' && disk'[q].Dir? {
        ChainIs(p, q);
        assert !IsFile(disk, q);
      }
    }
  }

  /** Adding folders disturbs no row. */
  lemma GrownDiskAligned(b: Build, disk: Disk)
    requires Aligned(b) && DiskOk(disk) && (forall q :: q in b.disk ==> q in disk && disk[q] == b.disk[q])
    ensures Aligned(Build(b.rows, disk))
  {
    forall id | id in b.rows ensures RowOk(Build(b.rows, disk), id) {
      assert RowOk(b, id);
    }
  }

  // ----- Upload and folders -----

  lemma AtMostOneRow(rows: Rows, id: ArtifactId, path: string)
    requires UniquePaths(rows) && RowAt(rows, id, path)
    ensures forall i :: i in rows && rows[i].path == path ==> i == id
  {
    forall i | i in rows && rows[i].path == path ensures i == id { assert RowAt(rows, i, path); }
  }

  /** `id` is the row an upsert at `row.path` writes: the one there, or else a new one. */
  ghost predicate Writes(rows: Rows, row: Artifact, newId: ArtifactId, id: ArtifactId) {
    if ExistsAt(rows, row.path) then RowAt(rows, id, row.path) else id == newId
  }

  /** An upsert writes one row, with what it was given but the `download_once` the row had. */
  lemma UpsertWritesOneRow(rows: Rows, row: Artifact, newId: ArtifactId, id: ArtifactId)
    requires UniquePaths(rows) && newId !in rows && Writes(rows, row, newId, id)
    ensures Upserted(rows, row, newId)
      == rows[id := if id in rows then row.(downloadOnce := rows[id].downloadOnce) else row]
  {
    if ExistsAt(rows, row.path) {
      AtMostOneRow(rows, id, row.path);
      assert forall i :: i in rows ==> (rows[i].path == row.path <==> i == id);
    }
  }

  lemma UpsertedAligned(b: Build, row: Artifact, newId: ArtifactId)
    requires Aligned(b) && newId !in b.rows && row.path != "" && row.path in b.disk
    requires row.isDir <==> b.disk[row.path].Dir?
    requires row.name == Name(row.path) && row.category == Category(row.path)
    ensures Aligned(Build(Upserted(b.rows, row, newId), b.disk))
  {
    var b' := Build(Upserted(b.rows, row, newId), b.disk);
    forall id | id in b'.rows ensures RowOk(b', id) {
      if id in b.rows { assert RowOk(b, id); }
    }
    forall i, j, path | RowAt(b'.rows, i, path) && RowAt(b'.rows, j, path) ensures i == j {
      if ExistsAt(b.rows, row.path) {
        assert RowAt(b.rows, i, path) && RowAt(b.rows, j, path);
      } else {
        assert i == newId || RowAt(b.rows, i, path);
        assert j == newId || RowAt(b.rows, j, path);
      }
    }
  }

  lemma PlacedFileAligned(b: Build, path: string, size: int, sha256: string)
    requires Aligned(b) && path != "" && !(path in b.disk && b.disk[path].Dir?)
    requires forall q :: q in Chain(Parent(path)) ==> q in b.disk && b.disk[q].Dir?
    ensures Aligned(Build(b.rows, b.disk[path := File(size, sha256)]))
  {
    var b' := Build(b.rows, b.disk[path := File(size, sha256)]);
    forall p, q | p in b'.disk && Under(p, q) && q != "" ensures q in b'.disk && b'.disk[q].Dir? {
      if p == path {
        ParentChain(path, q);
      } else {
        assert q in b.disk && b.disk[q].Dir?;
      }
    }
    forall id | id in b'.rows ensures RowOk(b', id) { assert RowOk(b, id); }
  }

  lemma UploadKeepsAligned(b: Build, path: string, size: int, sha256: string, newId: ArtifactId, io: Io)
    requires Aligned(b) && path != "" && newId !in b.rows
    ensures Aligned(UploadFile(b, path, size, sha256, newId, io).build)
  {
    var made := Build(b.rows, MadeDirs(b.disk, Parent(path), io.made));
    MadeDirsOk(b.disk, Parent(path), io.made);
    GrownDiskAligned(b, made.disk);
    if MadeAll(b.disk, Parent(path), io.made) && io.renamed && !(path in b.disk && b.disk[path].Dir?) {
      NotInOwnParent(path);
      PlacedFileAligned(made, path, size, sha256);
      var placed := Build(b.rows, made.disk[path := File(size, sha256)]);
      if io.hashed {
        UpsertedAligned(placed, Fresh(path, size, Some(sha256), false), newId);
      }
    }
  }

  lemma NotInOwnParent(path: string)
    requires path != ""
    ensures path !in Chain(Parent(path))
  {
    ChainIs(Parent(path), path);
    if Parent(path) != "" { ParentIsAbove(path); }
  }

  lemma FolderPaths(path: string, d: nat)
    requires Normal(path) && d < |Split(path)|
    ensures FoldersOf(path)[d] != "" && FoldersOf(path)[d] in Chain(path)
  {
    var parts, folder := Split(path), FoldersOf(path)[d];
    SplitPartsHaveNoSlash(path);
    SplitJoin(parts[..d + 1]);
    assert Split(folder) == parts[..d + 1];
    JoinPlainChars(parts[..d + 1]);
    JoinSplit(path);
    if d + 1 < |parts| {
      assert parts[..|Split(folder)|] == Split(folder);
      UnderIsSegmentPrefix(path, folder);
    } else {
      assert parts[..d + 1] == parts;
    }
    ChainIs(path, folder);
  }

  /** Row ids handed out by the database are new and differ from one another. */
  ghost predicate NewIds(rows: Rows, ids: seq<ArtifactId>) {
    (forall i :: 0 <= i < |ids| ==> ids[i] !in rows) && forall i, j :: 0 <= i < j < |ids| ==> ids[i] != ids[j]
  }

  lemma {:induction false} FoldersUpsertedAligned(b: Build, folders: seq<string>, newIds: seq<ArtifactId>)
    requires Aligned(b) && |folders| == |newIds| && NewIds(b.rows, newIds)
    requires forall i :: 0 <= i < |folders| ==> folders[i] != "" && folders[i] in b.disk && b.disk[folders[i]].Dir?
    ensures Aligned(Build(FoldersUpserted(b.rows, folders, newIds), b.disk))
    ensures forall id :: id in FoldersUpserted(b.rows, folders, newIds) ==> id in b.rows || id in newIds
    decreases |folders|
  {
    if folders != [] {
      var n := |folders| - 1;
      FoldersUpsertedAligned(b, folders[..n], newIds[..n]);
      var before := Build(FoldersUpserted(b.rows, folders[..n], newIds[..n]), b.disk);
      UpsertedAligned(before, FolderRow(folders[n]), newIds[n]);
    }
  }

  lemma FoldersKeepAligned(b: Build, path: string, newIds: seq<ArtifactId>, io: Io)
    requires Aligned(b) && Normal(path) && |newIds| == |FoldersOf(path)| && NewIds(b.rows, newIds)
    ensures Aligned(CreateFolder(b, path, newIds, io).build)
  {
    if !IsFile(b.disk, path) {
      MadeDirsOk(b.disk, path, io.made);
      var made := Build(b.rows, MadeDirs(b.disk, path, io.made));
      GrownDiskAligned(b, made.disk);
      if MadeAll(b.disk, path, io.made) {
        forall d | 0 <= d < |FoldersOf(path)|
          ensures FoldersOf(path)[d] != "" && FoldersOf(path)[d] in made.disk && made.disk[FoldersOf(path)[d]].Dir?
        {
          FolderPaths(path, d);
        }
        FoldersUpsertedAligned(made, FoldersOf(path), newIds);
      }
    }
  }

  // ----- Delete -----

  /** Every row the entry covers is gone. */
  ghost predicate NoRowIn(rows: Rows, path: string, isDir: bool) {
    forall id :: id in rows ==> rows[id].path != path && !(isDir && Under(rows[id].path, path))
  }

  /** Once the rows of an entry are gone, no unlink of it, complete or not, harms the rest. */
  lemma UnlinkKeepsAligned(b: Build, path: string, isDir: bool, gone: set<string>)
    requires Aligned(b) && NoRowIn(b.rows, path, isDir) && MayUnlink(b.disk, path, isDir, gone)
    ensures Aligned(Build(b.rows, b.disk - gone))
  {
    var b' := Build(b.rows, b.disk - gone);
    forall p, q | p in b'.disk && Under(p, q) && q != "" ensures q in b'.disk && b'.disk[q].Dir? {
      assert p in b.disk && q in b.disk && b.disk[q].Dir?;
      assert q in gone ==> p in gone;
    }
    forall id | id in b'.rows ensures RowOk(b', id) {
      assert RowOk(b, id);
    }
  }

  lemma RowsDeletedAligned(b: Build, id: ArtifactId, path: string, isDir: bool)
    requires Aligned(b)
    ensures Aligned(Build(RowsDeleted(b.rows, id, path, isDir), b.disk))
  {
    var b' := Build(RowsDeleted(b.rows, id, path, isDir), b.disk);
    forall i | i in b'.rows ensures RowOk(b', i) { assert RowOk(b, i); }
    forall i, j, p | RowAt(b'.rows, i, p) && RowAt(b'.rows, j, p) ensures i == j {
      assert RowAt(b.rows, i, p) && RowAt(b.rows, j, p);
    }
  }

  lemma DeleteKeepsAligned(b: Build, id: ArtifactId, gone: set<string>)
    requires Aligned(b)
    requires id in b.rows ==> MayUnlink(b.disk, b.rows[id].path, b.rows[id].isDir, gone)
    ensures Aligned(DeleteEntry(b, id, gone).build)
  {
    if id in b.rows {
      var entry := b.rows[id];
      var rest := Build(RowsDeleted(b.rows, id, entry.path, entry.isDir), b.disk);
      RowsDeletedAligned(b, id, entry.path, entry.isDir);
      forall i | i in rest.rows ensures rest.rows[i].path != entry.path {
        if rest.rows[i].path == entry.path { assert RowAt(b.rows, i, entry.path) && RowAt(b.rows, id, entry.path); }
      }
      UnlinkKeepsAligned(rest, entry.path, entry.isDir, gone);
    }
  }

  lemma {:induction false} AllRowsDeletedAligned(b: Build, doomed: seq<Doomed>)
    requires Aligned(b)
    ensures Aligned(Build(AllRowsDeleted(b.rows, doomed), b.disk))
    decreases |doomed|
  {
    if doomed != [] {
      RowsDeletedAligned(b, doomed[0].id, doomed[0].entry.path, doomed[0].entry.isDir);
      AllRowsDeletedAligned(Build(EntryRowsDeleted(b.rows, doomed[0]), b.disk), doomed[1..]);
    }
  }

  /** The batch leaves exactly the rows that no entry of it covers. */
  lemma {:induction false} AllRowsDeletedAre(rows: Rows, doomed: seq<Doomed>)
    ensures AllRowsDeleted(rows, doomed) ==
      map i | i in rows && (forall k :: 0 <= k < |doomed| ==> !Covers(doomed[k], i, rows[i].path)) :: rows[i]
    decreases |doomed|
  {
    if doomed != [] {
      AllRowsDeletedAre(EntryRowsDeleted(rows, doomed[0]), doomed[1..]);
      assert forall i, path ::
        (forall k :: 0 <= k < |doomed| ==> !Covers(doomed[k], i, path)) <==>
        !Covers(doomed[0], i, path) && (forall k :: 0 <= k < |doomed[1..]| ==> !Covers(doomed[1..][k], i, path));
    }
  }

  lemma {:induction false} UnlinksKeepAligned(b: Build, doomed: seq<Doomed>, gone: seq<set<string>>)
    requires Aligned(b) && |doomed| == |gone| && MayUnlinkAll(b.disk, doomed, gone)
    requires forall k :: 0 <= k < |doomed| ==> NoRowIn(b.rows, doomed[k].entry.path, doomed[k].entry.isDir)
    ensures Aligned(Build(b.rows, AllUnlinked(b.disk, gone)))
    decreases |doomed|
  {
    if doomed != [] {
      UnlinkKeepsAligned(b, doomed[0].entry.path, doomed[0].entry.isDir, gone[0]);
      UnlinksKeepAligned(Build(b.rows, b.disk - gone[0]), doomed[1..], gone[1..]);
    }
  }

  lemma {:induction false} FoundAre(rows: Rows, ids: seq<ArtifactId>)
    ensures forall k :: 0 <= k < |Found(rows, ids)| ==>
      Found(rows, ids)[k].id in rows && rows[Found(rows, ids)[k].id] == Found(rows, ids)[k].entry
  {
    if ids != [] { FoundAre(rows, ids[1..]); }
  }

  lemma BulkDeleteKeepsAligned(b: Build, ids: seq<ArtifactId>, gone: seq<set<string>>)
    requires Aligned(b) && |gone| == |Found(b.rows, ids)| && MayUnlinkAll(b.disk, Found(b.rows, ids), gone)
    ensures Aligned(BulkDelete(b, ids, gone).build)
  {
    var doomed := Found(b.rows, ids);
    var rest := Build(AllRowsDeleted(b.rows, doomed), b.disk);
    AllRowsDeletedAligned(b, doomed);
    AllRowsDeletedAre(b.rows, doomed);
    FoundAre(b.rows, ids);
    forall k | 0 <= k < |doomed| ensures NoRowIn(rest.rows, doomed[k].entry.path, doomed[k].entry.isDir) {
      forall i | i in rest.rows ensures rest.rows[i].path != doomed[k].entry.path {
        assert !Covers(doomed[k], i, b.rows[i].path);
        if rest.rows[i].path == doomed[k].entry.path {
          assert RowAt(b.rows, i, b.rows[i].path) && RowAt(b.rows, doomed[k].id, b.rows[i].path);
        }
      }
    }
    UnlinksKeepAligned(rest, doomed, gone);
  }

  // ----- The count a bulk delete reports -----

  function Picked(rows: Rows, ids: seq<ArtifactId>): set<ArtifactId> { set id | id in ids && id in rows }

  function IdsOf(doomed: seq<Doomed>): set<ArtifactId> { set d | d in doomed :: d.id }

  lemma {:induction false} FoundIds(rows: Rows, ids: seq<ArtifactId>)
    ensures IdsOf(Found(rows, ids)) == Picked(rows, ids)
    decreases |ids|
  {
    if ids != [] {
      FoundIds(rows, ids[1..]);
      var rest := Found(rows, ids[1..]);
      assert Picked(rows, ids) == Picked(rows, ids[1..]) + if ids[0] in rows then {ids[0]} else {};
      if ids[0] in rows {
        var first := Doomed(ids[0], rows[ids[0]]);
        assert forall d :: d in [first] + rest <==> d == first || d in rest;
        assert IdsOf([first] + rest) == IdsOf(rest) + {first.id};
      }
    }
  }

  /** How often an id that names a row is sent again. */
  function SentAgain(rows: Rows, ids: seq<ArtifactId>): nat {
    if ids == [] then 0 else (if ids[0] in rows && ids[0] in ids[1..] then 1 else 0) + SentAgain(rows, ids[1..])
  }

  lemma {:induction false} FoundCount(rows: Rows, ids: seq<ArtifactId>)
    ensures |Found(rows, ids)| == |Picked(rows, ids)| + SentAgain(rows, ids)
    decreases |ids|
  {
    if ids != [] {
      FoundCount(rows, ids[1..]);
      var later := Picked(rows, ids[1..]);
      assert ids[0] in later <==> ids[0] in rows && ids[0] in ids[1..];
      assert Picked(rows, ids) == if ids[0] in rows then later + {ids[0]} else later;
      if ids[0] in later { assert later + {ids[0]} == later; }
    }
  }

  ghost predicate BelowPicked(rows: Rows, ids: seq<ArtifactId>, path: string) {
    exists i :: i in ids && i in rows && rows[i].isDir && Under(path, rows[i].path)
  }

  /** The rows a bulk delete removes are those picked and those below a picked folder. */
  lemma LostAre(rows: Rows, ids: seq<ArtifactId>, j: ArtifactId)
    requires j in rows
    ensures j !in AllRowsDeleted(rows, Found(rows, ids)) <==> j in ids || BelowPicked(rows, ids, rows[j].path)
  {
    var doomed := Found(rows, ids);
    FoundAre(rows, ids);
    FoundIds(rows, ids);
    AllRowsDeletedAre(rows, doomed);
    forall i | i in ids && i in rows ensures exists k :: 0 <= k < |doomed| && doomed[k] == Doomed(i, rows[i]) {
      assert i in IdsOf(doomed);
    }
    forall k | 0 <= k < |doomed| ensures doomed[k].id in ids {
      assert doomed[k].id in IdsOf(doomed);
    }
  }

  ghost function Lost(rows: Rows, ids: seq<ArtifactId>): set<ArtifactId> {
    rows.Keys - AllRowsDeleted(rows, Found(rows, ids)).Keys
  }

  lemma LostCount(rows: Rows, ids: seq<ArtifactId>)
    ensures |Lost(rows, ids)| == |rows| - |AllRowsDeleted(rows, Found(rows, ids))|
  {
    var left := AllRowsDeleted(rows, Found(rows, ids)).Keys;
    assert left <= rows.Keys by { AllRowsDeletedAre(rows, Found(rows, ids)); }
    assert rows.Keys == left + Lost(rows, ids) && left !! Lost(rows, ids);
  }

  /** The rows that go along with a picked folder. */
  ghost function TakenAlong(rows: Rows, ids: seq<ArtifactId>): set<ArtifactId> {
    set j | j in rows && j !in ids && BelowPicked(rows, ids, rows[j].path)
  }

  lemma LostIs(rows: Rows, ids: seq<ArtifactId>)
    ensures Lost(rows, ids) == Picked(rows, ids) + TakenAlong(rows, ids)
    ensures |Lost(rows, ids)| == |Picked(rows, ids)| + |TakenAlong(rows, ids)|
  {
    var picked, along, lost := Picked(rows, ids), TakenAlong(rows, ids), Lost(rows, ids);
    forall j | j in rows ensures j in lost <==> j in picked || j in along { LostAre(rows, ids, j); }
    assert forall j :: j in lost ==> j in rows;
    assert lost == picked + along && picked !! along;
  }

  /** The count reported is that of the rows removed exactly when ids are sent again as often as
      rows go along with a picked folder. */
  lemma BulkCountExactly(rows: Rows, ids: seq<ArtifactId>)
    ensures |Found(rows, ids)| == |rows| - |AllRowsDeleted(rows, Found(rows, ids))| <==>
      SentAgain(rows, ids) == |TakenAlong(rows, ids)|
  {
    FoundCount(rows, ids);
    LostCount(rows, ids);
    LostIs(rows, ids);
  }
}
