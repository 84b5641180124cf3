/** The admin operations on one build, with any filesystem call free to fail: each keeps rows
    and disk aligned, and every row's path normal. */
module BundleSteps {
  import opened Texts
  import opened Wrappers
  import opened Paths
  import opened BundleTree
  import opened BundleAlignment
  import opened BundleMoves
  import opened BundleBatches

  datatype Op =
    | Upload(path: string, size: int, sha256: string, newId: ArtifactId, io: Io)
    | NewFolder(path: string, newIds: seq<ArtifactId>, io: Io)
    | Delete(id: ArtifactId, gone: set<string>)
    | DeleteMany(ids: seq<ArtifactId>, goneEach: seq<set<string>>)
    | Move(id: ArtifactId, target: string, io: Io)
    | MoveMany(ids: seq<ArtifactId>, targetDir: string, ios: seq<Io>)
    | Toggle(id: ArtifactId, downloadOnce: bool)
    | Rehash(id: ArtifactId)

  /** The batch completes, with its files in order, or fails before its first entry has moved. */
  ghost predicate NothingHalfMoved(b: Build, ids: seq<ArtifactId>, targetDir: string, ios: seq<Io>)
    requires |ids| == |ios|
  {
    var batch := ResolvedBatch(b.rows, ids, targetDir);
    if MoveFiles(b, ids, targetDir, ios).error.None? then Selectable(b.rows, ids)
    else ids == [] || batch.Err? || batch.value == [] || BatchTurn(b, batch.value[0], ios[0]).error.Some?
  }

  /** What the callers guarantee: paths come out of `normalize_relative_path`, new ids are
      new, unlinks take only what they were asked to, and batches are in order. */
  ghost predicate Enabled(b: Build, op: Op) {
    match op
    case Upload(path, _, _, newId, _) => Normal(path) && newId !in b.rows
    case NewFolder(path, newIds, _) => Normal(path) && |newIds| == |FoldersOf(path)| && NewIds(b.rows, newIds)
    case Delete(id, gone) => id in b.rows ==> MayUnlink(b.disk, b.rows[id].path, b.rows[id].isDir, gone)
    case DeleteMany(ids, gone) => |gone| == |Found(b.rows, ids)| && MayUnlinkAll(b.disk, Found(b.rows, ids), gone)
    case Move(_, target, _) => Normal(target)
    case MoveMany(ids, dir, ios) => |ids| == |ios| && NothingHalfMoved(b, ids, dir, ios)
    case Toggle(_, _) => true
    case Rehash(_) => true
  }

  ghost function Apply(b: Build, op: Op): Build
    requires Enabled(b, op)
  {
    match op
    case Upload(path, size, sha256, newId, io) => UploadFile(b, path, size, sha256, newId, io).build
    case NewFolder(path, newIds, io) => CreateFolder(b, path, newIds, io).build
    case Delete(id, gone) => DeleteEntry(b, id, gone).build
    case DeleteMany(ids, gone) => BulkDelete(b, ids, gone).build
    case Move(id, target, io) => MoveEntry(b, id, target, io).build
    case MoveMany(ids, dir, ios) => MoveFiles(b, ids, dir, ios).build
    case Toggle(id, value) => ToggleDownloadOnce(b, id, value).build
    case Rehash(id) => RehashFile(b, id).build
  }

  // ----- Normal paths -----

  ghost predicate NormalPaths(rows: Rows) {
    forall id :: id in rows ==> Normal(rows[id].path)
  }

  lemma NormalIsNonempty(path: string)
    requires Normal(path)
    ensures path != ""
  {
    assert !Plain(Split("")[0]);
  }

  lemma NormalConcat(a: string, b: string)
    ensures Normal(a + "/" + b) <==> Normal(a) && Normal(b)
  {
    SplitConcat(a, b);
    var p, q := Split(a), Split(b);
    assert (forall i :: 0 <= i < |p| ==> p[i] == (p + q)[i]) && forall i :: 0 <= i < |q| ==> q[i] == (p + q)[|p| + i];
  }

  lemma NormalChain(p: string, q: string)
    requires Normal(p) && q in Chain(p)
    ensures Normal(q)
  {
    ChainIs(p, q);
    if q != p {
      assert p == q + "/" + p[|q| + 1..];
      NormalConcat(q, p[|q| + 1..]);
    }
  }

  lemma MovedPathNormal(path: string, source: string, target: string)
    requires Normal(path) && Normal(target) && Under(path, source)
    ensures Normal(target + path[|source|..])
  {
    var suffix := path[|source| + 1..];
    assert path == source + "/" + suffix && target + path[|source|..] == target + "/" + suffix;
    NormalConcat(source, suffix);
    NormalConcat(target, suffix);
  }

  lemma MoveKeepsNormal(rows: Rows, id: ArtifactId, source: string, target: string, isDir: bool)
    requires NormalPaths(rows) && Normal(target)
    ensures NormalPaths(RowsMoved(rows, id, source, target, isDir))
  {
    forall i | i in rows && Under(rows[i].path, source) ensures Normal(target + rows[i].path[|source|..]) {
      MovedPathNormal(rows[i].path, source, target);
    }
  }

  lemma {:induction false} BatchKeepsNormal(start: Rows, b: Build, batch: seq<Selected>, ios: seq<Io>)
    requires |batch| == |ios| && NormalPaths(start) && NormalPaths(b.rows)
    requires forall k :: 0 <= k < |batch| ==> Normal(batch[k].target)
    ensures NormalPaths(BatchFrom(start, b, batch, ios).build.rows)
    decreases |batch|
  {
    if batch != [] {
      var turn := BatchTurn(b, batch[0], ios[0]);
      if turn.error.None? {
        MoveKeepsNormal(b.rows, RowIdAt(b.rows, batch[0].entry.path), batch[0].entry.path, batch[0].target, batch[0].entry.isDir);
        BatchKeepsNormal(start, turn.build, batch[1..], ios[1..]);
      }
    }
  }

  lemma MoveFilesKeepsNormal(b: Build, ids: seq<ArtifactId>, targetDir: string, ios: seq<Io>)
    requires |ids| == |ios| && NormalPaths(b.rows)
    ensures NormalPaths(MoveFiles(b, ids, targetDir, ios).build.rows)
  {
    if ids != [] && ResolvedBatch(b.rows, ids, targetDir).Ok? {
      var batch := ResolvedBatch(b.rows, ids, targetDir).value;
      ResolvedBatchIs(b.rows, ids, targetDir);
      forall k | 0 <= k < |batch| ensures Normal(batch[k].target) {
        var name := batch[k].entry.name;
        assert ids[k] == batch[k].id && JoinTargetDir(targetDir, name) == Ok(batch[k].target);
        NormalizedIsNormal(RawTarget(Trim(targetDir), name));
      }
      BatchKeepsNormal(b.rows, b, batch, ios);
    }
  }

  lemma UpsertKeepsNormal(rows: Rows, row: Artifact, newId: ArtifactId)
    requires NormalPaths(rows) && Normal(row.path)
    ensures NormalPaths(Upserted(rows, row, newId))
  {
  }

  lemma {:induction false} FoldersKeepNormal(rows: Rows, path: string, folders: seq<string>, newIds: seq<ArtifactId>)
    requires NormalPaths(rows) && Normal(path) && |folders| == |newIds| && folders <= FoldersOf(path)
    ensures NormalPaths(FoldersUpserted(rows, folders, newIds))
    decreases |folders|
  {
    if folders != [] {
      var n := |folders| - 1;
      FoldersKeepNormal(rows, path, folders[..n], newIds[..n]);
      var parts := Split(path)[..n + 1];
      assert folders[n] == Join(parts);
      SplitPartsHaveNoSlash(path);
      SplitJoin(parts);
    }
  }

  lemma DeletesKeepNormal(rows: Rows, doomed: seq<Doomed>)
    requires NormalPaths(rows)
    ensures NormalPaths(AllRowsDeleted(rows, doomed))
  {
    AllRowsDeletedAre(rows, doomed);
  }

  lemma StepKeepsNormal(b: Build, op: Op)
    requires NormalPaths(b.rows) && Enabled(b, op)
    ensures NormalPaths(Apply(b, op).rows)
  {
    match op
    case Upload(path, size, sha256, newId, _) => UpsertKeepsNormal(b.rows, Fresh(path, size, Some(sha256), false), newId);
    case NewFolder(path, newIds, _) => FoldersKeepNormal(b.rows, path, FoldersOf(path), newIds);
    case DeleteMany(ids, _) => DeletesKeepNormal(b.rows, Found(b.rows, ids));
    case Move(id, target, _) =>
      if id in b.rows { MoveKeepsNormal(b.rows, id, b.rows[id].path, target, b.rows[id].isDir); }
    case MoveMany(ids, dir, ios) => MoveFilesKeepsNormal(b, ids, dir, ios);
    case _ =>
  }

  // ----- Alignment -----

  lemma RowUpdateKeepsAligned(b: Build, id: ArtifactId, row: Artifact)
    requires Aligned(b) && id in b.rows
    requires row == b.rows[id].(downloadOnce := row.downloadOnce, sha256 := row.sha256)
    ensures Aligned(b.(rows := b.rows[id := row]))
  {
    var b' := b.(rows := b.rows[id := row]);
    forall i | i in b'.rows ensures RowOk(b', i) { assert RowOk(b, i); }
    forall i, j, path | RowAt(b'.rows, i, path) && RowAt(b'.rows, j, path) ensures i == j {
      assert RowAt(b.rows, i, path) && RowAt(b.rows, j, path);
    }
  }

  lemma NamesArePlain(b: Build)
    requires Aligned(b) && NormalPaths(b.rows)
    ensures PlainNames(b.rows)
  {
    forall id | id in b.rows ensures Plain(b.rows[id].name) {
      assert RowOk(b, id);
      var parts := Split(b.rows[id].path);
      assert Plain(parts[|parts| - 1]);
    }
  }

  lemma MoveManyKeepsAligned(b: Build, ids: seq<ArtifactId>, targetDir: string, ios: seq<Io>)
    requires |ids| == |ios| && NothingHalfMoved(b, ids, targetDir, ios)
    requires Aligned(b) && NormalPaths(b.rows)
    ensures Aligned(MoveFiles(b, ids, targetDir, ios).build)
  {
    if MoveFiles(b, ids, targetDir, ios).error.None? {
      BatchKeepsAligned(b, ids, targetDir, ios);
    } else {
      NamesArePlain(b);
      if ResolvedBatch(b.rows, ids, targetDir).Ok? { ResolvedBatchIs(b.rows, ids, targetDir); }
      FailedBatchAlignedExactly(b, ids, targetDir, ios);
    }
  }

  lemma StepKeepsAligned(b: Build, op: Op)
    requires Aligned(b) && NormalPaths(b.rows) && Enabled(b, op)
    ensures Aligned(Apply(b, op))
  {
    match op
    case Upload(path, size, sha256, newId, io) =>
      NormalIsNonempty(path);
      UploadKeepsAligned(b, path, size, sha256, newId, io);
    case NewFolder(path, newIds, io) => FoldersKeepAligned(b, path, newIds, io);
    case Delete(id, gone) => DeleteKeepsAligned(b, id, gone);
    case DeleteMany(ids, gone) => BulkDeleteKeepsAligned(b, ids, gone);
    case Move(id, target, io) =>
      NormalIsNonempty(target);
      MoveKeepsAligned(b, id, target, io);
    case MoveMany(ids, dir, ios) => MoveManyKeepsAligned(b, ids, dir, ios);
    case Toggle(id, value) =>
      if id in b.rows { RowUpdateKeepsAligned(b, id, b.rows[id].(downloadOnce := value)); }
    case Rehash(id) =>
      if RehashFile(b, id).error.None? { RowUpdateKeepsAligned(b, id, RehashFile(b, id).build.rows[id]); }
  }
}
