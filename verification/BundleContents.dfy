/** The size and hash the manifest advertises for a file are those of the bytes on disk. */
module BundleContents {
  import opened Wrappers
  import opened Paths
  import opened BundleTree
  import opened BundleAlignment
  import opened BundleMoves
  import opened BundleBatches
  import opened BundleSteps

  /** The file row's size and hash are those of the file at its path. */
  ghost predicate Truthful(row: Artifact, disk: Disk) {
    row.isDir || (row.path in disk && row.sha256.Some? && disk[row.path] == File(row.size, row.sha256.value))
  }

  ghost predicate Faithful(b: Build) {
    forall id :: id in b.rows ==> Truthful(b.rows[id], b.disk)
  }

  lemma MadeDirsFaithful(rows: Rows, disk: Disk, p: string, made: nat)
    requires DiskOk(disk) && Faithful(Build(rows, disk))
    ensures Faithful(Build(rows, MadeDirs(disk, p, made)))
  {
    MadeDirsOk(disk, p, made);
    forall id | id in rows ensures Truthful(rows[id], MadeDirs(disk, p, made)) {
      assert Truthful(rows[id], disk);
    }
  }

  // ----- Uploads -----

  /** The upload fails once the new bytes are in place, over a row that tells of others. */
  ghost predicate LeavesStaleRow(b: Build, path: string, size: int, sha256: string, io: Io) {
    && MadeAll(b.disk, Parent(path), io.made) && io.renamed && !(path in b.disk && b.disk[path].Dir?) && !io.hashed
    && TellsOther(b.rows, path, size, sha256)
  }

  /** Exactly when an upload keeps the rows faithful: unless hashing fails after new bytes have
      replaced a file that has a row. */
  lemma UploadFaithfulExactly(b: Build, path: string, size: int, sha256: string, newId: ArtifactId, io: Io)
    requires Aligned(b) && Faithful(b) && path != "" && newId !in b.rows
    ensures Faithful(UploadFile(b, path, size, sha256, newId, io).build) <==> !LeavesStaleRow(b, path, size, sha256, io)
  {
    var made := Build(b.rows, MadeDirs(b.disk, Parent(path), io.made));
    MadeDirsFaithful(b.rows, b.disk, Parent(path), io.made);
    NotInOwnParent(path);
    if MadeAll(b.disk, Parent(path), io.made) && io.renamed && !(path in b.disk && b.disk[path].Dir?) {
      forall id | id in b.rows && b.rows[id].path == path ensures !b.rows[id].isDir { assert RowOk(b, id); }
      PlacedFaithfulExactly(made, path, size, sha256);
      if io.hashed { UpsertedFaithful(made, path, size, sha256, newId); }
    }
  }

  /** The row at `path`, if there is one, tells of other bytes. */
  ghost predicate TellsOther(rows: Rows, path: string, size: int, sha256: string) {
    exists id :: id in rows && rows[id].path == path && !(rows[id].size == size && rows[id].sha256 == Some(sha256))
  }

  lemma PlacedFaithfulExactly(b: Build, path: string, size: int, sha256: string)
    requires Faithful(b) && forall id :: id in b.rows && b.rows[id].path == path ==> !b.rows[id].isDir
    ensures Faithful(Build(b.rows, b.disk[path := File(size, sha256)])) <==> !TellsOther(b.rows, path, size, sha256)
  {
    var disk := b.disk[path := File(size, sha256)];
    forall id | id in b.rows && b.rows[id].path != path ensures Truthful(b.rows[id], disk) {
      assert Truthful(b.rows[id], b.disk);
    }
    if TellsOther(b.rows, path, size, sha256) {
      var id :| id in b.rows && b.rows[id].path == path && !(b.rows[id].size == size && b.rows[id].sha256 == Some(sha256));
      assert !Truthful(b.rows[id], disk);
    }
  }

  lemma UpsertedFaithful(b: Build, path: string, size: int, sha256: string, newId: ArtifactId)
    requires Faithful(b)
    ensures Faithful(Build(Upserted(b.rows, Fresh(path, size, Some(sha256), false), newId), b.disk[path := File(size, sha256)]))
  {
    var rows := Upserted(b.rows, Fresh(path, size, Some(sha256), false), newId);
    forall id | id in rows ensures Truthful(rows[id], b.disk[path := File(size, sha256)]) {
      if id in b.rows { assert Truthful(b.rows[id], b.disk); }
    }
  }

  /** A completed upload leaves the new bytes at the path, and the path's row telling their
      size and hash; it keeps its id and `download_once`, and no other row changes. */
  lemma UploadRecords(b: Build, path: string, size: int, sha256: string, newId: ArtifactId, io: Io, id: ArtifactId)
    requires Aligned(b) && newId !in b.rows && UploadFile(b, path, size, sha256, newId, io).error.None?
    requires Writes(b.rows, Fresh(path, size, Some(sha256), false), newId, id)
    ensures var after := UploadFile(b, path, size, sha256, newId, io).build;
      && path in after.disk && after.disk[path] == File(size, sha256) && id in after.rows
      && after.rows == b.rows[id := after.rows[id]]
      && after.rows[id].path == path && after.rows[id].size == size && after.rows[id].sha256 == Some(sha256)
      && after.rows[id].downloadOnce == (id in b.rows && b.rows[id].downloadOnce)
  {
    UpsertWritesOneRow(b.rows, Fresh(path, size, Some(sha256), false), newId, id);
  }

  // ----- Folders and deletes -----

  lemma UpsertedFolderFaithful(b: Build, row: Artifact, newId: ArtifactId)
    requires Faithful(b) && row.isDir
    ensures Faithful(Build(Upserted(b.rows, row, newId), b.disk))
  {
    var rows := Upserted(b.rows, row, newId);
    forall id | id in rows ensures Truthful(rows[id], b.disk) {
      assert id in b.rows ==> Truthful(b.rows[id], b.disk);
    }
  }

  lemma {:induction false} FoldersFaithful(b: Build, folders: seq<string>, newIds: seq<ArtifactId>)
    requires Faithful(b) && |folders| == |newIds|
    ensures Faithful(Build(FoldersUpserted(b.rows, folders, newIds), b.disk))
    decreases |folders|
  {
    if folders != [] {
      var n := |folders| - 1;
      FoldersFaithful(b, folders[..n], newIds[..n]);
      UpsertedFolderFaithful(Build(FoldersUpserted(b.rows, folders[..n], newIds[..n]), b.disk), FolderRow(folders[n]), newIds[n]);
    }
  }

  /** What an unlink took has no row any more. */
  lemma FewerFaithful(b: Build, b': Build)
    requires Faithful(b) && Aligned(b')
    requires forall id :: id in b'.rows ==> id in b.rows && b'.rows[id] == b.rows[id]
    requires forall q :: q in b'.disk ==> q in b.disk && b'.disk[q] == b.disk[q]
    ensures Faithful(b')
  {
    forall id | id in b'.rows ensures Truthful(b'.rows[id], b'.disk) {
      assert Truthful(b.rows[id], b.disk) && RowOk(b', id);
    }
  }

  lemma {:induction false} UnlinkedIsLess(disk: Disk, gone: seq<set<string>>)
    ensures forall q :: q in AllUnlinked(disk, gone) ==> q in disk && AllUnlinked(disk, gone)[q] == disk[q]
    decreases |gone|
  {
    if gone != [] { UnlinkedIsLess(disk - gone[0], gone[1..]); }
  }

  // ----- Moves -----

  lemma MoveKeepsFaithful(b: Build, id: ArtifactId, source: string, target: string, isDir: bool, io: Io)
    requires LegalOn(b, id, source, target, isDir) && Faithful(b) && (isDir || !ExistsUnder(b.rows, source))
    requires MoveSubtree(b, id, source, target, isDir, io).error.None?
    ensures Faithful(MoveSubtree(b, id, source, target, isDir, io).build)
  {
    var made := MadeDirs(b.disk, Parent(target), io.made);
    MoveMeets(b, id, source, target, isDir, io);
    MadeDirsFaithful(b.rows, b.disk, Parent(target), io.made);
    MoveAlignedExactly(b, id, source, target, isDir, io);
    RenamedFaithful(Build(b.rows, made), id, source, target, isDir);
  }

  lemma RenamedFaithful(b: Build, id: ArtifactId, source: string, target: string, isDir: bool)
    requires LegalOn(b, id, source, target, isDir) && GoodRename(b.disk, source, target) && Faithful(b)
    requires Aligned(Build(RowsMoved(b.rows, id, source, target, isDir), RenamedDisk(b.disk, source, target)))
    ensures Faithful(Build(RowsMoved(b.rows, id, source, target, isDir), RenamedDisk(b.disk, source, target)))
  {
    var b' := Build(RowsMoved(b.rows, id, source, target, isDir), RenamedDisk(b.disk, source, target));
    MoveRewritesTheSubtree(b.rows, id, source, target, isDir);
    forall i | i in b'.rows ensures Truthful(b'.rows[i], b'.disk) {
      assert Truthful(b.rows[i], b.disk) && RowOk(b', i) && RowOk(b, i);
      RenamedNode(b.disk, source, target, b'.rows[i].path);
      if !InMove(b.rows, i, id, source, isDir) { NothingUnderTarget(b.disk, source, target, b.rows[i].path); }
    }
  }

  lemma MoveEntryFaithful(b: Build, id: ArtifactId, target: string, io: Io)
    requires Aligned(b) && Faithful(b) && target != ""
    ensures Faithful(MoveEntry(b, id, target, io).build)
  {
    if id in b.rows {
      var entry := b.rows[id];
      if MoveRefusal(entry, target).None? && target !in b.disk && DestinationFree(b.rows, target, entry.isDir) {
        if MoveSubtree(b, id, entry.path, target, entry.isDir, io).error.None? {
          forall i | i in b.rows && Under(b.rows[i].path, entry.path) ensures entry.isDir { NoRowBelowAFile(b, i, id); }
          MoveKeepsFaithful(b, id, entry.path, target, entry.isDir, io);
        } else {
          MadeDirsFaithful(b.rows, b.disk, Parent(target), io.made);
        }
      }
    }
  }

  lemma TurnKeepsFaithful(b: Build, batch: seq<Selected>, io: Io)
    requires batch != [] && Aligned(b) && Faithful(b) && FilesStand(b.rows, batch) && Moves(batch)
    requires BatchTurn(b, batch[0], io).error.None?
    ensures Faithful(BatchTurn(b, batch[0], io).build)
  {
    var sel := batch[0];
    TurnKeepsAligned(b, batch, io);
    TurnAlignedExactly(b, sel, io);
    MoveKeepsFaithful(b, RowIdAt(b.rows, sel.entry.path), sel.entry.path, sel.target, sel.entry.isDir, io);
  }

  lemma {:induction false} BatchFromFaithful(start: Rows, b: Build, batch: seq<Selected>, ios: seq<Io>)
    requires |batch| == |ios| && Aligned(b) && Faithful(b) && FilesStand(b.rows, batch) && FilesInOrder(batch) && Moves(batch)
    requires BatchFrom(start, b, batch, ios).error.None?
    ensures Faithful(BatchFrom(start, b, batch, ios).build)
    decreases |batch|
  {
    if batch != [] {
      TurnKeepsFaithful(b, batch, ios[0]);
      TurnKeepsAligned(b, batch, ios[0]);
      TurnKeepsFiles(b, batch, ios[0]);
      BatchFromFaithful(start, BatchTurn(b, batch[0], ios[0]).build, batch[1..], ios[1..]);
    }
  }

  lemma MoveManyFaithful(b: Build, ids: seq<ArtifactId>, targetDir: string, ios: seq<Io>)
    requires |ids| == |ios| && NothingHalfMoved(b, ids, targetDir, ios)
    requires Aligned(b) && NormalPaths(b.rows) && Faithful(b)
    ensures Faithful(MoveFiles(b, ids, targetDir, ios).build)
  {
    if ids != [] && ResolvedBatch(b.rows, ids, targetDir).Ok? {
      var batch := ResolvedBatch(b.rows, ids, targetDir).value;
      ResolvedBatchIs(b.rows, ids, targetDir);
      if MoveFiles(b, ids, targetDir, ios).error.None? {
        SelectableInOrder(b.rows, ids, targetDir);
        BatchFromFaithful(b.rows, b, batch, ios);
      } else {
        FailingTurnDisk(b, batch[0], ios[0]);
        MadeDirsFaithful(b.rows, b.disk, Parent(batch[0].target), ios[0].made);
      }
    }
  }

  // ----- Every operation -----

  /** An upload does not fail to hash what it has just put in place. */
  ghost predicate Hashed(b: Build, op: Op) {
    op.Upload? ==> !LeavesStaleRow(b, op.path, op.size, op.sha256, op.io)
  }

  lemma StepKeepsFaithful(b: Build, op: Op)
    requires Aligned(b) && NormalPaths(b.rows) && Faithful(b) && Enabled(b, op) && Hashed(b, op)
    ensures Faithful(Apply(b, op))
  {
    match op
    case Upload(path, size, sha256, newId, io) =>
      NormalIsNonempty(path);
      UploadFaithfulExactly(b, path, size, sha256, newId, io);
    case NewFolder(path, newIds, io) =>
      MadeDirsFaithful(b.rows, b.disk, path, io.made);
      FoldersFaithful(Build(b.rows, MadeDirs(b.disk, path, io.made)), FoldersOf(path), newIds);
    case Delete(id, gone) =>
      DeleteKeepsAligned(b, id, gone);
      FewerFaithful(b, Apply(b, op));
    case DeleteMany(ids, gone) =>
      BulkDeleteKeepsAligned(b, ids, gone);
      AllRowsDeletedAre(b.rows, Found(b.rows, ids));
      UnlinkedIsLess(b.disk, gone);
      FewerFaithful(b, Apply(b, op));
    case Move(id, target, io) =>
      NormalIsNonempty(target);
      MoveEntryFaithful(b, id, target, io);
    case MoveMany(ids, dir, ios) => MoveManyFaithful(b, ids, dir, ios);
    case Toggle(id, value) => RowFaithful(b, id, value);
    case Rehash(id) =>
      if id in b.rows { assert Truthful(b.rows[id], b.disk); }
  }

  lemma RowFaithful(b: Build, id: ArtifactId, value: bool)
    requires Faithful(b)
    ensures Faithful(ToggleDownloadOnce(b, id, value).build)
  {
    var b' := ToggleDownloadOnce(b, id, value).build;
    forall i | i in b'.rows ensures Truthful(b'.rows[i], b'.disk) { assert Truthful(b.rows[i], b.disk); }
  }
}
