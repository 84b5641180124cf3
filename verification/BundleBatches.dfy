/** Batch moves: a batch that completes keeps rows and disk aligned when no file is picked again,
    or after a folder it lies in; a batch that fails, whatever was picked, keeps them aligned
    exactly if nothing had moved yet. */
module BundleBatches {
  import opened Texts
  import opened Wrappers
  import opened Paths
  import opened BundleTree
  import opened BundleAlignment
  import opened BundleMoves

  /** The entry of each move is as it was resolved, and the move passed `validate_move`. */
  ghost predicate Resolved(rows: Rows, batch: seq<Selected>) {
    forall i :: 0 <= i < |batch| ==>
      && batch[i].id in rows && rows[batch[i].id] == batch[i].entry && batch[i].target != ""
      && MoveRefusal(batch[i].entry, batch[i].target).None?
  }

  /** `later` is not the entry `earlier` moves, nor below it. */
  predicate Clear(earlier: Selected, later: Selected) {
    && earlier.id != later.id && earlier.entry.path != later.entry.path
    && !(earlier.entry.isDir && Under(later.entry.path, earlier.entry.path))
  }

  /** No file is picked again, or after a folder it lies in; folders may come in any order. */
  ghost predicate FilesInOrder(batch: seq<Selected>) {
    forall i, j :: 0 <= i < j < |batch| && !batch[j].entry.isDir ==> Clear(batch[i], batch[j])
  }

  /** Every entry goes into the same folder. */
  ghost predicate OneTarget(batch: seq<Selected>) {
    forall i, j :: 0 <= i < |batch| && 0 <= j < |batch| ==> Parent(batch[i].target) == Parent(batch[j].target)
  }

  // ----- Resolving -----

  lemma {:induction false} ResolvedBatchIs(rows: Rows, ids: seq<ArtifactId>, targetDir: string)
    requires ResolvedBatch(rows, ids, targetDir).Ok?
    ensures var batch := ResolvedBatch(rows, ids, targetDir).value;
      && |batch| == |ids| && Resolved(rows, batch)
      && forall k :: 0 <= k < |ids| ==>
           batch[k].id == ids[k] && JoinTargetDir(targetDir, batch[k].entry.name) == Ok(batch[k].target)
  {
    if ids != [] {
      ResolvedBatchIs(rows, ids[1..], targetDir);
      NormalizedNonempty(RawTarget(Trim(targetDir), rows[ids[0]].name));
    }
  }

  lemma NormalizedNonempty(raw: string)
    requires Normalized(raw).Ok?
    ensures Normalized(raw).value != ""
  {
    NormalizedIsNormal(raw);
    assert !Plain(Split("")[0]);
  }

  lemma {:induction false} KeptConcat(a: seq<string>, b: seq<string>)
    ensures Kept(a + b) == Kept(a) + Kept(b)
  {
    if a == [] {
      assert a + b == b;
    } else {
      assert (a + b)[1..] == a[1..] + b;
      KeptConcat(a[1..], b);
    }
  }

  lemma {:induction false} UnifiedConcat(a: string, b: string)
    ensures Unified(a + b) == Unified(a) + Unified(b)
  {
    if a == "" {
      assert a + b == b;
    } else {
      assert (a + b)[1..] == a[1..] + b;
      UnifiedConcat(a[1..], b);
    }
  }

  /** The folders a target directory stands for, cleaned up. */
  function FoldersIn(target: string): seq<string> { Kept(Split(Unified(target))) }

  /** An entry with a plain name lands right inside the target folder. */
  lemma JoinedParent(target: string, name: string)
    requires Plain(name) && Normalized(RawTarget(target, name)).Ok?
    ensures Parent(Normalized(RawTarget(target, name)).value) == if FoldersIn(target) == [] then "" else Join(FoldersIn(target))
  {
    SplitPlain(name);
    UnifiedStable(name);
    assert Kept([name]) == [name] by { assert [name][1..] == []; }
    var dirs := FoldersIn(target);
    if target == "" {
      assert dirs == [] by { assert [""][1..] == []; }
      ParentOf("", name);
    } else {
      UnifiedConcat(target + "/", name);
      UnifiedConcat(target, "/");
      assert Unified("/") == "/" by { assert "/"[1..] == "" && Unified("") == ""; }
      SplitConcat(Unified(target), name);
      KeptConcat(Split(Unified(target)), [name]);
      if dirs == [] {
        assert dirs + [name] == [name];
        ParentOf("", name);
      } else {
        JoinConcat(dirs, [name]);
        ParentOf(Join(dirs), name);
      }
    }
  }

  ghost predicate PlainNames(rows: Rows) {
    forall id :: id in rows ==> Plain(rows[id].name)
  }

  /** The targets of one batch share their folder. */
  lemma BatchHasOneTarget(rows: Rows, ids: seq<ArtifactId>, targetDir: string)
    requires ResolvedBatch(rows, ids, targetDir).Ok?
    requires PlainNames(rows)
    ensures OneTarget(ResolvedBatch(rows, ids, targetDir).value)
  {
    var batch := ResolvedBatch(rows, ids, targetDir).value;
    ResolvedBatchIs(rows, ids, targetDir);
    var dirs := FoldersIn(Trim(targetDir));
    forall k | 0 <= k < |batch| ensures Parent(batch[k].target) == if dirs == [] then "" else Join(dirs) {
      assert ids[k] in rows && rows[ids[k]] == batch[k].entry;
      JoinedParent(Trim(targetDir), batch[k].entry.name);
    }
  }

  // ----- One turn -----

  /** A turn keeps rows and disk aligned exactly when it leaves no row below its entry. */
  lemma TurnAlignedExactly(b: Build, sel: Selected, io: Io)
    requires Aligned(b) && sel.target != "" && sel.target != sel.entry.path && BatchTurn(b, sel, io).error.None?
    ensures Aligned(BatchTurn(b, sel, io).build) <==> sel.entry.isDir || !ExistsUnder(b.rows, sel.entry.path)
  {
    var id := RowIdAt(b.rows, sel.entry.path);
    MoveAlignedExactly(b, id, sel.entry.path, sel.target, sel.entry.isDir, io);
  }

  /** The file entries of a batch still stand where they were resolved. */
  ghost predicate FilesStand(rows: Rows, batch: seq<Selected>) {
    forall k :: 0 <= k < |batch| && !batch[k].entry.isDir ==> batch[k].id in rows && rows[batch[k].id] == batch[k].entry
  }

  /** Every move of the batch leads somewhere else. */
  ghost predicate Moves(batch: seq<Selected>) {
    forall k :: 0 <= k < |batch| ==> batch[k].target != "" && MoveRefusal(batch[k].entry, batch[k].target).None?
  }

  lemma TurnKeepsAligned(b: Build, batch: seq<Selected>, io: Io)
    requires batch != [] && Aligned(b) && FilesStand(b.rows, batch) && Moves(batch)
    requires BatchTurn(b, batch[0], io).error.None?
    ensures Aligned(BatchTurn(b, batch[0], io).build)
  {
    var sel := batch[0];
    if !sel.entry.isDir {
      forall i | i in b.rows ensures !Under(b.rows[i].path, sel.entry.path) {
        if Under(b.rows[i].path, sel.entry.path) { NoRowBelowAFile(b, i, sel.id); }
      }
    }
    TurnAlignedExactly(b, sel, io);
  }

  lemma TurnKeepsFiles(b: Build, batch: seq<Selected>, io: Io)
    requires batch != [] && FilesStand(b.rows, batch) && FilesInOrder(batch) && BatchTurn(b, batch[0], io).error.None?
    ensures FilesStand(BatchTurn(b, batch[0], io).build.rows, batch[1..]) && FilesInOrder(batch[1..])
  {
    forall k | 1 <= k < |batch| && !batch[k].entry.isDir
      ensures batch[k].id in b.rows && BatchTurn(b, batch[0], io).build.rows[batch[k].id] == batch[k].entry
    {
      assert Clear(batch[0], batch[k]);
      assert RowAt(b.rows, RowIdAt(b.rows, batch[0].entry.path), batch[0].entry.path);
    }
  }

  // ----- A batch that completes -----

  lemma {:induction false} BatchFromKeepsAligned(start: Rows, b: Build, batch: seq<Selected>, ios: seq<Io>)
    requires |batch| == |ios| && Aligned(b) && FilesStand(b.rows, batch) && FilesInOrder(batch) && Moves(batch)
    requires BatchFrom(start, b, batch, ios).error.None?
    ensures Aligned(BatchFrom(start, b, batch, ios).build)
    decreases |batch|
  {
    if batch != [] {
      TurnKeepsAligned(b, batch, ios[0]);
      TurnKeepsFiles(b, batch, ios[0]);
      BatchFromKeepsAligned(start, BatchTurn(b, batch[0], ios[0]).build, batch[1..], ios[1..]);
    }
  }

  ghost predicate AlignedThroughout(b: Build, batch: seq<Selected>, ios: seq<Io>)
    requires |batch| == |ios|
    decreases |batch|
  {
    Aligned(b) && (batch == [] || AlignedThroughout(BatchTurn(b, batch[0], ios[0]).build, batch[1..], ios[1..]))
  }

  /** Where a turn leaves the row at `path`. */
  function Followed(sel: Selected, path: string): string {
    if path == sel.entry.path then sel.target
    else if sel.entry.isDir && Under(path, sel.entry.path) then sel.target + path[|sel.entry.path|..]
    else path
  }

  /** Where the turns of a batch leave it. */
  function PathAfter(path: string, batch: seq<Selected>): string
    decreases |batch|
  {
    if batch == [] then path else PathAfter(Followed(batch[0], path), batch[1..])
  }

  /** Going by the paths the rows have before the batch, no row is led below the old path of a
      file by the turns before the file's own. */
  ghost predicate NoneLedBelow(rows: Rows, batch: seq<Selected>) {
    forall j, id :: 0 <= j < |batch| && !batch[j].entry.isDir && id in rows ==>
      !Under(PathAfter(rows[id].path, batch[..j]), batch[j].entry.path)
  }

  lemma TurnFollows(b: Build, sel: Selected, io: Io)
    requires UniquePaths(b.rows) && BatchTurn(b, sel, io).error.None?
    ensures var rows := BatchTurn(b, sel, io).build.rows;
      rows.Keys == b.rows.Keys && forall id :: id in b.rows ==> rows[id].path == Followed(sel, b.rows[id].path)
  {
    var mover := RowIdAt(b.rows, sel.entry.path);
    assert RowAt(b.rows, mover, sel.entry.path);
    forall id | id in b.rows && b.rows[id].path == sel.entry.path ensures id == mover {
      assert RowAt(b.rows, id, sel.entry.path);
    }
  }

  lemma LedBelowFirst(rows: Rows, rows': Rows, batch: seq<Selected>)
    requires batch != [] && rows'.Keys == rows.Keys
    requires forall id :: id in rows ==> rows'[id].path == Followed(batch[0], rows[id].path)
    ensures NoneLedBelow(rows, batch) <==>
      (batch[0].entry.isDir || !ExistsUnder(rows, batch[0].entry.path)) && NoneLedBelow(rows', batch[1..])
  {
    var rest := batch[1..];
    forall j, id | 0 < j < |batch| && id in rows
      ensures PathAfter(rows[id].path, batch[..j]) == PathAfter(rows'[id].path, rest[..j - 1])
    {
      assert batch[..j][1..] == rest[..j - 1];
    }
    forall id | id in rows ensures PathAfter(rows[id].path, batch[..0]) == rows[id].path {}
    if NoneLedBelow(rows, batch) {
      forall id | id in rows && !batch[0].entry.isDir ensures !Under(rows[id].path, batch[0].entry.path) {
        assert !Under(PathAfter(rows[id].path, batch[..0]), batch[0].entry.path);
      }
      forall j, id | 0 <= j < |rest| && !rest[j].entry.isDir && id in rows'
        ensures !Under(PathAfter(rows'[id].path, rest[..j]), rest[j].entry.path)
      {
        assert !Under(PathAfter(rows[id].path, batch[..j + 1]), batch[j + 1].entry.path);
      }
    }
    if (batch[0].entry.isDir || !ExistsUnder(rows, batch[0].entry.path)) && NoneLedBelow(rows', rest) {
      forall j, id | 0 <= j < |batch| && !batch[j].entry.isDir && id in rows
        ensures !Under(PathAfter(rows[id].path, batch[..j]), batch[j].entry.path)
      {
        if j > 0 { assert !Under(PathAfter(rows'[id].path, rest[..j - 1]), rest[j - 1].entry.path); }
      }
    }
  }

  /** Whatever was selected, a batch that completes keeps rows and disk aligned after every turn
      exactly when its turns lead no row below the old path of a file that is still to move. */
  lemma {:induction false} AlignedThroughoutExactly(start: Rows, b: Build, batch: seq<Selected>, ios: seq<Io>)
    requires |batch| == |ios| && Aligned(b) && BatchFrom(start, b, batch, ios).error.None?
    requires forall k :: 0 <= k < |batch| ==> batch[k].target != "" && batch[k].target != batch[k].entry.path
    ensures AlignedThroughout(b, batch, ios) <==> NoneLedBelow(b.rows, batch)
    decreases |batch|
  {
    if batch != [] {
      var turn := BatchTurn(b, batch[0], ios[0]);
      TurnAlignedExactly(b, batch[0], ios[0]);
      TurnFollows(b, batch[0], ios[0]);
      LedBelowFirst(b.rows, turn.build.rows, batch);
      if Aligned(turn.build) { AlignedThroughoutExactly(start, turn.build, batch[1..], ios[1..]); }
    }
  }

  /** A selection in which no file is picked twice, or after a folder it lies in; the admin's
      screen can check it before it asks. */
  ghost predicate Selectable(rows: Rows, ids: seq<ArtifactId>) {
    forall i, j :: 0 <= i < j < |ids| && ids[i] in rows && ids[j] in rows && !rows[ids[j]].isDir ==>
      ids[i] != ids[j] && !(rows[ids[i]].isDir && Under(rows[ids[j]].path, rows[ids[i]].path))
  }

  lemma SelectableInOrder(rows: Rows, ids: seq<ArtifactId>, targetDir: string)
    requires UniquePaths(rows) && ResolvedBatch(rows, ids, targetDir).Ok? && Selectable(rows, ids)
    ensures FilesInOrder(ResolvedBatch(rows, ids, targetDir).value)
  {
    var batch := ResolvedBatch(rows, ids, targetDir).value;
    ResolvedBatchIs(rows, ids, targetDir);
    forall i, j | 0 <= i < j < |batch| && !batch[j].entry.isDir ensures Clear(batch[i], batch[j]) {
      assert batch[i].id == ids[i] && batch[j].id == ids[j];
      assert RowAt(rows, ids[i], batch[i].entry.path) && RowAt(rows, ids[j], batch[j].entry.path);
    }
  }

  lemma BatchKeepsAligned(b: Build, ids: seq<ArtifactId>, targetDir: string, ios: seq<Io>)
    requires |ids| == |ios| && Aligned(b) && Selectable(b.rows, ids)
    ensures MoveFiles(b, ids, targetDir, ios).error.None? ==> Aligned(MoveFiles(b, ids, targetDir, ios).build)
  {
    if MoveFiles(b, ids, targetDir, ios).error.None? {
      ResolvedBatchIs(b.rows, ids, targetDir);
      SelectableInOrder(b.rows, ids, targetDir);
      BatchFromKeepsAligned(b.rows, b, ResolvedBatch(b.rows, ids, targetDir).value, ios);
    }
  }

  // ----- A batch that fails -----

  /** A failing turn leaves the disk as it was, but for folders on the way to the target. */
  lemma FailingTurnDisk(b: Build, sel: Selected, io: Io)
    requires BatchTurn(b, sel, io).error.Some?
    ensures BatchTurn(b, sel, io).build.disk == b.disk
      || BatchTurn(b, sel, io).build.disk == MadeDirs(b.disk, Parent(sel.target), io.made)
  {
  }

  ghost predicate Proper(sel: Selected) {
    sel.entry.path != "" && sel.target != "" && MoveRefusal(sel.entry, sel.target).None?
  }

  lemma OnTheWayIsAbove(source: string, target: string)
    requires source in Chain(Parent(target))
    ensures Under(target, source)
  {
    ChainIs(Parent(target), source);
    ParentIsAbove(target);
    if source != Parent(target) { UnderTrans(target, Parent(target), source); }
  }

  /** Whatever the rows, a completed turn leaves nothing where its entry was; and only a file
      may have its path on the way to the target. */
  lemma CompletedTurnDisk(b: Build, sel: Selected, io: Io)
    requires DiskOk(b.disk) && Proper(sel) && BatchTurn(b, sel, io).error.None?
    ensures var disk := BatchTurn(b, sel, io).build.disk;
      DiskOk(disk) && sel.entry.path !in disk && (sel.entry.path in Chain(Parent(sel.target)) ==> !sel.entry.isDir)
  {
    var source, target := sel.entry.path, sel.target;
    if source in Chain(Parent(target)) { OnTheWayIsAbove(source, target); }
    if source in b.disk {
      var made := MadeDirs(b.disk, Parent(target), io.made);
      MadeDirsOk(b.disk, Parent(target), io.made);
      assert GoodRename(made, source, target);
      RenamedDiskOk(made, source, target);
      SourceIsVacated(made, source, target, source);
    }
  }

  /** So the row that rolls back to that path is without its node, even if the next turn makes
      its folders and fails. */
  lemma FailedNextMisaligned(start: Rows, b: Build, sel: Selected, io: Io, next: Selected, nextIo: Io)
    requires DiskOk(b.disk) && Proper(sel) && BatchTurn(b, sel, io).error.None?
    requires sel.id in start && start[sel.id] == sel.entry && Parent(next.target) == Parent(sel.target)
    requires BatchTurn(BatchTurn(b, sel, io).build, next, nextIo).error.Some?
    ensures !Aligned(Build(start, BatchTurn(BatchTurn(b, sel, io).build, next, nextIo).build.disk))
  {
    var turn := BatchTurn(b, sel, io).build;
    CompletedTurnDisk(b, sel, io);
    FailingTurnDisk(turn, next, nextIo);
    MadeDirsOk(turn.disk, Parent(next.target), nextIo.made);
    assert !RowOk(Build(start, BatchTurn(turn, next, nextIo).build.disk), sel.id);
  }

  /** A batch under way, resolved from `start`. */
  ghost predicate Running(start: Rows, disk: Disk, batch: seq<Selected>) {
    && DiskOk(disk) && OneTarget(batch)
    && forall k :: 0 <= k < |batch| ==> Proper(batch[k]) && batch[k].id in start && start[batch[k].id] == batch[k].entry
  }

  lemma {:induction false} FailedFromMisaligned(start: Rows, b: Build, batch: seq<Selected>, ios: seq<Io>)
    requires |batch| == |ios| && Running(start, b.disk, batch)
    requires BatchFrom(start, b, batch, ios).error.Some? && BatchTurn(b, batch[0], ios[0]).error.None?
    ensures !Aligned(BatchFrom(start, b, batch, ios).build)
    decreases |batch|
  {
    var turn := BatchTurn(b, batch[0], ios[0]);
    assert BatchFrom(start, b, batch, ios) == BatchFrom(start, turn.build, batch[1..], ios[1..]);
    if BatchTurn(turn.build, batch[1], ios[1]).error.None? {
      CompletedTurnDisk(b, batch[0], ios[0]);
      FailedFromMisaligned(start, turn.build, batch[1..], ios[1..]);
    } else {
      FailedNextMisaligned(start, b, batch[0], ios[0], batch[1], ios[1]);
    }
  }

  /** Exactly when a batch that fails, of whatever selection, leaves rows and disk aligned: when
      its first turn is the one that fails. After that the rows roll back and the renames do not. */
  lemma FailedBatchAlignedExactly(b: Build, ids: seq<ArtifactId>, targetDir: string, ios: seq<Io>)
    requires |ids| == |ios| && Aligned(b) && PlainNames(b.rows)
    ensures MoveFiles(b, ids, targetDir, ios).error.Some? ==>
      (Aligned(MoveFiles(b, ids, targetDir, ios).build) <==>
       var batch := ResolvedBatch(b.rows, ids, targetDir);
       ids == [] || batch.Err? || BatchTurn(b, batch.value[0], ios[0]).error.Some?)
  {
    if MoveFiles(b, ids, targetDir, ios).error.Some? && ids != [] && ResolvedBatch(b.rows, ids, targetDir).Ok? {
      var batch := ResolvedBatch(b.rows, ids, targetDir).value;
      ResolvedBatchIs(b.rows, ids, targetDir);
      BatchHasOneTarget(b.rows, ids, targetDir);
      if BatchTurn(b, batch[0], ios[0]).error.None? {
        forall k | 0 <= k < |batch| ensures Proper(batch[k]) { assert RowOk(b, batch[k].id); }
        FailedFromMisaligned(b.rows, b, batch, ios);
      } else {
        FailingTurnDisk(b, batch[0], ios[0]);
        MadeDirsOk(b.disk, Parent(batch[0].target), ios[0].made);
        GrownDiskAligned(b, b.disk);
        GrownDiskAligned(b, MadeDirs(b.disk, Parent(batch[0].target), ios[0].made));
      }
    }
  }
}
