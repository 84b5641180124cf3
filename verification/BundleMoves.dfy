/** Renames and moves: when they keep rows and disk aligned, and that a move undone restores
    the rows. */
module BundleMoves {
  import opened Wrappers
  import opened Paths
  import opened BundleTree
  import opened BundleAlignment

  // ----- The disk half -----

  /** A rename the system accepted, of something other than the root, to a clear place. */
  ghost predicate GoodRename(disk: Disk, source: string, target: string) {
    && DiskOk(disk) && Renamable(disk, source, target) && source != "" && target != "" && source != target
    && forall q :: q in Chain(Parent(target)) ==> q in disk && disk[q].Dir?
  }

  lemma NothingUnderTarget(disk: Disk, source: string, target: string, q: string)
    requires GoodRename(disk, source, target) && q in disk
    ensures !Under(q, target)
  {
    assert Under(q, target) ==> target in disk;
  }

  lemma OriginBelow(q: string, source: string, target: string)
    requires Below(q, target)
    ensures Below(Origin(q, source, target), source)
    ensures q == target + Origin(q, source, target)[|source|..]
  {
    var origin := Origin(q, source, target);
    assert origin[..|source|] == source && origin[|source|..] == q[|target|..];
    if q != target { assert origin[|source|] == q[|target|]; }
  }

  lemma LandingBelow(q: string, source: string, target: string)
    requires Below(q, source)
    ensures Below(target + q[|source|..], target) && Origin(target + q[|source|..], source, target) == q
  {
    OriginBelow(q, target, source);
    var landing := target + q[|source|..];
    assert landing[|target|..] == q[|source|..];
  }

  /** What stands at `q` after the rename. */
  lemma RenamedNode(disk: Disk, source: string, target: string, q: string)
    requires GoodRename(disk, source, target)
    ensures var disk' := RenamedDisk(disk, source, target);
      if Below(q, target) then
        (q in disk' <==> Origin(q, source, target) in disk)
        && (q in disk' ==> disk'[q] == disk[Origin(q, source, target)])
      else (q in disk' <==> q in disk && !Below(q, source)) && (q in disk' ==> disk'[q] == disk[q])
  {
    if Below(q, target) {
      OriginBelow(q, source, target);
      if q in disk { NothingUnderTarget(disk, source, target, q); }
      var origin := Origin(q, source, target);
      if origin in disk {
        assert q in (set x | x in disk && Below(x, source) :: target + x[|source|..]);
      }
    } else {
      forall x | x in disk && Below(x, source) ensures q != target + x[|source|..] {
        LandingBelow(x, source, target);
      }
    }
  }

  lemma RenamedDiskOk(disk: Disk, source: string, target: string)
    requires GoodRename(disk, source, target)
    ensures DiskOk(RenamedDisk(disk, source, target))
  {
    var disk' := RenamedDisk(disk, source, target);
    forall p, q | p in disk' && Under(p, q) && q != "" ensures q in disk' && disk'[q].Dir? {
      RenamedNode(disk, source, target, p);
      RenamedNode(disk, source, target, q);
      if Below(p, target) && Below(q, target) {
        var p0, q0 := Origin(p, source, target), Origin(q, source, target);
        assert p0 == q0 + p[|q|..] && p0[..|q0|] == q0 by {
          assert p == q + p[|q|..];
        }
        assert Under(p0, q0);
      } else if Below(p, target) {
        UnderTotal(p, q, target);
        ParentChain(target, q);
        if Below(q, source) { UnderTrans(target, q, source); }
      } else {
        if Below(q, target) { UnderTrans(p, q, target); }
        if Below(q, source) { UnderTrans(p, q, source); }
      }
    }
  }

  // ----- The rows half -----

  /** The rows `move_subtree` rewrites. */
  predicate InMove(rows: Rows, i: ArtifactId, id: ArtifactId, source: string, isDir: bool)
    requires i in rows
  {
    i == id || (isDir && Under(rows[i].path, source))
  }

  function InMoveIds(rows: Rows, id: ArtifactId, source: string, isDir: bool): set<ArtifactId> {
    set i | i in rows && InMove(rows, i, id, source, isDir)
  }

  /** `rows` after the rows in `done` have been rewritten. */
  function PartlyMoved(rows: Rows, done: set<ArtifactId>, source: string, target: string): Rows {
    map i | i in rows ::
      if i in done && |source| <= |rows[i].path| then Renamed(rows[i], target + rows[i].path[|source|..]) else rows[i]
  }

  /** A legal move, seen from the rows. */
  ghost predicate LegalMove(rows: Rows, id: ArtifactId, source: string, target: string, isDir: bool) {
    && UniquePaths(rows) && RowAt(rows, id, source)
    && DestinationFree(rows, target, isDir) && !(isDir && Under(target, source))
  }

  /** After each single row update, in any order, no two rows share a path. */
  lemma PathsUniqueMidway(rows: Rows, id: ArtifactId, source: string, target: string, isDir: bool, done: set<ArtifactId>)
    requires LegalMove(rows, id, source, target, isDir)
    requires forall i :: i in done ==> i in rows && InMove(rows, i, id, source, isDir)
    ensures UniquePaths(PartlyMoved(rows, done, source, target))
  {
    var rows' := PartlyMoved(rows, done, source, target);
    forall i, j, path | RowAt(rows', i, path) && RowAt(rows', j, path) ensures i == j {
      if i in done { LandingBelow(rows[i].path, source, target); }
      if j in done { LandingBelow(rows[j].path, source, target); }
      assert (i in done || RowAt(rows, i, path)) && (j in done || RowAt(rows, j, path));
      if i in done <==> j in done {
        assert RowAt(rows, i, rows[i].path) && RowAt(rows, j, rows[i].path);
      }
    }
  }

  lemma MovedIsPartlyMoved(rows: Rows, id: ArtifactId, source: string, target: string, isDir: bool)
    requires RowAt(rows, id, source)
    ensures RowsMoved(rows, id, source, target, isDir)
      == PartlyMoved(rows, InMoveIds(rows, id, source, isDir), source, target)
  {
    assert target + source[|source|..] == target;
  }

  /** A move rewrites the path, name and category of the entry and of what lies below it, and
      nothing else: ids, sizes, hashes, kinds and `download_once` stay, other rows stay, and
      no two rows come to share a path. */
  lemma MoveRewritesTheSubtree(rows: Rows, id: ArtifactId, source: string, target: string, isDir: bool)
    requires LegalMove(rows, id, source, target, isDir)
    ensures var rows' := RowsMoved(rows, id, source, target, isDir);
      && UniquePaths(rows') && rows'.Keys == rows.Keys
      && (forall i :: i in rows ==>
            if InMove(rows, i, id, source, isDir)
            then source + rows'[i].path[|target|..] == rows[i].path && Below(rows'[i].path, target)
                 && rows'[i] == Renamed(rows[i], rows'[i].path)
            else rows'[i] == rows[i])
  {
    MovedIsPartlyMoved(rows, id, source, target, isDir);
    PathsUniqueMidway(rows, id, source, target, isDir, InMoveIds(rows, id, source, isDir));
    forall i | i in rows && InMove(rows, i, id, source, isDir)
      ensures Below(target + rows[i].path[|source|..], target)
        && source + (target + rows[i].path[|source|..])[|target|..] == rows[i].path
    {
      LandingBelow(rows[i].path, source, target);
    }
  }

  ghost predicate Named(rows: Rows) {
    forall i :: i in rows ==> rows[i].name == Name(rows[i].path) && rows[i].category == Category(rows[i].path)
  }

  /** Moving an entry back is legal and restores every row. */
  lemma MoveBackRestores(rows: Rows, id: ArtifactId, source: string, target: string)
    requires id in rows && LegalMove(rows, id, source, target, rows[id].isDir) && Named(rows) && source != target
    ensures var isDir, moved := rows[id].isDir, RowsMoved(rows, id, source, target, rows[id].isDir);
      && LegalMove(moved, id, target, source, isDir)
      && MoveRefusal(moved[id], source).None?
      && RowsMoved(moved, id, target, source, isDir) == rows
  {
    var isDir := rows[id].isDir;
    var moved := RowsMoved(rows, id, source, target, isDir);
    MoveRewritesTheSubtree(rows, id, source, target, isDir);
    assert moved[id].path == target by { assert target + source[|source|..] == target; }
    assert !(isDir && Under(source, target)) by { assert isDir && Under(source, target) ==> ExistsUnder(rows, target); }
    SourceIsFreed(rows, id, source, target, isDir);
    forall i | i in rows ensures RowsMoved(moved, id, target, source, isDir)[i] == rows[i] {
      if isDir && Under(rows[i].path, source) { LandingBelow(rows[i].path, source, target); UnderKept(rows[i].path, source, target); }
    }
  }

  lemma UnderKept(path: string, source: string, target: string)
    requires Under(path, source)
    ensures Under(target + path[|source|..], target)
  {
    var landing := target + path[|source|..];
    assert landing[|target|] == path[|source|] && landing[..|target|] == target;
  }

  lemma SourceIsFreed(rows: Rows, id: ArtifactId, source: string, target: string, isDir: bool)
    requires LegalMove(rows, id, source, target, isDir) && source != target && !(isDir && Under(source, target))
    ensures DestinationFree(RowsMoved(rows, id, source, target, isDir), source, isDir)
  {
    var moved := RowsMoved(rows, id, source, target, isDir);
    MoveRewritesTheSubtree(rows, id, source, target, isDir);
    forall i | i in moved ensures moved[i].path != source && !(isDir && Under(moved[i].path, source)) {
      if InMove(rows, i, id, source, isDir) {
        if isDir {
          if Below(moved[i].path, source) { UnderTotal(moved[i].path, source, target); }
        } else {
          assert target + source[|source|..] == target;
        }
      } else if rows[i].path == source {
        assert RowAt(rows, i, source) && RowAt(rows, id, source);
      }
    }
  }

  // ----- Alignment -----

  /** What one `move_subtree` needs of its caller to be legal. */
  ghost predicate LegalOn(b: Build, id: ArtifactId, source: string, target: string, isDir: bool) {
    && Aligned(b) && RowAt(b.rows, id, source) && source != target && target != ""
    && DestinationFree(b.rows, target, isDir)
  }

  lemma RenamedAligned(b: Build, id: ArtifactId, source: string, target: string, isDir: bool)
    requires LegalOn(b, id, source, target, isDir) && GoodRename(b.disk, source, target)
    requires isDir || !ExistsUnder(b.rows, source)
    ensures Aligned(Build(RowsMoved(b.rows, id, source, target, isDir), RenamedDisk(b.disk, source, target)))
  {
    var b' := Build(RowsMoved(b.rows, id, source, target, isDir), RenamedDisk(b.disk, source, target));
    RenamedDiskOk(b.disk, source, target);
    MoveRewritesTheSubtree(b.rows, id, source, target, isDir);
    forall i | i in b'.rows ensures RowOk(b', i) {
      assert RowOk(b, i);
      RenamedNode(b.disk, source, target, b'.rows[i].path);
      if !InMove(b.rows, i, id, source, isDir) {
        assert b.rows[i].path != source by {
          if b.rows[i].path == source { assert RowAt(b.rows, i, source) && RowAt(b.rows, id, source); }
        }
        NothingUnderTarget(b.disk, source, target, b.rows[i].path);
      }
    }
  }

  /** The row left behind when a folder is moved as if it were a file. */
  lemma RenamedMisaligned(b: Build, id: ArtifactId, source: string, target: string, i: ArtifactId)
    requires LegalOn(b, id, source, target, false) && GoodRename(b.disk, source, target)
    requires i in b.rows && Under(b.rows[i].path, source)
    ensures !Aligned(Build(RowsMoved(b.rows, id, source, target, false), RenamedDisk(b.disk, source, target)))
  {
    var b' := Build(RowsMoved(b.rows, id, source, target, false), RenamedDisk(b.disk, source, target));
    var path := b.rows[i].path;
    assert b'.rows[i].path == path && path !in b'.disk by {
      RenamedNode(b.disk, source, target, path);
      assert RowOk(b, i);
      if Below(path, target) {
        UnderTotal(path, source, target);
        NothingUnderTarget(b.disk, source, target, source);
      }
    }
    assert !RowOk(b', i);
  }

  lemma MoveMeets(b: Build, id: ArtifactId, source: string, target: string, isDir: bool, io: Io)
    requires LegalOn(b, id, source, target, isDir) && MoveSubtree(b, id, source, target, isDir, io).error.None?
    ensures var made := MadeDirs(b.disk, Parent(target), io.made);
      && GoodRename(made, source, target) && LegalOn(Build(b.rows, made), id, source, target, isDir)
      && MoveSubtree(b, id, source, target, isDir, io).build
         == Build(RowsMoved(b.rows, id, source, target, isDir), RenamedDisk(made, source, target))
  {
    assert RowOk(b, id);
    MadeDirsOk(b.disk, Parent(target), io.made);
    GrownDiskAligned(b, MadeDirs(b.disk, Parent(target), io.made));
  }

  /** A move that fails, wherever it does, leaves rows and disk aligned. */
  lemma FailedMoveAligned(b: Build, id: ArtifactId, source: string, target: string, isDir: bool, io: Io)
    requires Aligned(b) && MoveSubtree(b, id, source, target, isDir, io).error.Some?
    ensures MoveSubtree(b, id, source, target, isDir, io).build.rows == b.rows
    ensures Aligned(MoveSubtree(b, id, source, target, isDir, io).build)
  {
    MadeDirsOk(b.disk, Parent(target), io.made);
    GrownDiskAligned(b, MadeDirs(b.disk, Parent(target), io.made));
  }

  /** Exactly when a completed `move_subtree` keeps rows and disk aligned: it must take along
      every row below the entry, so it fails for an entry moved as a file that has any. */
  lemma MoveAlignedExactly(b: Build, id: ArtifactId, source: string, target: string, isDir: bool, io: Io)
    requires LegalOn(b, id, source, target, isDir) && MoveSubtree(b, id, source, target, isDir, io).error.None?
    ensures Aligned(MoveSubtree(b, id, source, target, isDir, io).build) <==> isDir || !ExistsUnder(b.rows, source)
  {
    MoveMeets(b, id, source, target, isDir, io);
    var made := Build(b.rows, MadeDirs(b.disk, Parent(target), io.made));
    if isDir || !ExistsUnder(b.rows, source) {
      RenamedAligned(made, id, source, target, isDir);
    } else {
      var i :| i in b.rows && Under(b.rows[i].path, source);
      RenamedMisaligned(made, id, source, target, i);
    }
  }

  /** A move that takes the entry for what its row says. */
  lemma MoveAligned(b: Build, id: ArtifactId, source: string, target: string, io: Io)
    requires id in b.rows && LegalOn(b, id, source, target, b.rows[id].isDir)
    requires MoveSubtree(b, id, source, target, b.rows[id].isDir, io).error.None?
    ensures Aligned(MoveSubtree(b, id, source, target, b.rows[id].isDir, io).build)
  {
    var isDir := b.rows[id].isDir;
    assert isDir || !ExistsUnder(b.rows, source) by {
      forall i | i in b.rows && Under(b.rows[i].path, source) ensures isDir { NoRowBelowAFile(b, i, id); }
    }
    MoveAlignedExactly(b, id, source, target, isDir, io);
  }

  /** Rename and single move keep rows and disk aligned, whatever the filesystem does. */
  lemma MoveKeepsAligned(b: Build, id: ArtifactId, target: string, io: Io)
    requires Aligned(b) && target != ""
    ensures Aligned(MoveEntry(b, id, target, io).build)
  {
    if id in b.rows {
      var entry := b.rows[id];
      if MoveRefusal(entry, target).None? && target !in b.disk && DestinationFree(b.rows, target, entry.isDir) {
        if MoveSubtree(b, id, entry.path, target, entry.isDir, io).error.Some? {
          FailedMoveAligned(b, id, entry.path, target, entry.isDir, io);
        } else {
          MoveAligned(b, id, entry.path, target, io);
        }
      }
    }
  }

  // ----- Moving back -----

  lemma ParentsStay(disk: Disk, source: string, target: string, q: string)
    requires GoodRename(disk, source, target) && source in disk && q in Chain(Parent(source))
    ensures q in RenamedDisk(disk, source, target) && RenamedDisk(disk, source, target)[q].Dir?
  {
    ChainIs(Parent(source), q);
    ParentIsAbove(source);
    if q != Parent(source) { UnderTrans(source, Parent(source), q); }
    assert Under(source, q);
    RenamedNode(disk, source, target, q);
    NothingUnderTarget(disk, source, target, source);
    if Below(q, target) { UnderTrans(source, q, target); }
  }

  lemma SourceIsVacated(disk: Disk, source: string, target: string, q: string)
    requires GoodRename(disk, source, target) && Below(q, source)
    ensures q !in RenamedDisk(disk, source, target)
  {
    RenamedNode(disk, source, target, q);
    if Below(q, target) {
      UnderTotal(q, source, target);
      NothingUnderTarget(disk, source, target, source);
    }
  }

  lemma BackIsGood(disk: Disk, source: string, target: string)
    requires GoodRename(disk, source, target)
    ensures GoodRename(RenamedDisk(disk, source, target), target, source)
  {
    var moved := RenamedDisk(disk, source, target);
    RenamedDiskOk(disk, source, target);
    NothingUnderTarget(disk, source, target, source);
    assert target in moved by {
      RenamedNode(disk, source, target, target);
      assert source + target[|target|..] == source;
    }
    forall q | q in Chain(Parent(source)) ensures q in moved && moved[q].Dir? {
      ParentsStay(disk, source, target, q);
    }
    forall q | q in moved ensures !Below(q, source) {
      if Below(q, source) { SourceIsVacated(disk, source, target, q); }
    }
  }

  /** The rename that undoes a rename is possible and gives the tree back. */
  lemma RenameBackRestores(disk: Disk, source: string, target: string)
    requires GoodRename(disk, source, target) && target !in disk
    ensures var moved := RenamedDisk(disk, source, target);
      GoodRename(moved, target, source) && RenamedDisk(moved, target, source) == disk
  {
    var moved := RenamedDisk(disk, source, target);
    BackIsGood(disk, source, target);
    forall q ensures q in RenamedDisk(moved, target, source) <==> q in disk {
      BackAt(disk, source, target, q);
    }
    forall q | q in disk ensures RenamedDisk(moved, target, source)[q] == disk[q] {
      BackAt(disk, source, target, q);
    }
  }

  lemma BackAt(disk: Disk, source: string, target: string, q: string)
    requires GoodRename(disk, source, target) && target !in disk
    requires GoodRename(RenamedDisk(disk, source, target), target, source)
    ensures var back := RenamedDisk(RenamedDisk(disk, source, target), target, source);
      (q in back <==> q in disk) && (q in disk ==> back[q] == disk[q])
  {
    var moved := RenamedDisk(disk, source, target);
    RenamedNode(moved, target, source, q);
    if Below(q, source) {
      LandingBelow(q, source, target);
      RenamedNode(disk, source, target, Origin(q, target, source));
    } else {
      RenamedNode(disk, source, target, q);
      if q in disk { NothingUnderTarget(disk, source, target, q); }
    }
  }

  /** Moving an entry to a free place on the disk, when the system allows it. */
  lemma MoveEntrySucceeds(b: Build, id: ArtifactId, source: string, target: string, io: Io)
    requires RowAt(b.rows, id, source) && MoveRefusal(b.rows[id], target).None?
    requires DestinationFree(b.rows, target, b.rows[id].isDir) && target !in b.disk
    requires GoodRename(b.disk, source, target) && io.renamed && |Parent(target)| <= io.made
    ensures var isDir := b.rows[id].isDir;
      MoveEntry(b, id, target, io)
        == Outcome(Build(RowsMoved(b.rows, id, source, target, isDir), RenamedDisk(b.disk, source, target)), None)
  {
    assert MadeDirs(b.disk, Parent(target), io.made) == b.disk;
  }

  /** Whatever the system lets succeed, a rename or single move can be undone by moving the
      entry back: that is never refused, and it restores every row and the whole tree but
      for the folders made on the way. */
  lemma MoveIsReversible(b: Build, id: ArtifactId, target: string, io: Io, back: Io)
    requires Aligned(b) && id in b.rows && target != ""
    requires MoveEntry(b, id, target, io).error.None?
    requires back.renamed && |Parent(b.rows[id].path)| <= back.made
    ensures var undone := MoveEntry(MoveEntry(b, id, target, io).build, id, b.rows[id].path, back);
      undone.error.None? && undone.build == Build(b.rows, MadeDirs(b.disk, Parent(target), io.made))
  {
    var source, isDir := b.rows[id].path, b.rows[id].isDir;
    var made := MadeDirs(b.disk, Parent(target), io.made);
    MoveMeets(b, id, source, target, isDir, io);
    TargetNotMade(b.disk, target, io.made);
    assert Named(b.rows) by {
      forall i | i in b.rows
        ensures b.rows[i].name == Name(b.rows[i].path) && b.rows[i].category == Category(b.rows[i].path)
      {
        assert RowOk(b, i);
      }
    }
    ReversibleFrom(b.rows, made, id, source, target, back);
  }

  lemma ReversibleFrom(rows: Rows, disk: Disk, id: ArtifactId, source: string, target: string, back: Io)
    requires id in rows && LegalMove(rows, id, source, target, rows[id].isDir) && Named(rows) && source != target
    requires GoodRename(disk, source, target) && target !in disk
    requires back.renamed && |Parent(source)| <= back.made
    ensures MoveEntry(Build(RowsMoved(rows, id, source, target, rows[id].isDir), RenamedDisk(disk, source, target)),
      id, source, back) == Outcome(Build(rows, disk), None)
  {
    var moved := Build(RowsMoved(rows, id, source, target, rows[id].isDir), RenamedDisk(disk, source, target));
    MoveBackRestores(rows, id, source, target);
    RenameBackRestores(disk, source, target);
    SourceIsVacated(disk, source, target, source);
    MoveEntrySucceeds(moved, id, target, source, back);
  }

  lemma TargetNotMade(disk: Disk, target: string, made: nat)
    requires target != "" && target !in disk
    ensures target !in MadeDirs(disk, Parent(target), made)
  {
    NotInOwnParent(target);
  }
}
