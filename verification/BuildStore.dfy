/** The bundle admin handlers as they run: rows are rewritten one statement at a time, in a
    transaction that a failure rolls back, and the disk is touched call by call. */
module BuildStores {
  import opened Wrappers
  import opened LikePatterns
  import opened Paths
  import opened BundleTree
  import opened BundleAlignment
  import opened BundleMoves
  import opened BundleBatches
  import opened BundleContents
  import opened BundleIngest
  import opened BundleExtracted
  import opened BundleScan
  import opened BundleUpsert

  class BuildStore {
    var rows: Rows
    var disk: Disk

    ghost predicate Valid()
      reads this
    {
      UniquePaths(rows)
    }

    ghost function Contents(): (b: Build)
      reads this
    {
      Build(rows, disk)
    }

    constructor (rows: Rows, disk: Disk)
      requires UniquePaths(rows)
      ensures Valid() && Contents() == Build(rows, disk)
    {
      this.rows, this.disk := rows, disk;
    }

    /** The id of the row at `path`, if there is one. */
    method Find(path: string) returns (found: Option<ArtifactId>)
      requires Valid()
      ensures found.Some? ==> RowAt(rows, found.value, path)
      ensures found.None? ==> !ExistsAt(rows, path)
    {
      var ids := rows.Keys;
      while ids != {}
        invariant ids <= rows.Keys
        invariant forall i :: i in rows && rows[i].path == path ==> i in ids
        decreases |ids|
      {
        NonemptyHasMember(ids);
        var id :| id in ids;
        if rows[id].path == path { return Some(id); }
        ids := ids - {id};
      }
      return None;
    }

    /** The rows that `LIKE escape(dir) || '/%'` selects. */
    method SelectBelow(dir: string) returns (ids: set<ArtifactId>)
      ensures ids == IdsUnder(rows, dir)
    {
      forall i | i in rows ensures Like(Escaped(dir + "/") + "%", rows[i].path) <==> Under(rows[i].path, dir) {
        SubtreeSelectionIsExact(rows[i].path, dir);
      }
      ids := set i | i in rows && Like(Escaped(dir + "/") + "%", rows[i].path);
    }

    method UpsertArtifact(row: Artifact, newId: ArtifactId)
      requires Valid() && newId !in rows
      modifies this`rows
      ensures Valid() && rows == Upserted(old(rows), row, newId)
    {
      var found := Find(row.path);
      match found
      case Some(id) =>
        UpsertWritesOneRow(rows, row, newId, id);
        rows := rows[id := row.(downloadOnce := rows[id].downloadOnce)];
        SamePathsUnique(old(rows), rows);
      case None =>
        rows := rows[newId := row];
        NewPathUnique(old(rows), rows, newId, row);
    }

    method Upload(path: string, size: int, sha256: string, newId: ArtifactId, io: Io) returns (error: Option<Error>)
      requires Valid() && newId !in rows
      modifies this
      ensures Valid() && Outcome(Contents(), error) == UploadFile(old(Contents()), path, size, sha256, newId, io)
    {
      var complete := MadeAll(disk, Parent(path), io.made);
      disk := MadeDirs(disk, Parent(path), io.made);
      if !complete { return Some(Error.Io); }
      assert path in disk && disk[path].Dir? ==> path in old(disk) && old(disk)[path].Dir? by { NotItsOwnParent(path); }
      if !io.renamed || (path in disk && disk[path].Dir?) { return Some(Error.Io); }
      disk := disk[path := File(size, sha256)];
      if !io.hashed { return Some(Error.Io); }
      UpsertArtifact(Fresh(path, size, Some(sha256), false), newId);
      return None;
    }

    method CreateFolder(path: string, newIds: seq<ArtifactId>, io: Io) returns (error: Option<Error>)
      requires Valid() && |newIds| == |FoldersOf(path)| && NewIds(rows, newIds)
      modifies this
      ensures Valid() && Outcome(Contents(), error) == BundleTree.CreateFolder(old(Contents()), path, newIds, io)
    {
      if IsFile(disk, path) { return Some(BadRequest); }
      var complete := MadeAll(disk, path, io.made);
      disk := MadeDirs(disk, path, io.made);
      if !complete { return Some(Error.Io); }
      UpsertFolders(path, newIds);
      return None;
    }

    method UpsertFolders(path: string, newIds: seq<ArtifactId>)
      requires Valid() && |newIds| == |FoldersOf(path)| && NewIds(rows, newIds)
      modifies this`rows
      ensures Valid() && rows == FoldersUpserted(old(rows), FoldersOf(path), newIds)
    {
      var segments := Split(path);
      ghost var folders := FoldersOf(path);
      for depth := 0 to |segments|
        invariant Valid() && rows == FoldersUpserted(old(rows), folders[..depth], newIds[..depth])
        invariant forall k :: depth <= k < |newIds| ==> newIds[k] !in rows
      {
        assert folders[..depth + 1][..depth] == folders[..depth] && newIds[..depth + 1][..depth] == newIds[..depth];
        UpsertArtifact(FolderRow(Join(segments[..depth + 1])), newIds[depth]);
      }
      assert folders[..|segments|] == folders && newIds[..|segments|] == newIds;
    }

    /** `delete_entry_rows`, inside the caller's transaction. */
    method DeleteEntryRows(doomed: Doomed)
      requires Valid()
      modifies this`rows
      ensures Valid() && rows == EntryRowsDeleted(old(rows), doomed)
    {
      if doomed.entry.isDir {
        var below := SelectBelow(doomed.entry.path);
        rows := rows - below;
      }
      rows := rows - {doomed.id};
      assert Valid() by { FewerPathsUnique(old(rows), rows); }
    }

    method DeleteFile(id: ArtifactId, gone: set<string>) returns (error: Option<Error>)
      requires Valid()
      modifies this
      ensures Valid() && Outcome(Contents(), error) == DeleteEntry(old(Contents()), id, gone)
    {
      if id !in rows { return Some(NotFound); }
      DeleteEntryRows(Doomed(id, rows[id]));
      disk := disk - gone;
      return None;
    }

    method Rehash(id: ArtifactId) returns (error: Option<Error>)
      requires Valid()
      modifies this`rows
      ensures Valid() && Outcome(Contents(), error) == RehashFile(old(Contents()), id)
    {
      if id !in rows { return Some(NotFound); }
      var entry := rows[id];
      if entry.isDir || entry.path !in disk { return Some(BadRequest); }
      if disk[entry.path].Dir? { return Some(Error.Io); }
      rows := rows[id := entry.(sha256 := Some(disk[entry.path].sha256))];
      SamePathsUnique(old(rows), rows);
      return None;
    }

    /** `None` when an id belongs to another build. */
    method ResolveDoomed(ids: seq<ArtifactId>, foreign: set<ArtifactId>) returns (entries: Option<seq<Doomed>>)
      ensures entries == if exists k :: 0 <= k < |ids| && ids[k] in foreign then None else Some(Found(rows, ids))
    {
      var found: seq<Doomed> := [];
      for k := 0 to |ids|
        invariant found + Found(rows, ids[k..]) == Found(rows, ids)
        invariant forall j :: 0 <= j < k ==> ids[j] !in foreign
      {
        assert ids[k..][0] == ids[k] && ids[k..][1..] == ids[k + 1..];
        if ids[k] in foreign { return None; }
        if ids[k] in rows { found := found + [Doomed(ids[k], rows[ids[k]])]; }
      }
      assert ids[|ids|..] == [] && found == Found(rows, ids);
      return Some(found);
    }

    method BulkDelete(ids: seq<ArtifactId>, foreign: set<ArtifactId>, gone: seq<set<string>>)
      returns (error: Option<Error>, deleted: nat)
      requires Valid() && |gone| == |Found(rows, ids)| && foreign !! rows.Keys
      modifies this
      ensures Valid() && Outcome(Contents(), error) ==
        if exists k :: 0 <= k < |ids| && ids[k] in foreign then Outcome(old(Contents()), Some(NotFound))
        else BundleTree.BulkDelete(old(Contents()), ids, gone)
      ensures error.None? ==> deleted == |Found(old(rows), ids)|
    {
      if ids == [] { return Some(BadRequest), 0; }
      var resolved := ResolveDoomed(ids, foreign);
      if resolved.None? { return Some(NotFound), 0; }
      var entries := resolved.value;
      for k := 0 to |entries|
        modifies this`rows
        invariant Valid() && AllRowsDeleted(rows, entries[k..]) == AllRowsDeleted(old(rows), entries)
      {
        assert entries[k..][0] == entries[k] && entries[k..][1..] == entries[k + 1..];
        DeleteEntryRows(entries[k]);
      }
      for k := 0 to |entries|
        modifies this`disk
        invariant AllUnlinked(disk, gone[k..]) == AllUnlinked(old(disk), gone)
      {
        assert gone[k..][0] == gone[k] && gone[k..][1..] == gone[k + 1..];
        disk := disk - gone[k];
      }
      return None, |entries|;
    }

    /** `ingest_archive`: wipe, extract, scan, upsert. `left` is what a failed wipe leaves,
        `closed` the folders the walk cannot list, `broken` the paths it cannot read. */
    method IngestArchive(archive: Archive, ios: seq<WriteIo>, wiped: bool, left: set<string>,
                         closed: set<string>, broken: set<string>, firstId: ArtifactId)
      returns (error: Option<Error>)
      requires Valid() && ForEach(archive, ios) && forall id :: id in rows ==> id < firstId
      requires MayRemain(disk, left)
      modifies this
      ensures Valid() && disk == LeftByIngest(old(disk), archive, ios, wiped, left)
      ensures error ==
        if !wiped then Some(Error.Io) else if !Unpackable(archive, ios) then Unpacked(map[], archive, ios).error
        else if VisibleIn(disk, closed, "") !! broken then None else Some(Error.Io)
      ensures error.Some? ==> rows == old(rows)
      ensures error.Some? && Aligned(old(Contents())) ==>
        (Aligned(Contents()) <==> AllSurvive(old(rows), archive, ios, wiped, left))
      ensures error.None? ==> Ingested(old(rows), Seen(disk, closed), rows) && Aligned(Contents()) && Faithful(Contents())
    {
      ghost var before := Contents();
      if Aligned(before) { FailedIngestAlignedExactly(before, archive, ios, wiped, left); }
      if !wiped {
        disk := map q | q in disk && q in left :: disk[q];
        return Some(Error.Io);
      }
      var extracted := ExtractZip(map[], archive, ios);
      UnpackedExactly(archive, ios, "", true);
      UnpackedIsNormal(archive, ios);
      disk := extracted.disk;
      NormalHasNoRoot(disk);
      if extracted.error.Some? { return extracted.error; }
      var scan;
      ghost var from: seq<string>;
      scan, from := ScanDirectory(disk, closed, broken);
      if scan.Err? { return Some(scan.error); }
      UpsertScanned(scan.value, from, closed, firstId);
      SeenAligns(before.rows, disk, closed, rows);
      return None;
    }

    /** The database half: a scan of what extraction wrote is never refused. */
    method UpsertScanned(scan: seq<Artifact>, ghost from: seq<string>, ghost closed: set<string>, firstId: ArtifactId)
      requires Valid() && NormalDisk(disk) && (forall id :: id in rows ==> id < firstId)
      requires Records(disk, scan, from) && Elems(from) == VisibleIn(disk, closed, "")
      modifies this`rows
      ensures Valid() && Ingested(old(rows), Seen(disk, closed), rows)
    {
      var newIds := seq(|scan|, i => firstId + i);
      NormalScanIsDistinct(disk, scan, from);
      SeenIsNormal(disk, closed);
      RecordsOfSeen(disk, closed, scan, from);
      IngestedBuild(rows, Seen(disk, closed), scan, from, newIds);
      var upserted := UpsertScan(rows, scan, newIds);
      rows := upserted.value;
    }

    method DestinationIsFree(target: string, isDir: bool) returns (free: bool)
      requires Valid()
      ensures free == DestinationFree(rows, target, isDir)
    {
      var found := Find(target);
      if found.Some? { return false; }
      if isDir {
        var below := SelectBelow(target);
        assert forall id :: id in rows && Under(rows[id].path, target) ==> id in below;
        if below != {} { NonemptyHasMember(below); }
        return below == {};
      }
      return true;
    }

    /** The rows of `move_subtree`, one update at a time, each admitted by the unique index. */
    method RewritePaths(id: ArtifactId, source: string, target: string, isDir: bool)
      requires LegalMove(rows, id, source, target, isDir)
      modifies this`rows
      ensures Valid() && rows == RowsMoved(old(rows), id, source, target, isDir)
    {
      ghost var start := rows;
      rows := rows[id := Renamed(rows[id], target)];
      EntryRewritten(start, id, source, target, isDir);
      var children: set<ArtifactId> := {};
      if isDir {
        children := SelectBelow(source);
      }
      ChildrenAre(start, rows, id, source, target, isDir);
      RewriteChildren(children, source, target, start, id, isDir);
      MovedIsPartlyMoved(start, id, source, target, isDir);
    }

    method RewriteChildren(selected: set<ArtifactId>, source: string, target: string,
                           ghost start: Rows, ghost id: ArtifactId, ghost isDir: bool)
      requires LegalMove(start, id, source, target, isDir) && id in InMoveIds(start, id, source, isDir)
      requires selected == InMoveIds(start, id, source, isDir) - {id} && Valid()
      requires rows == PartlyMoved(start, {id}, source, target)
      modifies this`rows
      ensures Valid() && rows == PartlyMoved(start, InMoveIds(start, id, source, isDir), source, target)
    {
      var children := selected;
      ghost var movers := InMoveIds(start, id, source, isDir);
      ghost var done := {id};
      while children != {}
        invariant children == movers - done && done <= movers && id in done
        invariant rows == PartlyMoved(start, done, source, target) && Valid()
        decreases |children|
      {
        NonemptyHasMember(children);
        var child :| child in children;
        ChildRewritten(start, id, source, target, isDir, done, child);
        rows := rows[child := Renamed(rows[child], target + rows[child].path[|source|..])];
        children, done := children - {child}, done + {child};
      }
      assert done == movers;
    }

    /** The rename of `move_subtree`; a source that is not there is passed over. */
    method RenameOnDisk(source: string, target: string, io: Io) returns (ok: bool)
      modifies this`disk
      ensures (disk, ok) == DiskMoved(old(disk), source, target, io)
    {
      if source in disk {
        var complete := MadeAll(disk, Parent(target), io.made);
        disk := MadeDirs(disk, Parent(target), io.made);
        if !complete || !io.renamed || !Renamable(disk, source, target) { return false; }
        disk := RenamedDisk(disk, source, target);
      }
      return true;
    }

    /** `move_subtree`, inside the caller's transaction: the rows first, the rename last. */
    method MoveSubtree(source: string, target: string, isDir: bool, io: Io) returns (error: Option<Error>)
      requires Valid() && DestinationFree(rows, target, isDir) && !(isDir && Under(target, source))
      modifies this
      ensures Valid()
      ensures !ExistsAt(old(rows), source) ==> error == Some(NotFound) && Contents() == old(Contents())
      ensures ExistsAt(old(rows), source) ==>
        && rows == RowsMoved(old(rows), RowIdAt(old(rows), source), source, target, isDir)
        && (disk, error == None) == DiskMoved(old(disk), source, target, io)
        && (error.Some? ==> error == Some(Error.Io))
    {
      var found := Find(source);
      if found.None? { return Some(NotFound); }
      var id := found.value;
      assert RowIdAt(rows, source) == id by { AtMostOneRow(rows, id, source); }
      RewritePaths(id, source, target, isDir);
      var ok := RenameOnDisk(source, target, io);
      return if ok then None else Some(Error.Io);
    }

    /** `apply_move`: its own transaction, rolled back when the subtree move fails. */
    method ApplyMove(id: ArtifactId, target: string, io: Io) returns (error: Option<Error>)
      requires Valid()
      modifies this
      ensures Valid() && Outcome(Contents(), error) == MoveEntry(old(Contents()), id, target, io)
    {
      if id !in rows { return Some(NotFound); }
      var entry := rows[id];
      var refusal := MoveRefusal(entry, target);
      if refusal.Some? { return refusal; }
      if target in disk { return Some(Conflict); }
      var before := rows;
      var free := DestinationIsFree(target, entry.isDir);
      if !free { return Some(Conflict); }
      assert RowAt(rows, id, entry.path) && RowIdAt(rows, entry.path) == id by { AtMostOneRow(rows, id, entry.path); }
      error := MoveSubtree(entry.path, target, entry.isDir, io);
      if error.Some? { rows := before; }
    }

    /** Resolve every id and validate its move before anything moves. */
    method ResolveMoves(ids: seq<ArtifactId>, targetDir: string) returns (moves: Result<seq<Selected>, Error>)
      ensures moves == ResolvedBatch(rows, ids, targetDir)
    {
      var batch: seq<Selected> := [];
      assert ids[0..] == ids;
      AfterNothing(ResolvedBatch(rows, ids, targetDir));
      for k := 0 to |ids|
        invariant ResolvedBatch(rows, ids, targetDir) == After(batch, ResolvedBatch(rows, ids[k..], targetDir))
      {
        assert ids[k..][0] == ids[k] && ids[k..][1..] == ids[k + 1..];
        if ids[k] !in rows { return Err(NotFound); }
        var entry := rows[ids[k]];
        var joined := JoinTargetDir(targetDir, entry.name);
        if joined.Err? { return Err(BadRequest); }
        var refusal := MoveRefusal(entry, joined.value);
        if refusal.Some? { return Err(refusal.value); }
        AfterOneMore(batch, Selected(ids[k], entry, joined.value), ResolvedBatch(rows, ids[k + 1..], targetDir));
        batch := batch + [Selected(ids[k], entry, joined.value)];
      }
      assert ids[|ids|..] == [] && batch + [] == batch;
      return Ok(batch);
    }

    /** `move_files`: all the moves in one transaction, which gives the rows back on a failure;
        nothing gives back the renames. */
    method MoveFiles(ids: seq<ArtifactId>, targetDir: string, ios: seq<Io>) returns (error: Option<Error>)
      requires Valid() && |ids| == |ios|
      modifies this
      ensures Valid() && Outcome(Contents(), error) == BundleTree.MoveFiles(old(Contents()), ids, targetDir, ios)
    {
      if ids == [] { return Some(BadRequest); }
      var moves := ResolveMoves(ids, targetDir);
      if moves.Err? { return Some(moves.error); }
      ResolvedBatchIs(rows, ids, targetDir);
      error := RunBatch(moves.value, ios);
    }

    method RunBatch(batch: seq<Selected>, ios: seq<Io>) returns (error: Option<Error>)
      requires Valid() && |batch| == |ios|
      requires forall k :: 0 <= k < |batch| ==> MoveRefusal(batch[k].entry, batch[k].target).None?
      modifies this
      ensures Valid() && Outcome(Contents(), error) == BatchFrom(old(rows), old(Contents()), batch, ios)
    {
      var before := rows;
      for k := 0 to |batch|
        invariant Valid()
        invariant BatchFrom(before, Contents(), batch[k..], ios[k..]) == BatchFrom(before, old(Contents()), batch, ios)
      {
        assert batch[k..][0] == batch[k] && batch[k..][1..] == batch[k + 1..];
        assert ios[k..][0] == ios[k] && ios[k..][1..] == ios[k + 1..];
        error := RunTurn(batch[k], ios[k]);
        if error.Some? {
          rows := before;
          return;
        }
      }
      error := None;
    }

    /** One turn; on an error the rows it leaves are the transaction's, not to be kept. */
    method RunTurn(sel: Selected, io: Io) returns (error: Option<Error>)
      requires Valid() && MoveRefusal(sel.entry, sel.target).None?
      modifies this
      ensures Valid() && error == BatchTurn(old(Contents()), sel, io).error
      ensures disk == BatchTurn(old(Contents()), sel, io).build.disk
      ensures error.None? ==> Contents() == BatchTurn(old(Contents()), sel, io).build
    {
      var free := DestinationIsFree(sel.target, sel.entry.isDir);
      if !free { return Some(Conflict); }
      error := MoveSubtree(sel.entry.path, sel.target, sel.entry.isDir, io);
    }
  }

  function IdsUnder(rows: Rows, dir: string): set<ArtifactId> {
    set i | i in rows && Under(rows[i].path, dir)
  }

  /** What resolving the rest adds to the moves resolved so far. */
  function After(batch: seq<Selected>, rest: Result<seq<Selected>, Error>): Result<seq<Selected>, Error> {
    if rest.Ok? then Ok(batch + rest.value) else rest
  }

  lemma AfterNothing(rest: Result<seq<Selected>, Error>)
    ensures After([], rest) == rest
  {
    if rest.Ok? { assert [] + rest.value == rest.value; }
  }

  lemma AfterOneMore(batch: seq<Selected>, sel: Selected, rest: Result<seq<Selected>, Error>)
    ensures After(batch + [sel], rest) == After(batch, After([sel], rest))
  {
    if rest.Ok? { assert (batch + [sel]) + rest.value == batch + ([sel] + rest.value); }
  }

  lemma NonemptyHasMember(ids: set<ArtifactId>)
    requires ids != {}
    ensures exists id :: id in ids
  {
    assert (forall id :: id !in ids) ==> ids == {};
  }

  lemma EntryRewritten(rows: Rows, id: ArtifactId, source: string, target: string, isDir: bool)
    requires LegalMove(rows, id, source, target, isDir)
    ensures rows[id := Renamed(rows[id], target)] == PartlyMoved(rows, {id}, source, target)
    ensures UniquePaths(rows[id := Renamed(rows[id], target)])
  {
    assert target + source[|source|..] == target;
    PathsUniqueMidway(rows, id, source, target, isDir, {id});
  }

  /** The rows selected after the entry's own has moved are the entry's old subtree. */
  lemma ChildrenAre(rows: Rows, midway: Rows, id: ArtifactId, source: string, target: string, isDir: bool)
    requires LegalMove(rows, id, source, target, isDir) && midway == rows[id := Renamed(rows[id], target)]
    ensures id in InMoveIds(rows, id, source, isDir)
    ensures InMoveIds(rows, id, source, isDir) - {id} == if isDir then IdsUnder(midway, source) else {}
  {
  }

  lemma ChildRewritten(rows: Rows, id: ArtifactId, source: string, target: string, isDir: bool, done: set<ArtifactId>, child: ArtifactId)
    requires LegalMove(rows, id, source, target, isDir)
    requires done <= InMoveIds(rows, id, source, isDir) && id in done && child in InMoveIds(rows, id, source, isDir) - done
    ensures var midway := PartlyMoved(rows, done, source, target);
      child in midway && |source| <= |midway[child].path|
      && midway[child := Renamed(midway[child], target + midway[child].path[|source|..])]
         == PartlyMoved(rows, done + {child}, source, target)
    ensures UniquePaths(PartlyMoved(rows, done + {child}, source, target))
  {
    PathsUniqueMidway(rows, id, source, target, isDir, done + {child});
  }

  lemma NormalHasNoRoot(disk: Disk)
    requires NormalDisk(disk)
    ensures "" !in disk
  {
    assert !Plain(Split("")[0]);
  }

  lemma SamePathsUnique(rows: Rows, rows': Rows)
    requires UniquePaths(rows) && rows'.Keys == rows.Keys && forall i :: i in rows ==> rows'[i].path == rows[i].path
    ensures UniquePaths(rows')
  {
    forall i, j, path | RowAt(rows', i, path) && RowAt(rows', j, path) ensures i == j {
      assert RowAt(rows, i, path) && RowAt(rows, j, path);
    }
  }

  lemma FewerPathsUnique(rows: Rows, rows': Rows)
    requires UniquePaths(rows) && forall i :: i in rows' ==> i in rows && rows'[i] == rows[i]
    ensures UniquePaths(rows')
  {
    forall i, j, path | RowAt(rows', i, path) && RowAt(rows', j, path) ensures i == j {
      assert RowAt(rows, i, path) && RowAt(rows, j, path);
    }
  }

  lemma NewPathUnique(rows: Rows, rows': Rows, newId: ArtifactId, row: Artifact)
    requires UniquePaths(rows) && !ExistsAt(rows, row.path) && newId !in rows && rows' == rows[newId := row]
    ensures UniquePaths(rows')
  {
    forall i, j, path | RowAt(rows', i, path) && RowAt(rows', j, path) ensures i == j {
      assert (i == newId || RowAt(rows, i, path)) && (j == newId || RowAt(rows, j, path));
    }
  }

  lemma NotItsOwnParent(path: string)
    ensures path !in Chain(Parent(path))
  {
    if path != "" { NotInOwnParent(path); }
  }
}
