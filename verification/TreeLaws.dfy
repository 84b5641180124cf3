/** What each admin operation on a build promises, stated on its rows and files: exactly when it
    goes through, what it leaves, and what it answers otherwise. */
module TreeLaws {
  import opened Texts
  import opened Wrappers
  import opened Paths
  import opened BundleTree
  import opened BundleAlignment
  import opened BundleMoves
  import opened BundleBatches
  import opened BundleSteps

  predicate IsFolder(disk: Disk, q: string) { q in disk && disk[q] == Dir }

  predicate IsPlainFile(disk: Disk, q: string) { q in disk && disk[q] != Dir }

  /** `q` is `p` or a folder above it. */
  predicate OnTheWayTo(p: string, q: string) { q != "" && (q == p || Under(p, q)) }

  /** No file is on the way to `p`. */
  ghost predicate WayIsOpen(disk: Disk, p: string) { forall q :: OnTheWayTo(p, q) ==> !IsPlainFile(disk, q) }

  lemma WaysAre(disk: Disk, p: string)
    ensures WayIsOpen(disk, p) <==> ChainClear(disk, p)
    ensures forall q :: OnTheWayTo(p, q) <==> q in Chain(p)
  {
    forall q ensures OnTheWayTo(p, q) <==> q in Chain(p) { ChainIs(p, q); }
  }

  /** The folders that `create_dir_all(p)` adds when it gets as far as `made` characters: those on
      the way that are missing, up to the first file. */
  ghost predicate AddsFolders(disk: Disk, after: Disk, p: string, made: nat) {
    && (forall q :: q in disk ==> q in after && after[q] == disk[q])
    && (forall q :: q in after && q !in disk ==> after[q] == Dir)
    && (forall q :: q !in disk ==> (q in after <==> Reached(disk, p, made, q)))
  }

  ghost predicate Reached(disk: Disk, p: string, made: nat, q: string) {
    OnTheWayTo(p, q) && |q| <= made && forall f :: OnTheWayTo(p, f) && |f| < |q| ==> !IsPlainFile(disk, f)
  }

  lemma MadeDirsAdd(disk: Disk, p: string, made: nat)
    ensures AddsFolders(disk, MadeDirs(disk, p, made), p, made)
  {
    WaysAre(disk, p);
  }

  // ----- Upload -----

  /** An upload makes the file's folders, puts the file in place, hashes it and records it, and stops
      where one of these fails: rows change only if all are done. */
  lemma UploadsExactly(b: Build, path: string, size: int, sha256: string, newId: ArtifactId, io: Io) returns (mid: Disk)
    ensures AddsFolders(b.disk, mid, Parent(path), io.made)
    ensures var outcome := UploadFile(b, path, size, sha256, newId, io);
      var placed := WayIsOpen(b.disk, Parent(path)) && |Parent(path)| <= io.made && io.renamed && !IsFolder(mid, path);
      && outcome.build.disk == (if placed then mid[path := File(size, sha256)] else mid)
      && (outcome.error.None? <==> placed && io.hashed)
      && (outcome.error.Some? ==> outcome.error == Some(Error.Io) && outcome.build.rows == b.rows)
  {
    WaysAre(b.disk, Parent(path));
    MadeDirsAdd(b.disk, Parent(path), io.made);
    mid := MadeDirs(b.disk, Parent(path), io.made);
  }

  /** Row `id` now stands for `row`'s path: the row that did before, with its own `download_once`, or
      a new one. Every other row is as it was. */
  ghost predicate Recorded(rows: Rows, after: Rows, row: Artifact, newId: ArtifactId) {
    && (forall id :: id in rows ==> id in after)
    && (forall id :: id in rows ==> after[id] == if rows[id].path == row.path then row.(downloadOnce := rows[id].downloadOnce) else rows[id])
    && (forall id :: id in after && id !in rows ==> id == newId && after[id] == row)
    && (newId in after <==> newId in rows || forall id :: id in rows ==> rows[id].path != row.path)
  }

  lemma UpsertRecords(rows: Rows, row: Artifact, newId: ArtifactId)
    requires newId !in rows
    ensures Recorded(rows, Upserted(rows, row, newId), row, newId)
  {
    assert ExistsAt(rows, row.path) <==> exists id :: id in rows && rows[id].path == row.path;
  }

  /** The row of a completed upload has the path, its name and category, and the size and hash of
      what was sent. */
  lemma UploadWritesItsRow(b: Build, path: string, size: int, sha256: string, newId: ArtifactId, io: Io)
    requires newId !in b.rows && UploadFile(b, path, size, sha256, newId, io).error.None?
    ensures Recorded(b.rows, UploadFile(b, path, size, sha256, newId, io).build.rows,
      Artifact(path, Name(path), Category(path), size, Some(sha256), false, false), newId)
  {
    UpsertRecords(b.rows, Fresh(path, size, Some(sha256), false), newId);
  }

  // ----- Folders -----

  lemma FoldersAre(path: string, q: string)
    requires Normal(path)
    ensures q in FoldersOf(path) <==> OnTheWayTo(path, q)
  {
    JoinSplit(path);
    SplitPartsHaveNoSlash(path);
    if q in FoldersOf(path) {
      var d :| 0 <= d < |FoldersOf(path)| && FoldersOf(path)[d] == q;
      FolderPaths(path, d);
      ChainIs(path, q);
    }
    if OnTheWayTo(path, q) {
      if q == path {
        assert Split(path)[..|Split(path)|] == Split(path);
        assert FoldersOf(path)[|Split(path)| - 1] == path;
      } else {
        UnderIsSegmentPrefix(path, q);
        var d := |Split(q)| - 1;
        assert Split(path)[..d + 1] == Split(q);
        JoinSplit(q);
        assert FoldersOf(path)[d] == q;
      }
    }
  }

  function FolderAt(path: string, downloadOnce: bool): Artifact {
    Artifact(path, Name(path), Category(path), 0, None, true, downloadOnce)
  }

  /** The rows after some folders have been recorded: each has one, of its own id if it had one, and
      no other row changes. */
  ghost predicate HasFolderRows(rows: Rows, after: Rows, folders: set<string>) {
    && (forall id :: id in rows ==> id in after)
    && (forall id :: id in rows && rows[id].path in folders ==> after[id] == FolderAt(rows[id].path, rows[id].downloadOnce))
    && (forall id :: id in rows && rows[id].path !in folders ==> after[id] == rows[id])
    && (forall id :: id in after && id !in rows ==> after[id].path in folders && after[id] == FolderAt(after[id].path, false))
    && (forall q :: q in folders ==> exists id :: id in after && after[id].path == q)
  }

  lemma HasFolderRowsNext(rows: Rows, mid: Rows, done: set<string>, q: string, newId: ArtifactId)
    requires HasFolderRows(rows, mid, done) && newId !in mid
    ensures HasFolderRows(rows, Upserted(mid, FolderRow(q), newId), done + {q})
  {
    var after := Upserted(mid, FolderRow(q), newId);
    UpsertRecords(mid, FolderRow(q), newId);
    forall id | id in rows
      ensures id in after
      ensures after[id] == if rows[id].path in done + {q} then FolderAt(rows[id].path, rows[id].downloadOnce) else rows[id]
    {
      assert id in mid && mid[id].path == rows[id].path;
    }
    forall p | p in done + {q} ensures exists id :: id in after && after[id].path == p {
      if p in done {
        var id :| id in mid && mid[id].path == p;
        assert after[id].path == p;
      } else if forall id :: id in mid ==> mid[id].path != q {
        assert after[newId].path == q;
      } else {
        var id :| id in mid && mid[id].path == q;
        assert after[id].path == q;
      }
    }
  }

  function Elements(folders: seq<string>): set<string> { set q | q in folders }

  lemma {:induction false} FoldersRecorded(rows: Rows, folders: seq<string>, newIds: seq<ArtifactId>)
    requires |folders| == |newIds| && NewIds(rows, newIds)
    ensures HasFolderRows(rows, FoldersUpserted(rows, folders, newIds), Elements(folders))
    ensures forall id :: id in FoldersUpserted(rows, folders, newIds) ==> id in rows || id in newIds
    decreases |folders|
  {
    if folders == [] {
      assert Elements(folders) == {};
    } else {
      var n := |folders| - 1;
      FoldersRecorded(rows, folders[..n], newIds[..n]);
      var mid := FoldersUpserted(rows, folders[..n], newIds[..n]);
      assert newIds[n] !in mid;
      UpsertRecords(mid, FolderRow(folders[n]), newIds[n]);
      HasFolderRowsNext(rows, mid, Elements(folders[..n]), folders[n], newIds[n]);
      assert Elements(folders) == Elements(folders[..n]) + {folders[n]};
    }
  }

  /** Creating a folder is refused where a file stands, and fails where the folders cannot all be
      made. */
  lemma CreatesFolderExactly(b: Build, path: string, newIds: seq<ArtifactId>, io: Io)
    requires |newIds| == |FoldersOf(path)|
    ensures var outcome := CreateFolder(b, path, newIds, io);
      if IsPlainFile(b.disk, path) then outcome == Outcome(b, Some(BadRequest))
      else
        && AddsFolders(b.disk, outcome.build.disk, path, io.made)
        && (outcome.error.None? <==> WayIsOpen(b.disk, path) && |path| <= io.made)
        && (outcome.error.Some? ==> outcome.error == Some(Error.Io) && outcome.build.rows == b.rows)
  {
    WaysAre(b.disk, path);
    MadeDirsAdd(b.disk, path, io.made);
  }

  /** Otherwise it and every folder above it have a row. */
  lemma CreatedFolderRows(b: Build, path: string, newIds: seq<ArtifactId>, io: Io) returns (folders: set<string>)
    requires Normal(path) && |newIds| == |FoldersOf(path)| && NewIds(b.rows, newIds)
    requires CreateFolder(b, path, newIds, io).error.None?
    ensures forall q :: q in folders <==> OnTheWayTo(path, q)
    ensures HasFolderRows(b.rows, CreateFolder(b, path, newIds, io).build.rows, folders)
  {
    folders := Elements(FoldersOf(path));
    FoldersRecorded(b.rows, FoldersOf(path), newIds);
    forall q ensures q in folders <==> OnTheWayTo(path, q) { FoldersAre(path, q); }
  }

  // ----- Rows alone -----

  /** Rehashing gives a file row the hash of the bytes at its path, and changes nothing else. */
  lemma RehashesExactly(b: Build, id: ArtifactId)
    ensures var outcome := RehashFile(b, id);
      if id !in b.rows then outcome == Outcome(b, Some(NotFound))
      else if b.rows[id].isDir || b.rows[id].path !in b.disk then outcome == Outcome(b, Some(BadRequest))
      else match b.disk[b.rows[id].path]
        case Dir => outcome == Outcome(b, Some(Error.Io))
        case File(_, digest) => outcome == Outcome(Build(b.rows[id := b.rows[id].(sha256 := Some(digest))], b.disk), None)
  {
  }

  lemma TogglesExactly(b: Build, id: ArtifactId, value: bool)
    ensures ToggleDownloadOnce(b, id, value) ==
      if id !in b.rows then Outcome(b, Some(NotFound))
      else Outcome(Build(b.rows[id := b.rows[id].(downloadOnce := value)], b.disk), None)
  {
  }

  // ----- Deletes -----

  /** Deleting an entry deletes its row and, if it is a folder, every row below it; of the files, what
      the unlink took. */
  lemma DeletesExactly(b: Build, id: ArtifactId, gone: set<string>, i: ArtifactId)
    ensures var outcome := DeleteEntry(b, id, gone);
      if id !in b.rows then outcome == Outcome(b, Some(NotFound))
      else
        && outcome.error.None? && outcome.build.disk == b.disk - gone
        && (i in outcome.build.rows <==>
              i in b.rows && i != id && !(b.rows[id].isDir && Under(b.rows[i].path, b.rows[id].path)))
        && (i in outcome.build.rows ==> outcome.build.rows[i] == b.rows[i])
  {
  }

  lemma {:induction false} UnlinkedAre(disk: Disk, gone: seq<set<string>>, q: string)
    ensures q in AllUnlinked(disk, gone) <==> q in disk && forall k :: 0 <= k < |gone| ==> q !in gone[k]
    ensures q in AllUnlinked(disk, gone) ==> AllUnlinked(disk, gone)[q] == disk[q]
    decreases |gone|
  {
    if gone != [] {
      UnlinkedAre(disk - gone[0], gone[1..], q);
      assert (forall k :: 0 <= k < |gone| ==> q !in gone[k]) <==>
        q !in gone[0] && (forall k :: 0 <= k < |gone[1..]| ==> q !in gone[1..][k]);
    }
  }

  /** A bulk delete of nothing is refused. Any other deletes the rows sent for and those below a folder
      among them, ids without a row counting as done; of the files, what the unlinks took. */
  lemma BulkDeletesExactly(b: Build, ids: seq<ArtifactId>, gone: seq<set<string>>, i: ArtifactId, q: string)
    ensures var outcome := BulkDelete(b, ids, gone);
      var rows, disk := outcome.build.rows, outcome.build.disk;
      && (ids == [] ==> outcome == Outcome(b, Some(BadRequest)))
      && (ids != [] ==>
            && outcome.error.None?
            && (i in rows <==> i in b.rows && i !in ids && !BelowPicked(b.rows, ids, b.rows[i].path))
            && (i in rows ==> rows[i] == b.rows[i])
            && (q in disk <==> q in b.disk && forall k :: 0 <= k < |gone| ==> q !in gone[k])
            && (q in disk ==> disk[q] == b.disk[q]))
  {
    AllRowsDeletedAre(b.rows, Found(b.rows, ids));
    if i in b.rows { LostAre(b.rows, ids, i); }
    UnlinkedAre(b.disk, gone, q);
  }

  /** An unlink takes nothing but the entry and, if it is a folder, what is in it; nothing at all if
      what stands there is of another kind; and a folder only with all it holds. */
  lemma UnlinksOnlyTheEntry(disk: Disk, path: string, isDir: bool, gone: set<string>)
    ensures MayUnlink(disk, path, isDir, gone) <==>
      && gone <= disk.Keys
      && (gone != {} ==> (if isDir then IsFolder(disk, path) else IsPlainFile(disk, path)))
      && (forall q :: q in gone ==> q == path || (isDir && Under(q, path)))
      && (forall q, p :: q in gone && p in disk && Under(p, q) ==> p in gone)
  {
  }

  // ----- Moves -----

  /** Something has a row at `target` or, for a folder, below it. */
  ghost predicate Occupied(rows: Rows, target: string, isDir: bool) {
    exists id :: id in rows && (rows[id].path == target || (isDir && Under(rows[id].path, target)))
  }

  lemma FreeIsNotOccupied(rows: Rows, target: string, isDir: bool)
    ensures DestinationFree(rows, target, isDir) <==> !Occupied(rows, target, isDir)
  {
    if id :| id in rows && (rows[id].path == target || (isDir && Under(rows[id].path, target))) {
      assert RowAt(rows, id, rows[id].path);
    }
  }

  /** The tree lets `source` be renamed: nothing in the way of the target's folder, a file over nothing
      or a file, a folder over nothing or an empty folder, and none into itself. */
  ghost predicate TreeAllows(disk: Disk, source: string, target: string) {
    && source in disk && WayIsOpen(disk, Parent(target)) && !Under(target, source)
    && (IsPlainFile(disk, source) ==> !IsFolder(disk, target))
    && (IsFolder(disk, source) ==> !IsPlainFile(disk, target) && forall q :: q in disk ==> !Under(q, target))
  }

  lemma TreeAllowsIs(disk: Disk, source: string, target: string)
    ensures Renamable(disk, source, target) <==> TreeAllows(disk, source, target)
  {
    WaysAre(disk, Parent(target));
  }

  /** What a rename leaves: the source and all in it stand below the target, the rest but what stood
      at the target where it was. */
  ghost predicate TreeMoved(disk: Disk, after: Disk, source: string, target: string) {
    && (forall rest :: (rest == "" || rest[0] == '/') ==>
          (target + rest in after <==> source + rest in disk)
          && (target + rest in after ==> after[target + rest] == disk[source + rest]))
    && (forall q :: q != target && !Under(q, target) ==>
          (q in after <==> q in disk && q != source && !Under(q, source)) && (q in after ==> after[q] == disk[q]))
  }

  lemma RenameMoves(disk: Disk, source: string, target: string)
    requires GoodRename(disk, source, target)
    ensures TreeMoved(disk, RenamedDisk(disk, source, target), source, target)
  {
    var after := RenamedDisk(disk, source, target);
    forall rest | rest == "" || rest[0] == '/'
      ensures (target + rest in after <==> source + rest in disk) && (target + rest in after ==> after[target + rest] == disk[source + rest])
    {
      RenamedNode(disk, source, target, target + rest);
      assert (target + rest)[|target|..] == rest;
    }
    forall q | q != target && !Under(q, target)
      ensures (q in after <==> q in disk && q != source && !Under(q, source)) && (q in after ==> after[q] == disk[q])
    {
      RenamedNode(disk, source, target, q);
    }
  }

  /** A rename or single move answers an unknown entry, a move to itself, a folder into itself, and an
      occupied destination, on disk or in the rows, each with its error, and changes nothing then. */
  lemma MoveIsRefusedExactly(b: Build, id: ArtifactId, target: string, io: Io)
    ensures var outcome := MoveEntry(b, id, target, io);
      && (id !in b.rows ==> outcome == Outcome(b, Some(NotFound)))
      && (id in b.rows ==>
            var entry := b.rows[id];
            var own, inside := target == entry.path, entry.isDir && Under(target, entry.path);
            var taken := target in b.disk || Occupied(b.rows, target, entry.isDir);
            && (own ==> outcome == Outcome(b, Some(Conflict)))
            && (!own && inside ==> outcome == Outcome(b, Some(BadRequest)))
            && (!own && !inside && taken ==> outcome == Outcome(b, Some(Conflict)))
            && (!own && !inside && !taken ==> outcome == MoveSubtree(b, id, entry.path, target, entry.isDir, io)))
  {
    if id in b.rows { FreeIsNotOccupied(b.rows, target, b.rows[id].isDir); }
  }

  /** Moving a subtree renames it on disk, if it is there, after making the target's folders; if that
      fails the rows stand. Otherwise the row and, for a folder, those below it are rewritten. */
  lemma SubtreeMovesExactly(b: Build, id: ArtifactId, source: string, target: string, isDir: bool, io: Io) returns (mid: Disk)
    ensures AddsFolders(b.disk, mid, Parent(target), io.made)
    ensures var outcome := MoveSubtree(b, id, source, target, isDir, io);
      var goes := WayIsOpen(b.disk, Parent(target)) && |Parent(target)| <= io.made && io.renamed && TreeAllows(mid, source, target);
      if source !in b.disk then outcome == Outcome(Build(RowsMoved(b.rows, id, source, target, isDir), b.disk), None)
      else if goes then outcome == Outcome(Build(RowsMoved(b.rows, id, source, target, isDir), RenamedDisk(mid, source, target)), None)
      else outcome == Outcome(Build(b.rows, mid), Some(Error.Io))
  {
    WaysAre(b.disk, Parent(target));
    MadeDirsAdd(b.disk, Parent(target), io.made);
    mid := MadeDirs(b.disk, Parent(target), io.made);
    TreeAllowsIs(mid, source, target);
  }

  /** Each row of a moved subtree gets the path that continues the target as its old one continued the
      source, with that path's name and category; nothing else of any row changes. */
  lemma RowsMoveExactly(rows: Rows, id: ArtifactId, source: string, target: string, isDir: bool, i: ArtifactId)
    ensures var after := RowsMoved(rows, id, source, target, isDir);
      && (i in after <==> i in rows)
      && (i in rows && i != id && !(isDir && Under(rows[i].path, source)) ==> after[i] == rows[i])
      && (i in rows && (i == id || (isDir && Under(rows[i].path, source))) ==>
            after[i] == rows[i].(path := after[i].path, name := Name(after[i].path), category := Category(after[i].path)))
      && (i in rows && i == id ==> after[i].path == target)
      && (i in rows && i != id && isDir && Under(rows[i].path, source) ==>
            exists rest :: rows[i].path == source + "/" + rest && after[i].path == target + "/" + rest)
  {
    if i in rows && i != id && isDir && Under(rows[i].path, source) {
      var rest := rows[i].path[|source| + 1..];
      assert rows[i].path == source + "/" + rest;
      assert rows[i].path[|source|..] == "/" + rest;
    }
  }

  // ----- Batches -----

  /** A batch is refused, before anything moves, exactly when it is empty, or for its first id that is
      unknown, cannot be joined to the target folder, or would move to itself or into itself. */
  lemma {:induction false} ResolvesExactly(rows: Rows, ids: seq<ArtifactId>, targetDir: string)
    requires ids != []
    ensures var first, rest := ids[0], ResolvedBatch(rows, ids[1..], targetDir);
      ResolvedBatch(rows, ids, targetDir) ==
        if first !in rows then Err(NotFound)
        else
          var entry, target := rows[first], JoinTargetDir(targetDir, rows[first].name);
          if target.Err? then Err(BadRequest)
          else if target.value == entry.path then Err(Conflict)
          else if entry.isDir && Under(target.value, entry.path) then Err(BadRequest)
          else match rest case Err(e) => Err(e) case Ok(more) => Ok([Selected(first, entry, target.value)] + more)
  {
  }

  /** A turn looks for the row at the entry's old path, and conflicts when the destination is taken. */
  lemma TurnsExactly(b: Build, sel: Selected, io: Io, id: ArtifactId)
    requires UniquePaths(b.rows)
    ensures Occupied(b.rows, sel.target, sel.entry.isDir) ==> BatchTurn(b, sel, io) == Outcome(b, Some(Conflict))
    ensures !Occupied(b.rows, sel.target, sel.entry.isDir) && (forall i :: i in b.rows ==> b.rows[i].path != sel.entry.path) ==>
      BatchTurn(b, sel, io) == Outcome(b, Some(NotFound))
    ensures !Occupied(b.rows, sel.target, sel.entry.isDir) && id in b.rows && b.rows[id].path == sel.entry.path ==>
      BatchTurn(b, sel, io) == MoveSubtree(b, id, sel.entry.path, sel.target, sel.entry.isDir, io)
  {
    FreeIsNotOccupied(b.rows, sel.target, sel.entry.isDir);
    if id in b.rows && b.rows[id].path == sel.entry.path {
      assert RowAt(b.rows, id, sel.entry.path);
      assert RowAt(b.rows, RowIdAt(b.rows, sel.entry.path), sel.entry.path);
    }
  }

  /** The turns follow one another on what the last has left; the first that fails ends the batch with
      its error, the rows as before the batch and the files as it leaves them. */
  lemma BatchesExactly(b: Build, ids: seq<ArtifactId>, targetDir: string, ios: seq<Io>)
    requires |ids| == |ios|
    ensures ids == [] ==> MoveFiles(b, ids, targetDir, ios) == Outcome(b, Some(BadRequest))
    ensures ids != [] && ResolvedBatch(b.rows, ids, targetDir).Err? ==>
      MoveFiles(b, ids, targetDir, ios) == Outcome(b, Some(ResolvedBatch(b.rows, ids, targetDir).error))
    ensures ids != [] && ResolvedBatch(b.rows, ids, targetDir).Ok? ==>
      |ResolvedBatch(b.rows, ids, targetDir).value| == |ios| &&
      MoveFiles(b, ids, targetDir, ios) == BatchFrom(b.rows, b, ResolvedBatch(b.rows, ids, targetDir).value, ios)
  {
    if ResolvedBatch(b.rows, ids, targetDir).Ok? { ResolvedBatchIs(b.rows, ids, targetDir); }
  }

  lemma TurnsInOrder(start: Rows, b: Build, sel: Selected, rest: seq<Selected>, io: Io, ios: seq<Io>)
    requires |rest| == |ios|
    ensures BatchFrom(start, b, [], []) == Outcome(b, None)
    ensures var turn := BatchTurn(b, sel, io);
      BatchFrom(start, b, [sel] + rest, [io] + ios) ==
        if turn.error.Some? then Outcome(Build(start, turn.build.disk), turn.error) else BatchFrom(start, turn.build, rest, ios)
  {
    assert ([sel] + rest)[1..] == rest && ([io] + ios)[1..] == ios;
  }
}
