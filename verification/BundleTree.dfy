/** One build: its artifact rows and its `files/` tree, and what each admin operation makes
    of them. Every filesystem call may fail; its outcome is a parameter. */
module BundleTree {
  import opened Texts
  import opened Wrappers
  import opened Paths

  type ArtifactId = int

  datatype Artifact = Artifact(
    path: string, name: string, category: string,
    size: int, sha256: Option<string>, isDir: bool, downloadOnce: bool)

  datatype Node = File(size: int, sha256: string) | Dir

  type Rows = map<ArtifactId, Artifact>
  type Disk = map<string, Node>

  datatype Build = Build(rows: Rows, disk: Disk)

  datatype Error = NotFound | BadRequest | Conflict | Io

  /** The build an operation leaves behind, and the error it answered with, if any. */
  datatype Outcome = Outcome(build: Build, error: Option<Error>)

  // ----- Rows -----

  predicate RowAt(rows: Rows, id: ArtifactId, path: string) {
    id in rows && rows[id].path == path
  }

  predicate ExistsAt(rows: Rows, path: string) {
    exists id :: id in rows && RowAt(rows, id, path)
  }

  predicate ExistsUnder(rows: Rows, dir: string) {
    exists id :: id in rows && Under(rows[id].path, dir)
  }

  /** The unique index on `(bundle_id, relative_path)`. */
  ghost predicate UniquePaths(rows: Rows) {
    forall i, j, path :: RowAt(rows, i, path) && RowAt(rows, j, path) ==> i == j
  }

  function Renamed(row: Artifact, path: string): Artifact {
    row.(path := path, name := Name(path), category := Category(path))
  }

  function Fresh(path: string, size: int, sha256: Option<string>, isDir: bool): Artifact {
    Artifact(path, Name(path), Category(path), size, sha256, isDir, false)
  }

  /** `INSERT ... ON CONFLICT (bundle_id, relative_path) DO UPDATE`, which leaves
      `download_once` alone. */
  function Upserted(rows: Rows, row: Artifact, newId: ArtifactId): Rows {
    if ExistsAt(rows, row.path) then
      map id | id in rows ::
        if rows[id].path == row.path then row.(downloadOnce := rows[id].downloadOnce) else rows[id]
    else rows[newId := row]
  }

  // ----- The tree -----

  predicate OnPath(q: string, p: string) { q == p || Under(p, q) }

  /** The folders `create_dir_all(p)` passes through, `p` included. */
  function Chain(p: string): set<string> {
    set i | 0 < i <= |p| && (i == |p| || p[i] == '/') :: p[..i]
  }

  predicate IsFile(disk: Disk, p: string) { p in disk && disk[p].File? }

  /** No file stands where a folder of the chain is to be. */
  predicate ChainClear(disk: Disk, p: string) {
    forall q :: q in Chain(p) ==> !IsFile(disk, q)
  }

  /** `create_dir_all(p)`, got as far as the folders of at most `made` characters. */
  function MadeDirs(disk: Disk, p: string, made: nat): Disk {
    disk + map q | q in Chain(p) && |q| <= made && q !in disk
      && (forall f :: f in Chain(p) && |f| < |q| ==> !IsFile(disk, f)) :: Dir
  }

  predicate MadeAll(disk: Disk, p: string, made: nat) {
    |p| <= made && ChainClear(disk, p)
  }

  /** The folder that holds `p`; "" is the files root itself. */
  function Parent(p: string): string
    decreases |p|
  {
    if p == "" then "" else if p[|p| - 1] == '/' then p[..|p| - 1] else Parent(p[..|p| - 1])
  }

  predicate Below(q: string, p: string) { q == p || Under(q, p) }

  /** What `rename(2)` accepts: a file over nothing or a file, a folder over nothing or an
      empty folder, never a folder into itself. */
  predicate Renamable(disk: Disk, source: string, target: string) {
    && source in disk && ChainClear(disk, Parent(target))
    && !Under(target, source)
    && (if disk[source].File? then target !in disk || disk[target].File?
        else !IsFile(disk, target) && forall q :: q in disk ==> !Under(q, target))
  }

  /** Where a node now at `q`, below `target`, stood before the rename. */
  function Origin(q: string, source: string, target: string): string
    requires Below(q, target)
  {
    source + q[|target|..]
  }

  /** `rename(source, target)`: the subtree moves, and an empty folder or a file that stood
      at `target` is replaced. */
  function RenamedDisk(disk: Disk, source: string, target: string): Disk {
    var moved := set q | q in disk && Below(q, source) :: target + q[|source|..];
    (map q | q in disk && !Below(q, source) && q != target :: disk[q])
    + map q | q in moved && Below(q, target) && Origin(q, source, target) in disk :: disk[Origin(q, source, target)]
  }

  // ----- Operations -----

  /** How far `create_dir_all` gets, and whether the rename and the hash succeed. */
  datatype Io = Io(made: nat, renamed: bool, hashed: bool)

  function UploadFile(b: Build, path: string, size: int, sha256: string, newId: ArtifactId, io: Io): Outcome {
    var disk := MadeDirs(b.disk, Parent(path), io.made);
    if !MadeAll(b.disk, Parent(path), io.made) then Outcome(Build(b.rows, disk), Some(Error.Io))
    else if !io.renamed || (path in disk && disk[path].Dir?) then Outcome(Build(b.rows, disk), Some(Error.Io))
    else
      var placed := disk[path := File(size, sha256)];
      if !io.hashed then Outcome(Build(b.rows, placed), Some(Error.Io))
      else Outcome(Build(Upserted(b.rows, Fresh(path, size, Some(sha256), false), newId), placed), None)
  }

  function FolderRow(path: string): Artifact { Fresh(path, 0, None, true) }

  /** The folder at each depth of the path, outermost first, the path itself last. */
  function FoldersOf(path: string): seq<string> {
    seq(|Split(path)|, d requires 0 <= d < |Split(path)| => Join(Split(path)[..d + 1]))
  }

  function FoldersUpserted(rows: Rows, folders: seq<string>, newIds: seq<ArtifactId>): Rows
    requires |folders| == |newIds|
  {
    if folders == [] then rows
    else
      var n := |folders| - 1;
      Upserted(FoldersUpserted(rows, folders[..n], newIds[..n]), FolderRow(folders[n]), newIds[n])
  }

  function CreateFolder(b: Build, path: string, newIds: seq<ArtifactId>, io: Io): Outcome
    requires |newIds| == |FoldersOf(path)|
  {
    if IsFile(b.disk, path) then Outcome(b, Some(BadRequest))
    else
      var disk := MadeDirs(b.disk, path, io.made);
      if !MadeAll(b.disk, path, io.made) then Outcome(Build(b.rows, disk), Some(Error.Io))
      else Outcome(Build(FoldersUpserted(b.rows, FoldersOf(path), newIds), disk), None)
  }

  /** `rehash_file`: the row takes the hash of the bytes now at its path. */
  function RehashFile(b: Build, id: ArtifactId): Outcome {
    if id !in b.rows then Outcome(b, Some(NotFound))
    else
      var row := b.rows[id];
      if row.isDir || row.path !in b.disk then Outcome(b, Some(BadRequest))
      else if b.disk[row.path].Dir? then Outcome(b, Some(Error.Io))
      else Outcome(b.(rows := b.rows[id := row.(sha256 := Some(b.disk[row.path].sha256))]), None)
  }

  function ToggleDownloadOnce(b: Build, id: ArtifactId, value: bool): Outcome {
    if id !in b.rows then Outcome(b, Some(NotFound))
    else Outcome(b.(rows := b.rows[id := b.rows[id].(downloadOnce := value)]), None)
  }

  /** `delete_entry_rows`: the row and, for a folder, every row below it. */
  function RowsDeleted(rows: Rows, id: ArtifactId, path: string, isDir: bool): Rows {
    map i | i in rows && i != id && !(isDir && Under(rows[i].path, path)) :: rows[i]
  }

  /** What a best-effort unlink may take away: nothing, or part of the entry's subtree, a
      folder only after all it holds; and only if the entry is what its row says. */
  ghost predicate MayUnlink(disk: Disk, path: string, isDir: bool, gone: set<string>) {
    && (forall q :: q in gone ==> q in disk && (q == path || (isDir && Under(q, path))))
    && (gone != {} ==> path in disk && (isDir <==> disk[path].Dir?))
    && (forall q, p :: q in gone && p in disk && Under(p, q) ==> p in gone)
  }

  function DeleteEntry(b: Build, id: ArtifactId, gone: set<string>): Outcome {
    if id !in b.rows then Outcome(b, Some(NotFound))
    else Outcome(Build(RowsDeleted(b.rows, id, b.rows[id].path, b.rows[id].isDir), b.disk - gone), None)
  }

  /** An entry of a bulk delete as it was resolved before any row went. */
  datatype Doomed = Doomed(id: ArtifactId, entry: Artifact)

  /** The ids that still name a row; the others count as already deleted. */
  function Found(rows: Rows, ids: seq<ArtifactId>): seq<Doomed> {
    if ids == [] then []
    else (if ids[0] in rows then [Doomed(ids[0], rows[ids[0]])] else []) + Found(rows, ids[1..])
  }

  predicate Covers(doomed: Doomed, id: ArtifactId, path: string) {
    id == doomed.id || (doomed.entry.isDir && Under(path, doomed.entry.path))
  }

  function EntryRowsDeleted(rows: Rows, doomed: Doomed): Rows {
    RowsDeleted(rows, doomed.id, doomed.entry.path, doomed.entry.isDir)
  }

  function AllRowsDeleted(rows: Rows, doomed: seq<Doomed>): Rows
    decreases |doomed|
  {
    if doomed == [] then rows else AllRowsDeleted(EntryRowsDeleted(rows, doomed[0]), doomed[1..])
  }

  /** Each unlink meets the tree the ones before it left. */
  ghost predicate MayUnlinkAll(disk: Disk, doomed: seq<Doomed>, gone: seq<set<string>>)
    requires |doomed| == |gone|
    decreases |doomed|
  {
    doomed == [] ||
    (MayUnlink(disk, doomed[0].entry.path, doomed[0].entry.isDir, gone[0])
     && MayUnlinkAll(disk - gone[0], doomed[1..], gone[1..]))
  }

  function AllUnlinked(disk: Disk, gone: seq<set<string>>): Disk
    decreases |gone|
  {
    if gone == [] then disk else AllUnlinked(disk - gone[0], gone[1..])
  }

  /** All the rows go in one transaction, then the entries are unlinked one by one. */
  function BulkDelete(b: Build, ids: seq<ArtifactId>, gone: seq<set<string>>): Outcome {
    if ids == [] then Outcome(b, Some(BadRequest))
    else Outcome(Build(AllRowsDeleted(b.rows, Found(b.rows, ids)), AllUnlinked(b.disk, gone)), None)
  }

  /** `move_subtree` on the rows: the entry, and for a folder everything below it. */
  function RowsMoved(rows: Rows, id: ArtifactId, source: string, target: string, isDir: bool): Rows {
    map i | i in rows ::
      if i == id then Renamed(rows[i], target)
      else if isDir && Under(rows[i].path, source) then Renamed(rows[i], target + rows[i].path[|source|..])
      else rows[i]
  }

  /** `check_destination_free`. */
  predicate DestinationFree(rows: Rows, target: string, isDir: bool) {
    !ExistsAt(rows, target) && !(isDir && ExistsUnder(rows, target))
  }

  /** `validate_move`. */
  function MoveRefusal(entry: Artifact, target: string): Option<Error> {
    if target == entry.path then Some(Conflict)
    else if entry.isDir && Under(target, entry.path) then Some(BadRequest)
    else None
  }

  /** The disk half of `move_subtree`: `None` when it fails, with the folders it made. */
  function DiskMoved(disk: Disk, source: string, target: string, io: Io): (Disk, bool) {
    if source !in disk then (disk, true)
    else
      var made := MadeDirs(disk, Parent(target), io.made);
      if !MadeAll(disk, Parent(target), io.made) || !io.renamed || !Renamable(made, source, target) then (made, false)
      else (RenamedDisk(made, source, target), true)
  }

  /** `move_subtree` inside the caller's transaction: on failure the caller's rows stand. */
  function MoveSubtree(b: Build, id: ArtifactId, source: string, target: string, isDir: bool, io: Io): Outcome {
    var (disk, ok) := DiskMoved(b.disk, source, target, io);
    if ok then Outcome(Build(RowsMoved(b.rows, id, source, target, isDir), disk), None)
    else Outcome(Build(b.rows, disk), Some(Error.Io))
  }

  /** `apply_move`, shared by rename and single move. */
  function MoveEntry(b: Build, id: ArtifactId, target: string, io: Io): Outcome {
    if id !in b.rows then Outcome(b, Some(NotFound))
    else
      var entry := b.rows[id];
      if MoveRefusal(entry, target).Some? then Outcome(b, MoveRefusal(entry, target))
      else if target in b.disk || !DestinationFree(b.rows, target, entry.isDir) then Outcome(b, Some(Conflict))
      else MoveSubtree(b, id, entry.path, target, entry.isDir, io)
  }

  /** An entry of a batch as it was resolved before any row moved. */
  datatype Selected = Selected(id: ArtifactId, entry: Artifact, target: string)

  ghost function RowIdAt(rows: Rows, path: string): ArtifactId
    requires ExistsAt(rows, path)
  {
    var id :| id in rows && RowAt(rows, id, path);
    id
  }

  /** One turn of `move_files`: the row is looked up by the path the entry had at the start,
      its kind is the one the entry had, and the tree is not probed. */
  ghost function BatchTurn(b: Build, sel: Selected, io: Io): Outcome {
    if !DestinationFree(b.rows, sel.target, sel.entry.isDir) then Outcome(b, Some(Conflict))
    else if !ExistsAt(b.rows, sel.entry.path) then Outcome(b, Some(NotFound))
    else MoveSubtree(b, RowIdAt(b.rows, sel.entry.path), sel.entry.path, sel.target, sel.entry.isDir, io)
  }

  /** The turns of a batch; on a failure `start`'s rows come back but the disk does not. */
  ghost function BatchFrom(start: Rows, b: Build, batch: seq<Selected>, ios: seq<Io>): Outcome
    requires |batch| == |ios|
    decreases |batch|
  {
    if batch == [] then Outcome(b, None)
    else
      var turn := BatchTurn(b, batch[0], ios[0]);
      if turn.error.Some? then Outcome(Build(start, turn.build.disk), turn.error)
      else BatchFrom(start, turn.build, batch[1..], ios[1..])
  }

  /** `join_target_dir`. */
  function JoinTargetDir(targetDir: string, name: string): Result<string, PathError> {
    Normalized(RawTarget(Trim(targetDir), name))
  }

  function RawTarget(target: string, name: string): string { if target == "" then name else target + "/" + name }

  /** Every id is looked up and its move validated before anything moves. */
  function ResolvedBatch(rows: Rows, ids: seq<ArtifactId>, targetDir: string): Result<seq<Selected>, Error> {
    if ids == [] then Ok([])
    else if ids[0] !in rows then Err(NotFound)
    else
      var entry := rows[ids[0]];
      match JoinTargetDir(targetDir, entry.name)
      case Err(_) => Err(BadRequest)
      case Ok(target) =>
        if MoveRefusal(entry, target).Some? then Err(MoveRefusal(entry, target).value)
        else
          match ResolvedBatch(rows, ids[1..], targetDir)
          case Err(error) => Err(error)
          case Ok(rest) => Ok([Selected(ids[0], entry, target)] + rest)
  }

  /** `move_files`; the filesystem answers the k-th turn with `ios[k]`. */
  ghost function MoveFiles(b: Build, ids: seq<ArtifactId>, targetDir: string, ios: seq<Io>): Outcome
    requires |ids| == |ios|
  {
    if ids == [] then Outcome(b, Some(BadRequest))
    else
      match ResolvedBatch(b.rows, ids, targetDir)
      case Err(error) => Outcome(b, Some(error))
      case Ok(batch) => if |batch| == |ios| then BatchFrom(b.rows, b, batch, ios) else Outcome(b, Some(BadRequest))
  }
}
