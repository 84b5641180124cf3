/** ZIP ingest: extraction under the path and size guards. */
module BundleIngest {
  import opened Wrappers
  import opened Paths
  import opened BundleTree
  import opened BundleAlignment
  import opened BundleBatches
  import opened BundleSteps
  import opened BundleContents

  const MAX_UNCOMPRESSED: int := 10 * 1024 * 1024 * 1024
  const MAX_ENTRIES: int := 100_000
  const U64_MAX: int := 0xFFFF_FFFF_FFFF_FFFF
  const UPSERT_CHUNK: int := 10_000

  // ----- Extraction -----

  /** `declared` is the size the archive's directory gives, which its bytes need not have;
      `readable` says that the entry can be opened. */
  datatype ZipEntry = ZipEntry(name: string, isDir: bool, readable: bool, declared: nat, size: nat, sha256: string)

  /** The uploaded file, if it can be opened and is a ZIP. */
  type Archive = Result<seq<ZipEntry>, Error>

  /** How far `create_dir_all` gets, whether the file is created and its bytes are all written,
      and what is in it if they are not. */
  datatype WriteIo = WriteIo(made: nat, created: bool, whole: bool, written: nat, digest: string)

  predicate MacJunk(name: string) { name == "__MACOSX" || "__MACOSX/" <= name }

  function Stripped(name: string): string {
    if name != "" && name[0] == '/' then Stripped(name[1..]) else name
  }

  /** An entry that extraction passes over. */
  predicate Skipped(name: string) {
    MacJunk(name) || Stripped(name) == "" || Normalized(Stripped(name)) == Err(Required)
  }

  function Saturated(total: int): int { if total > U64_MAX then U64_MAX else total }

  /** One entry written out; a write that fails midway leaves part of the file. */
  function Placed(disk: Disk, entry: ZipEntry, path: string, io: WriteIo): (Disk, bool) {
    var folder := if entry.isDir then path else Parent(path);
    var made := MadeDirs(disk, folder, io.made);
    if entry.isDir || !MadeAll(disk, folder, io.made) then (made, MadeAll(disk, folder, io.made))
    else if !io.created || (path in disk && disk[path].Dir?) then (made, false)
    else if !io.whole then (made[path := File(io.written, io.digest)], false)
    else (made[path := File(entry.size, entry.sha256)], true)
  }

  datatype Extraction = Extraction(disk: Disk, total: int, error: Option<Error>)

  function ExtractedEntry(disk: Disk, total: int, entry: ZipEntry, io: WriteIo): Extraction {
    if !entry.readable then Extraction(disk, total, Some(BadRequest))
    else if Skipped(entry.name) then Extraction(disk, total, None)
    else if Normalized(Stripped(entry.name)).Err? then Extraction(disk, total, Some(BadRequest))
    else
      var sum := Saturated(total + entry.declared);
      if sum > MAX_UNCOMPRESSED then Extraction(disk, sum, Some(BadRequest))
      else
        var (placed, ok) := Placed(disk, entry, Normalized(Stripped(entry.name)).value, io);
        Extraction(placed, sum, if ok then None else Some(Error.Io))
  }

  /** What `extract_zip` leaves, and the error it stopped at. */
  function Extracted(disk: Disk, total: int, entries: seq<ZipEntry>, ios: seq<WriteIo>): Extraction
    requires |entries| == |ios|
    decreases |entries|
  {
    if entries == [] then Extraction(disk, total, None)
    else
      var next := ExtractedEntry(disk, total, entries[0], ios[0]);
      if next.error.Some? then next else Extracted(next.disk, next.total, entries[1..], ios[1..])
  }

  /** One outcome of the filesystem for each entry. */
  predicate ForEach(archive: Archive, ios: seq<WriteIo>) { archive.Ok? ==> |archive.value| == |ios| }

  function Unpacked(start: Disk, archive: Archive, ios: seq<WriteIo>): Extraction
    requires ForEach(archive, ios)
  {
    match archive
    case Err(e) => Extraction(start, 0, Some(e))
    case Ok(entries) =>
      if |entries| > MAX_ENTRIES then Extraction(start, 0, Some(BadRequest)) else Extracted(start, 0, entries, ios)
  }

  method ExtractEntry(disk: Disk, total: int, entry: ZipEntry, io: WriteIo) returns (next: Extraction)
    ensures next == ExtractedEntry(disk, total, entry, io)
  {
    if !entry.readable { return Extraction(disk, total, Some(BadRequest)); }
    if MacJunk(entry.name) { return Extraction(disk, total, None); }
    var trimmed := Stripped(entry.name);
    if trimmed == "" { return Extraction(disk, total, None); }
    var safe := Normalized(trimmed);
    if safe == Err(Required) { return Extraction(disk, total, None); }
    if safe.Err? { return Extraction(disk, total, Some(BadRequest)); }
    var sum := Saturated(total + entry.declared);
    if sum > MAX_UNCOMPRESSED { return Extraction(disk, sum, Some(BadRequest)); }
    var (placed, ok) := Placed(disk, entry, safe.value, io);
    return Extraction(placed, sum, if ok then None else Some(Error.Io));
  }

  method ExtractZip(start: Disk, archive: Archive, ios: seq<WriteIo>) returns (result: Extraction)
    requires ForEach(archive, ios)
    ensures result == Unpacked(start, archive, ios)
  {
    if archive.Err? { return Extraction(start, 0, Some(archive.error)); }
    var entries := archive.value;
    if |entries| > MAX_ENTRIES { return Extraction(start, 0, Some(BadRequest)); }
    result := Extraction(start, 0, None);
    for k := 0 to |entries|
      invariant result.error == None
      invariant Extracted(result.disk, result.total, entries[k..], ios[k..]) == Extracted(start, 0, entries, ios)
    {
      assert entries[k..][0] == entries[k] && entries[k..][1..] == entries[k + 1..];
      assert ios[k..][0] == ios[k] && ios[k..][1..] == ios[k + 1..];
      result := ExtractEntry(result.disk, result.total, entries[k], ios[k]);
      if result.error.Some? { return; }
    }
  }

  /** A tree whose every path is normal: nothing in it escapes the build. */
  ghost predicate NormalDisk(disk: Disk) {
    DiskOk(disk) && forall q :: q in disk ==> Normal(q)
  }

  lemma NormalParent(path: string)
    requires Normal(path) && Parent(path) != ""
    ensures Normal(Parent(path))
  {
    ParentIsAbove(path);
    NormalIsNonempty(path);
    ParentChain(path, Parent(path));
    assert path == Parent(path) + "/" + path[|Parent(path)| + 1..];
    NormalConcat(Parent(path), path[|Parent(path)| + 1..]);
  }

  lemma PlacedIsNormal(disk: Disk, entry: ZipEntry, path: string, io: WriteIo)
    requires NormalDisk(disk) && Normal(path)
    ensures NormalDisk(Placed(disk, entry, path, io).0)
  {
    var folder := if entry.isDir then path else Parent(path);
    var made := MadeDirs(disk, folder, io.made);
    MadeDirsOk(disk, folder, io.made);
    forall q | q in made ensures Normal(q) {
      if q !in disk {
        ChainIs(folder, q);
        if !entry.isDir { NormalParent(path); }
        NormalChain(folder, q);
      }
    }
    if !entry.isDir && MadeAll(disk, folder, io.made) && !(path in disk && disk[path].Dir?) {
      NormalIsNonempty(path);
      NotInOwnParent(path);
      FileInFolders(made, path, File(io.written, io.digest));
      FileInFolders(made, path, File(entry.size, entry.sha256));
    }
  }

  lemma FileInFolders(disk: Disk, path: string, file: Node)
    requires DiskOk(disk) && path != "" && !(path in disk && disk[path].Dir?)
    requires forall q :: q in Chain(Parent(path)) ==> q in disk && disk[q].Dir?
    ensures DiskOk(disk[path := file])
  {
    var disk' := disk[path := file];
    forall p, q | p in disk' && Under(p, q) && q != "" ensures q in disk' && disk'[q].Dir? {
      if p == path { ParentChain(path, q); } else { assert q in disk && disk[q].Dir?; }
    }
  }

  lemma EntryStaysInside(disk: Disk, total: int, entry: ZipEntry, io: WriteIo)
    requires NormalDisk(disk)
    ensures NormalDisk(ExtractedEntry(disk, total, entry, io).disk)
  {
    if Normalized(Stripped(entry.name)).Ok? {
      NormalizedIsNormal(Stripped(entry.name));
      PlacedIsNormal(disk, entry, Normalized(Stripped(entry.name)).value, io);
    }
  }

  /** Whatever the archive names and wherever extraction stops, no entry lands outside the
      build, beside a folder it needs, or under a file. */
  lemma {:induction false} ExtractionStaysInside(disk: Disk, total: int, entries: seq<ZipEntry>, ios: seq<WriteIo>)
    requires |entries| == |ios| && NormalDisk(disk)
    ensures NormalDisk(Extracted(disk, total, entries, ios).disk)
    decreases |entries|
  {
    if entries != [] {
      var next := ExtractedEntry(disk, total, entries[0], ios[0]);
      EntryStaysInside(disk, total, entries[0], ios[0]);
      if next.error.None? { ExtractionStaysInside(next.disk, next.total, entries[1..], ios[1..]); }
    }
  }

  /** The bytes the archive's entries declare, skipped ones apart. */
  function DeclaredBytes(entries: seq<ZipEntry>): nat {
    if entries == [] then 0
    else (if Skipped(entries[0].name) then 0 else entries[0].declared) + DeclaredBytes(entries[1..])
  }

  /** An archive is extracted whole only if what it declares is within the limit, saturating
      or not. */
  lemma {:induction false} ExtractionIsBounded(disk: Disk, total: nat, entries: seq<ZipEntry>, ios: seq<WriteIo>)
    requires |entries| == |ios| && total <= MAX_UNCOMPRESSED && Extracted(disk, total, entries, ios).error.None?
    ensures Extracted(disk, total, entries, ios).total == total + DeclaredBytes(entries) <= MAX_UNCOMPRESSED
    decreases |entries|
  {
    if entries != [] {
      var next := ExtractedEntry(disk, total, entries[0], ios[0]);
      ExtractionIsBounded(next.disk, next.total, entries[1..], ios[1..]);
    }
  }
}
