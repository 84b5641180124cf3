/** Exactly what stands after an extraction, wherever it stops: read off the archive and the
    filesystem's answers, without running it. */
module BundleExtracted {
  import opened Wrappers
  import opened Paths
  import opened BundleTree
  import opened BundleAlignment
  import opened BundleSteps
  import opened BundleIngest

  /** The path an entry is written to, if its name gives one. */
  function EntryPath(entry: ZipEntry): Option<string> {
    if Skipped(entry.name) || Normalized(Stripped(entry.name)).Err? then None
    else Some(Normalized(Stripped(entry.name)).value)
  }

  /** The folder an entry needs. */
  function Folder(entry: ZipEntry): string
    requires EntryPath(entry).Some?
  {
    if entry.isDir then EntryPath(entry).value else Parent(EntryPath(entry).value)
  }

  /** An entry that goes through makes `q`, a folder (`dir`) or a file. */
  predicate Brings(entry: ZipEntry, q: string, dir: bool) {
    EntryPath(entry).Some? && if dir then q in Chain(Folder(entry)) else !entry.isDir && q == EntryPath(entry).value
  }

  predicate Brought(entries: seq<ZipEntry>, q: string, dir: bool) {
    exists k :: 0 <= k < |entries| && Brings(entries[k], q, dir)
  }

  // ----- One entry -----

  /** The entry is not refused for its name, the bytes declared so far, or as unreadable. */
  predicate Admitted(before: seq<ZipEntry>, entry: ZipEntry) {
    entry.readable && EntryPath(entry).Some? && DeclaredBytes(before) + entry.declared <= MAX_UNCOMPRESSED
  }

  /** No earlier entry has put a file where it needs a folder, or a folder where it is a file. */
  predicate Fits(before: seq<ZipEntry>, entry: ZipEntry)
    requires EntryPath(entry).Some?
  {
    && (forall f :: f in Chain(Folder(entry)) ==> !Brought(before, f, false))
    && (entry.isDir || !Brought(before, EntryPath(entry).value, true))
  }

  predicate Completes(entry: ZipEntry, io: WriteIo)
    requires EntryPath(entry).Some?
  {
    |Folder(entry)| <= io.made && (entry.isDir || (io.created && io.whole))
  }

  predicate Passes(before: seq<ZipEntry>, entry: ZipEntry, io: WriteIo) {
    if entry.readable && Skipped(entry.name) then true
    else Admitted(before, entry) && Fits(before, entry) && Completes(entry, io)
  }

  /** What an entry makes, passing or not: folders as far as `create_dir_all` gets, and the file
      as soon as it is created. */
  predicate Makes(before: seq<ZipEntry>, entry: ZipEntry, io: WriteIo, q: string, dir: bool) {
    Admitted(before, entry) &&
    if dir then
      q in Chain(Folder(entry)) && |q| <= io.made && forall f :: f in Chain(Folder(entry)) && |f| <= |q| ==> !Brought(before, f, false)
    else
      !entry.isDir && q == EntryPath(entry).value && |Folder(entry)| <= io.made && Fits(before, entry) && io.created
  }

  // ----- The whole archive -----

  /** How many of the entries go through, after those in `before`. */
  function Passed(before: seq<ZipEntry>, entries: seq<ZipEntry>, ios: seq<WriteIo>): (n: nat)
    requires |entries| == |ios|
    ensures n <= |entries|
    decreases |entries|
  {
    if entries == [] || !Passes(before, entries[0], ios[0]) then 0
    else 1 + Passed(before + [entries[0]], entries[1..], ios[1..])
  }

  /** `q` is made by an entry that goes through or by the one that stops the extraction. */
  predicate Comes(before: seq<ZipEntry>, entries: seq<ZipEntry>, ios: seq<WriteIo>, q: string, dir: bool)
    requires |entries| == |ios|
  {
    var n := Passed(before, entries, ios);
    Brought(before + entries[..n], q, dir)
    || (n < |entries| && Makes(before + entries[..n], entries[n], ios[n], q, dir))
  }

  predicate IsNode(disk: Disk, q: string, dir: bool) { q in disk && (disk[q].Dir? <==> dir) }

  ghost predicate Holds(disk: Disk, entries: seq<ZipEntry>) {
    forall q, dir :: IsNode(disk, q, dir) <==> Brought(entries, q, dir)
  }

  // ----- Proofs: one entry -----

  lemma BroughtNext(before: seq<ZipEntry>, entry: ZipEntry, q: string, dir: bool)
    ensures Brought(before + [entry], q, dir) <==> Brought(before, q, dir) || Brings(entry, q, dir)
  {
    var both := before + [entry];
    assert both[|before|] == entry && forall k :: 0 <= k < |before| ==> both[k] == before[k];
  }

  lemma {:induction false} DeclaredNext(before: seq<ZipEntry>, entry: ZipEntry)
    ensures DeclaredBytes(before + [entry]) == DeclaredBytes(before) + if Skipped(entry.name) then 0 else entry.declared
    decreases |before|
  {
    if before == [] {
      assert before + [entry] == [entry] && [entry][1..] == [];
    } else {
      assert (before + [entry])[1..] == before[1..] + [entry];
      DeclaredNext(before[1..], entry);
    }
  }

  /** `create_dir_all(p)` gets to folder `q`. */
  predicate DirMade(disk: Disk, p: string, made: nat, q: string) {
    q in Chain(p) && |q| <= made && forall f :: f in Chain(p) && |f| <= |q| ==> !IsFile(disk, f)
  }

  lemma MadeDirsAre(disk: Disk, p: string, made: nat, q: string)
    ensures IsNode(MadeDirs(disk, p, made), q, false) <==> IsNode(disk, q, false)
    ensures IsNode(MadeDirs(disk, p, made), q, true) <==> IsNode(disk, q, true) || DirMade(disk, p, made, q)
  {
    if q in Chain(p) {
      forall f | f in Chain(p) && |f| == |q| ensures f == q {}
    }
  }

  lemma FilePlaced(disk: Disk, path: string, file: Node, q: string)
    requires file.File? && !IsNode(disk, path, true)
    ensures IsNode(disk[path := file], q, true) <==> IsNode(disk, q, true)
    ensures IsNode(disk[path := file], q, false) <==> IsNode(disk, q, false) || q == path
  {
  }

  /** A passing entry makes all it brings, and one that is skipped nothing. */
  lemma PassingMakes(before: seq<ZipEntry>, entry: ZipEntry, io: WriteIo, q: string, dir: bool)
    requires Passes(before, entry, io)
    ensures Makes(before, entry, io, q, dir) <==> Brings(entry, q, dir)
  {
    if EntryPath(entry).Some? && q in Chain(Folder(entry)) { ChainIs(Folder(entry), q); }
  }

  /** What placing an entry leaves, in terms of the disk it meets. */
  lemma PlacedAre(disk: Disk, entry: ZipEntry, io: WriteIo, q: string)
    requires NormalDisk(disk) && EntryPath(entry).Some?
    ensures var path, folder := EntryPath(entry).value, Folder(entry);
      var (placed, ok) := Placed(disk, entry, path, io);
      var open := ChainClear(disk, folder) && (entry.isDir || !IsNode(disk, path, true));
      && (ok <==> open && Completes(entry, io))
      && (IsNode(placed, q, true) <==> IsNode(disk, q, true) || DirMade(disk, folder, io.made, q))
      && (IsNode(placed, q, false) <==>
            IsNode(disk, q, false) || (!entry.isDir && q == path && open && |folder| <= io.made && io.created))
  {
    var path, folder := EntryPath(entry).value, Folder(entry);
    var made := MadeDirs(disk, folder, io.made);
    MadeDirsAre(disk, folder, io.made, q);
    if !entry.isDir && !IsNode(disk, path, true) {
      assert !IsNode(made, path, true) by {
        NormalizedIsNormal(Stripped(entry.name));
        NormalIsNonempty(path);
        NotInOwnParent(path);
        MadeDirsAre(disk, folder, io.made, path);
      }
      FilePlaced(made, path, File(io.written, io.digest), q);
      FilePlaced(made, path, File(entry.size, entry.sha256), q);
    }
    PlacedCases(disk, made, entry, path, io);
  }

  lemma PlacedCases(disk: Disk, made: Disk, entry: ZipEntry, path: string, io: WriteIo)
    requires EntryPath(entry) == Some(path) && made == MadeDirs(disk, Folder(entry), io.made)
    ensures Placed(disk, entry, path, io) ==
      if entry.isDir || !MadeAll(disk, Folder(entry), io.made) then (made, MadeAll(disk, Folder(entry), io.made))
      else if !io.created || IsNode(disk, path, true) then (made, false)
      else if !io.whole then (made[path := File(io.written, io.digest)], false)
      else (made[path := File(entry.size, entry.sha256)], true)
  {
  }

  lemma SameFiles(before: seq<ZipEntry>, disk: Disk, p: string)
    requires Holds(disk, before)
    ensures ChainClear(disk, p) <==> forall f :: f in Chain(p) ==> !Brought(before, f, false)
    ensures forall f :: f in Chain(p) ==> (IsFile(disk, f) <==> Brought(before, f, false))
  {
    forall f | f in Chain(p) ensures IsFile(disk, f) <==> Brought(before, f, false) {
      assert IsNode(disk, f, false) <==> Brought(before, f, false);
    }
  }

  lemma PlacedMakes(before: seq<ZipEntry>, disk: Disk, entry: ZipEntry, io: WriteIo, q: string, dir: bool)
    requires NormalDisk(disk) && Holds(disk, before) && Admitted(before, entry)
    ensures var (placed, ok) := Placed(disk, entry, EntryPath(entry).value, io);
      && (ok <==> Fits(before, entry) && Completes(entry, io))
      && (IsNode(placed, q, dir) <==> IsNode(disk, q, dir) || Makes(before, entry, io, q, dir))
  {
    PlacedAre(disk, entry, io, q);
    SameFiles(before, disk, Folder(entry));
    assert IsNode(disk, EntryPath(entry).value, true) <==> Brought(before, EntryPath(entry).value, true);
  }

  lemma EntryMakes(before: seq<ZipEntry>, disk: Disk, entry: ZipEntry, io: WriteIo, q: string, dir: bool)
    requires NormalDisk(disk) && Holds(disk, before) && DeclaredBytes(before) <= MAX_UNCOMPRESSED
    ensures var next := ExtractedEntry(disk, DeclaredBytes(before), entry, io);
      && (next.error.None? <==> Passes(before, entry, io))
      && (next.error.None? ==> next.total == DeclaredBytes(before + [entry]) <= MAX_UNCOMPRESSED)
      && (IsNode(next.disk, q, dir) <==> IsNode(disk, q, dir) || Makes(before, entry, io, q, dir))
  {
    DeclaredNext(before, entry);
    if Admitted(before, entry) { PlacedMakes(before, disk, entry, io, q, dir); }
  }

  lemma PassingHolds(before: seq<ZipEntry>, disk: Disk, entry: ZipEntry, io: WriteIo)
    requires NormalDisk(disk) && Holds(disk, before) && DeclaredBytes(before) <= MAX_UNCOMPRESSED
    requires Passes(before, entry, io)
    ensures Holds(ExtractedEntry(disk, DeclaredBytes(before), entry, io).disk, before + [entry])
  {
    var next := ExtractedEntry(disk, DeclaredBytes(before), entry, io).disk;
    forall q, dir ensures IsNode(next, q, dir) <==> Brought(before + [entry], q, dir) {
      EntryMakes(before, disk, entry, io, q, dir);
      PassingMakes(before, entry, io, q, dir);
      BroughtNext(before, entry, q, dir);
    }
  }

  // ----- Proofs: the archive -----

  lemma ComesNext(before: seq<ZipEntry>, entries: seq<ZipEntry>, ios: seq<WriteIo>, q: string, dir: bool)
    requires |entries| == |ios| && entries != []
    ensures Comes(before, entries, ios, q, dir) <==>
      if Passes(before, entries[0], ios[0]) then Comes(before + [entries[0]], entries[1..], ios[1..], q, dir)
      else Brought(before, q, dir) || Makes(before, entries[0], ios[0], q, dir)
  {
    var n := Passed(before, entries, ios);
    if Passes(before, entries[0], ios[0]) {
      assert before + entries[..n] == (before + [entries[0]]) + entries[1..][..n - 1];
    } else {
      assert before + entries[..0] == before;
    }
  }

  /** An extraction completes exactly if every entry goes through, and leaves exactly what the
      entries that go through bring and the one that stops it has made. */
  lemma {:induction false} ExtractedExactly(
    before: seq<ZipEntry>, disk: Disk, entries: seq<ZipEntry>, ios: seq<WriteIo>, q: string, dir: bool)
    requires |entries| == |ios| && NormalDisk(disk) && Holds(disk, before) && DeclaredBytes(before) <= MAX_UNCOMPRESSED
    ensures var after := Extracted(disk, DeclaredBytes(before), entries, ios);
      && (after.error.None? <==> Passed(before, entries, ios) == |entries|)
      && (IsNode(after.disk, q, dir) <==> Comes(before, entries, ios, q, dir))
    decreases |entries|
  {
    if entries == [] {
      assert before + [][..0] == before;
    } else {
      var next := ExtractedEntry(disk, DeclaredBytes(before), entries[0], ios[0]);
      EntryMakes(before, disk, entries[0], ios[0], q, dir);
      ComesNext(before, entries, ios, q, dir);
      if next.error.None? {
        EntryStaysInside(disk, DeclaredBytes(before), entries[0], ios[0]);
        PassingHolds(before, disk, entries[0], ios[0]);
        ExtractedExactly(before + [entries[0]], next.disk, entries[1..], ios[1..], q, dir);
      }
    }
  }

  /** The whole archive can be unpacked. */
  predicate Unpackable(archive: Archive, ios: seq<WriteIo>)
    requires ForEach(archive, ios)
  {
    archive.Ok? && |archive.value| <= MAX_ENTRIES && Passed([], archive.value, ios) == |archive.value|
  }

  predicate ComesOut(archive: Archive, ios: seq<WriteIo>, q: string, dir: bool)
    requires ForEach(archive, ios)
  {
    archive.Ok? && |archive.value| <= MAX_ENTRIES && Comes([], archive.value, ios, q, dir)
  }

  lemma UnpackedExactly(archive: Archive, ios: seq<WriteIo>, q: string, dir: bool)
    requires ForEach(archive, ios)
    ensures Unpacked(map[], archive, ios).error.None? <==> Unpackable(archive, ios)
    ensures IsNode(Unpacked(map[], archive, ios).disk, q, dir) <==> ComesOut(archive, ios, q, dir)
  {
    if archive.Ok? { ExtractedExactly([], map[], archive.value, ios, q, dir); }
  }

  // ----- The bytes -----

  function FileAt(disk: Disk, q: string): Option<Node> { if IsNode(disk, q, false) then Some(disk[q]) else None }

  /** What the last of the entries for file `q` put there. */
  function LastBytes(entries: seq<ZipEntry>, q: string): Option<Node> {
    if entries == [] then None
    else
      var last := entries[|entries| - 1];
      if Brings(last, q, false) then Some(File(last.size, last.sha256)) else LastBytes(entries[..|entries| - 1], q)
  }

  /** What is in a file that the entry has created. */
  function Written(entry: ZipEntry, io: WriteIo): Node {
    if io.whole then File(entry.size, entry.sha256) else File(io.written, io.digest)
  }

  function BytesFrom(before: seq<ZipEntry>, entries: seq<ZipEntry>, ios: seq<WriteIo>, q: string): Option<Node>
    requires |entries| == |ios|
  {
    var n := Passed(before, entries, ios);
    if n < |entries| && Makes(before + entries[..n], entries[n], ios[n], q, false) then Some(Written(entries[n], ios[n]))
    else LastBytes(before + entries[..n], q)
  }

  ghost predicate HoldsBytes(disk: Disk, entries: seq<ZipEntry>) {
    forall q :: FileAt(disk, q) == LastBytes(entries, q)
  }

  lemma EntryWrites(before: seq<ZipEntry>, disk: Disk, entry: ZipEntry, io: WriteIo, q: string)
    requires NormalDisk(disk) && Holds(disk, before) && DeclaredBytes(before) <= MAX_UNCOMPRESSED
    ensures FileAt(ExtractedEntry(disk, DeclaredBytes(before), entry, io).disk, q) ==
      if Makes(before, entry, io, q, false) then Some(Written(entry, io)) else FileAt(disk, q)
  {
    EntryMakes(before, disk, entry, io, q, false);
    if Admitted(before, entry) {
      var made := MadeDirs(disk, Folder(entry), io.made);
      PlacedCases(disk, made, entry, EntryPath(entry).value, io);
      MadeDirsKeep(disk, Folder(entry), io.made, q);
    }
  }

  lemma MadeDirsKeep(disk: Disk, p: string, made: nat, q: string)
    ensures q in disk ==> q in MadeDirs(disk, p, made) && MadeDirs(disk, p, made)[q] == disk[q]
  {
  }

  lemma LastBytesNext(before: seq<ZipEntry>, entry: ZipEntry, q: string)
    ensures LastBytes(before + [entry], q) ==
      if Brings(entry, q, false) then Some(File(entry.size, entry.sha256)) else LastBytes(before, q)
  {
    assert (before + [entry])[..|before|] == before;
  }

  lemma PassingHoldsBytes(before: seq<ZipEntry>, disk: Disk, entry: ZipEntry, io: WriteIo)
    requires NormalDisk(disk) && Holds(disk, before) && HoldsBytes(disk, before) && DeclaredBytes(before) <= MAX_UNCOMPRESSED
    requires Passes(before, entry, io)
    ensures HoldsBytes(ExtractedEntry(disk, DeclaredBytes(before), entry, io).disk, before + [entry])
  {
    var next := ExtractedEntry(disk, DeclaredBytes(before), entry, io).disk;
    forall q ensures FileAt(next, q) == LastBytes(before + [entry], q) {
      assert FileAt(disk, q) == LastBytes(before, q);
      EntryWrites(before, disk, entry, io, q);
      PassingMakes(before, entry, io, q, false);
      LastBytesNext(before, entry, q);
    }
  }

  lemma BytesNext(before: seq<ZipEntry>, entries: seq<ZipEntry>, ios: seq<WriteIo>, q: string)
    requires |entries| == |ios| && entries != []
    ensures BytesFrom(before, entries, ios, q) ==
      if Passes(before, entries[0], ios[0]) then BytesFrom(before + [entries[0]], entries[1..], ios[1..], q)
      else if Makes(before, entries[0], ios[0], q, false) then Some(Written(entries[0], ios[0]))
      else LastBytes(before, q)
  {
    var n := Passed(before, entries, ios);
    if Passes(before, entries[0], ios[0]) {
      assert before + entries[..n] == (before + [entries[0]]) + entries[1..][..n - 1];
    } else {
      assert before + entries[..0] == before;
    }
  }

  /** A file holds exactly the bytes of the last entry for it that went through, or as many as the
      entry that stopped has written over them. */
  lemma {:induction false} ExtractedBytesExactly(
    before: seq<ZipEntry>, disk: Disk, entries: seq<ZipEntry>, ios: seq<WriteIo>, q: string)
    requires |entries| == |ios| && NormalDisk(disk) && DeclaredBytes(before) <= MAX_UNCOMPRESSED
    requires Holds(disk, before) && HoldsBytes(disk, before)
    ensures FileAt(Extracted(disk, DeclaredBytes(before), entries, ios).disk, q) == BytesFrom(before, entries, ios, q)
    decreases |entries|
  {
    if entries == [] {
      assert before + [][..0] == before;
    } else {
      var next := ExtractedEntry(disk, DeclaredBytes(before), entries[0], ios[0]);
      EntryMakes(before, disk, entries[0], ios[0], q, false);
      EntryWrites(before, disk, entries[0], ios[0], q);
      BytesNext(before, entries, ios, q);
      if next.error.None? {
        EntryStaysInside(disk, DeclaredBytes(before), entries[0], ios[0]);
        PassingHolds(before, disk, entries[0], ios[0]);
        PassingHoldsBytes(before, disk, entries[0], ios[0]);
        ExtractedBytesExactly(before + [entries[0]], next.disk, entries[1..], ios[1..], q);
      }
    }
  }

  /** The file that comes out at `q`, if one does. */
  function FileOut(archive: Archive, ios: seq<WriteIo>, q: string): Option<Node>
    requires ForEach(archive, ios)
  {
    if archive.Ok? && |archive.value| <= MAX_ENTRIES then BytesFrom([], archive.value, ios, q) else None
  }

  lemma UnpackedBytesExactly(archive: Archive, ios: seq<WriteIo>, q: string)
    requires ForEach(archive, ios)
    ensures FileAt(Unpacked(map[], archive, ios).disk, q) == FileOut(archive, ios, q)
  {
    if archive.Ok? { ExtractedBytesExactly([], map[], archive.value, ios, q); }
  }

  /** Some entry goes to `q`, or below it. */
  ghost predicate OnTheWay(entries: seq<ZipEntry>, q: string) {
    exists k :: 0 <= k < |entries| && EntryPath(entries[k]).Some? && q in Chain(EntryPath(entries[k]).value)
  }

  lemma BringsOnTheWay(entry: ZipEntry, q: string, dir: bool)
    requires EntryPath(entry).Some? && (Brings(entry, q, dir) || q in Chain(Folder(entry)))
    ensures q in Chain(EntryPath(entry).value)
  {
    var path := EntryPath(entry).value;
    NormalizedIsNormal(Stripped(entry.name));
    NormalIsNonempty(path);
    ChainIs(path, q);
    if q in Chain(Parent(path)) {
      ChainIs(Parent(path), q);
      ParentIsAbove(path);
      if q != Parent(path) { UnderTrans(path, Parent(path), q); }
    }
  }

  /** So whatever stands is on the way to an entry. */
  lemma OnlyEntriesStand(archive: Archive, ios: seq<WriteIo>, q: string)
    requires ForEach(archive, ios) && q in Unpacked(map[], archive, ios).disk
    ensures archive.Ok? && OnTheWay(archive.value, q)
  {
    var dir := Unpacked(map[], archive, ios).disk[q].Dir?;
    UnpackedExactly(archive, ios, q, dir);
    var entries, n := archive.value, Passed([], archive.value, ios);
    assert [] + entries[..n] == entries[..n];
    if Brought(entries[..n], q, dir) {
      var k :| 0 <= k < n && Brings(entries[..n][k], q, dir);
      BringsOnTheWay(entries[k], q, dir);
    } else {
      BringsOnTheWay(entries[n], q, dir);
    }
  }
}
