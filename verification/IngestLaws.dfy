/** What comes out of an archive, entry by entry, stated on the names and sizes it declares. */
module IngestLaws {
  import opened Wrappers
  import opened Paths
  import opened BundleTree
  import opened BundleAlignment
  import opened BundleBatches
  import opened BundleSteps
  import opened BundleIngest
  import opened BundleExtracted
  import opened PathLaws

  /** The folder macOS adds to its archives, and all in it. */
  ghost predicate InMacFolder(name: string) { name == "__MACOSX" || exists rest :: name == "__MACOSX/" + rest }

  lemma MacFolderIs(name: string)
    ensures MacJunk(name) <==> InMacFolder(name)
  {
    if "__MACOSX/" <= name { assert name == "__MACOSX/" + name[9..]; }
  }

  /** Nothing of it ever comes out: such an entry goes through, and makes neither file nor folder. */
  lemma NothingFromTheMacFolder(before: seq<ZipEntry>, entry: ZipEntry, io: WriteIo, q: string, dir: bool)
    requires InMacFolder(entry.name) && entry.readable
    ensures Passes(before, entry, io) && !Brings(entry, q, dir) && !Makes(before, entry, io, q, dir)
  {
    MacFolderIs(entry.name);
  }

  predicate OnlySlashes(s: string) { forall i :: 0 <= i < |s| ==> s[i] == '/' }

  lemma {:induction false} StrippedIs(name: string) returns (slashes: string)
    ensures OnlySlashes(slashes) && name == slashes + Stripped(name)
    ensures Stripped(name) == "" || Stripped(name)[0] != '/'
  {
    slashes := "";
    if name != "" && name[0] == '/' {
      slashes := StrippedIs(name[1..]);
      slashes := [name[0]] + slashes;
    }
  }

  lemma {:induction false} StripsAll(slashes: string, rest: string)
    requires OnlySlashes(slashes) && (rest == "" || rest[0] != '/')
    ensures Stripped(slashes + rest) == rest
  {
    if slashes == "" {
      assert slashes + rest == rest;
    } else {
      assert (slashes + rest)[1..] == slashes[1..] + rest;
      StripsAll(slashes[1..], rest);
    }
  }

  /** Any other entry goes to its normal path, leading slashes apart; one whose path is only dots and
      slashes is passed over, and one that would leave the build, or is absolute the other way round,
      stops the extraction. */
  lemma EntriesGoToTheirPaths(before: seq<ZipEntry>, entry: ZipEntry, io: WriteIo, slashes: string, rest: string)
    requires entry.name == slashes + rest && OnlySlashes(slashes) && (rest == "" || rest[0] != '/')
    requires !InMacFolder(entry.name)
    ensures EntryPath(entry) == match Normalized(rest) case Ok(path) => Some(path) case Err(_) => None
    ensures Normalized(rest) == Err(Required) ==> (Passes(before, entry, io) <==> entry.readable)
    ensures Normalized(rest) in {Err(Escapes), Err(MustBeRelative)} ==> !Passes(before, entry, io)
    ensures Normalized(rest).Err? ==> forall q, dir :: !Makes(before, entry, io, q, dir)
  {
    MacFolderIs(entry.name);
    StripsAll(slashes, rest);
    SegmentIsNormal("");
  }

  /** An entry that cannot be opened stops the extraction and makes nothing. */
  lemma UnreadableStops(before: seq<ZipEntry>, entry: ZipEntry, io: WriteIo, q: string, dir: bool)
    requires !entry.readable
    ensures !Passes(before, entry, io) && !Makes(before, entry, io, q, dir)
  {
  }

  /** More than a hundred thousand entries, or more than ten gibibytes declared up to an entry, stop
      it too, and that entry makes nothing. */
  lemma LimitsStop(archive: Archive, ios: seq<WriteIo>, before: seq<ZipEntry>, entry: ZipEntry, io: WriteIo, q: string, dir: bool)
    requires ForEach(archive, ios)
    ensures archive.Ok? && |archive.value| > 100_000 ==> !Unpackable(archive, ios) && !ComesOut(archive, ios, q, dir)
    ensures EntryPath(entry).Some? && DeclaredBytes(before) + entry.declared > 10_737_418_240 ==>
      !Passes(before, entry, io) && !Makes(before, entry, io, q, dir)
  {
  }

  /** What is declared is counted over the entries that have a path or would leave the build, but not
      over those passed over. */
  lemma DeclaredIsCounted(before: seq<ZipEntry>, entry: ZipEntry)
    ensures EntryPath(entry).Some? ==> DeclaredBytes(before + [entry]) == DeclaredBytes(before) + entry.declared
    ensures InMacFolder(entry.name) ==> DeclaredBytes(before + [entry]) == DeclaredBytes(before)
  {
    MacFolderIs(entry.name);
    DeclaredNext(before, entry);
  }

  /** Otherwise an entry within the limits goes through exactly if no earlier entry is in its way and
      the filesystem does its part, and then its folders are there, and its file with its bytes. */
  lemma EntriesGoThroughExactly(before: seq<ZipEntry>, entry: ZipEntry, io: WriteIo)
    requires entry.readable && EntryPath(entry).Some? && DeclaredBytes(before) + entry.declared <= 10_737_418_240
    ensures var path := EntryPath(entry).value;
      var folder := if entry.isDir then path else Parent(path);
      var free := (forall f :: f in Chain(folder) ==> !Brought(before, f, false)) && (entry.isDir || !Brought(before, path, true));
      var done := |folder| <= io.made && (entry.isDir || (io.created && io.whole));
      && (Passes(before, entry, io) <==> free && done)
      && (forall q :: Brings(entry, q, true) <==> q in Chain(folder))
      && (forall q :: Brings(entry, q, false) <==> !entry.isDir && q == path)
      && Written(entry, io) == (if io.whole then File(entry.size, entry.sha256) else File(io.written, io.digest))
  {
  }
}
