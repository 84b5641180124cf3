/** The manifest built from the rows, and the comparison of rows and disk that an admin can
    ask for. */
module BundleManifest {
  import opened Wrappers
  import opened Paths
  import opened BundleTree
  import opened BundleAlignment
  import opened BundleSteps
  import opened BundleContents
  import opened BundleIngest
  import opened BundleScan
  import opened BundleUpsert

  /** A row as it is read back. */
  datatype Listed = Listed(id: ArtifactId, row: Artifact)

  /** A listing of the rows: each of them, once. */
  ghost predicate Lists(rows: Rows, listing: seq<Listed>) {
    && (forall k :: 0 <= k < |listing| ==> listing[k].id in rows && rows[listing[k].id] == listing[k].row)
    && (forall i, j :: 0 <= i < j < |listing| ==> listing[i].id != listing[j].id)
    && (forall id :: id in rows ==> exists k :: 0 <= k < |listing| && listing[k].id == id)
  }

  // ----- diff_tree -----

  predicate IsMissing(listed: Listed, disk: Disk) { !listed.row.isDir && listed.row.path !in disk }

  ghost predicate IsTracked(listing: seq<Listed>, path: string) {
    exists k :: 0 <= k < |listing| && !listing[k].row.isDir && listing[k].row.path == path
  }

  ghost predicate IsOrphan(listing: seq<Listed>, scan: seq<Artifact>, path: string) {
    !IsTracked(listing, path) && exists k :: 0 <= k < |scan| && !scan[k].isDir && scan[k].path == path
  }

  /** `diff_tree`: the file rows with nothing on disk, and the files no file row tracks. */
  method DiffTree(listing: seq<Listed>, disk: Disk, scan: seq<Artifact>)
    returns (missing: seq<ArtifactId>, orphaned: seq<string>)
    ensures forall id :: id in missing <==> exists k :: 0 <= k < |listing| && listing[k].id == id && IsMissing(listing[k], disk)
    ensures forall path :: path in orphaned <==> IsOrphan(listing, scan, path)
  {
    missing, orphaned := [], [];
    var tracked: set<string> := {};
    for i := 0 to |listing|
      invariant forall id :: id in missing <==> exists k :: 0 <= k < i && listing[k].id == id && IsMissing(listing[k], disk)
      invariant forall path :: path in tracked <==> exists k :: 0 <= k < i && !listing[k].row.isDir && listing[k].row.path == path
    {
      var row := listing[i].row;
      if row.isDir { continue; }
      if row.path !in disk { missing := missing + [listing[i].id]; }
      tracked := tracked + {row.path};
    }
    assert forall path :: path in tracked <==> IsTracked(listing, path);
    for i := 0 to |scan|
      invariant forall path :: path in orphaned <==>
        !IsTracked(listing, path) && exists k :: 0 <= k < i && !scan[k].isDir && scan[k].path == path
    {
      if !scan[i].isDir && scan[i].path !in tracked { orphaned := orphaned + [scan[i].path]; }
    }
  }

  /** Aligned rows and disk: nothing is missing. */
  lemma AlignedMissesNothing(b: Build, listing: seq<Listed>, k: nat)
    requires Aligned(b) && Lists(b.rows, listing) && k < |listing|
    ensures !IsMissing(listing[k], b.disk)
  {
    assert RowOk(b, listing[k].id);
  }

  /** After an ingest every file found is tracked too. */
  lemma IngestedHasNoOrphan(rows: Rows, disk: Disk, after: Rows, listing: seq<Listed>, scan: seq<Artifact>, from: seq<string>, path: string)
    requires NormalDisk(disk) && Records(disk, scan, from) && Lists(after, listing)
    requires Ingested(rows, disk, after)
    ensures !IsOrphan(listing, scan, path)
  {
    if exists k :: 0 <= k < |scan| && !scan[k].isDir && scan[k].path == path {
      var k :| 0 <= k < |scan| && !scan[k].isDir && scan[k].path == path;
      NormalScanIsDistinct(disk, scan, from);
      assert path in disk && disk[path].File?;
      var id :| KeepsRow(rows, after, id, path);
      assert FromScan(rows, disk, after[id]);
      var l :| 0 <= l < |listing| && listing[l].id == id;
      assert !listing[l].row.isDir && listing[l].row.path == path;
    }
  }

  // ----- build_manifest -----

  datatype ManifestEntry = ManifestEntry(
    path: string, name: string, size: int, isDir: bool,
    sha256: Option<string>, url: Option<string>, downloadOnce: bool)

  /** An insertion-ordered map from category to entries. */
  datatype Manifest = Manifest(order: seq<string>, groups: map<string, seq<ManifestEntry>>)

  function TrimmedEnd(s: string): string {
    if s != "" && s[|s| - 1] == '/' then TrimmedEnd(s[..|s| - 1]) else s
  }

  function PublicUrl(prefix: string, slug: string, path: string): string {
    TrimmedEnd(prefix) + "/builds/" + slug + "/files/" + Unified(path)
  }

  function CategoryOf(row: Artifact): string { if row.category == "" then "root" else row.category }

  function EntryOf(row: Artifact, prefix: string, slug: string): ManifestEntry {
    ManifestEntry(row.path, row.name, row.size, row.isDir,
                  if row.isDir then None else row.sha256,
                  if row.isDir then None else Some(PublicUrl(prefix, slug, row.path)), row.downloadOnce)
  }

  /** The rows whose path stands on disk. */
  function Present(artifacts: seq<Artifact>, disk: Disk): seq<Artifact> {
    if artifacts == [] then []
    else Present(artifacts[..|artifacts| - 1], disk) + (if artifacts[|artifacts| - 1].path in disk then [artifacts[|artifacts| - 1]] else [])
  }

  /** The entries of one category, in the order of the rows. */
  function GroupOf(artifacts: seq<Artifact>, category: string, prefix: string, slug: string): seq<ManifestEntry> {
    if artifacts == [] then []
    else
      var n := |artifacts| - 1;
      GroupOf(artifacts[..n], category, prefix, slug)
      + (if CategoryOf(artifacts[n]) == category then [EntryOf(artifacts[n], prefix, slug)] else [])
  }

  /** The categories in the order they first appear. */
  function CategoriesOf(artifacts: seq<Artifact>): seq<string> {
    if artifacts == [] then []
    else
      var n := |artifacts| - 1;
      var before := CategoriesOf(artifacts[..n]);
      if CategoryOf(artifacts[n]) in before then before else before + [CategoryOf(artifacts[n])]
  }

  function FilesIn(artifacts: seq<Artifact>): nat {
    if artifacts == [] then 0
    else FilesIn(artifacts[..|artifacts| - 1]) + (if artifacts[|artifacts| - 1].isDir then 0 else 1)
  }

  function BytesIn(artifacts: seq<Artifact>): nat {
    if artifacts == [] then 0
    else
      var last := artifacts[|artifacts| - 1];
      BytesIn(artifacts[..|artifacts| - 1]) + (if last.isDir || last.size < 0 then 0 else last.size)
  }

  /** The manifest is the grouping of these rows. */
  ghost predicate Groups(manifest: Manifest, artifacts: seq<Artifact>, prefix: string, slug: string) {
    && manifest.order == CategoriesOf(artifacts)
    && (forall c :: c in manifest.groups <==> c in manifest.order)
    && (forall c :: c in manifest.order ==> manifest.groups[c] == GroupOf(artifacts, c, prefix, slug))
  }

  /** `manifest.entry(category).or_default().push(entry)`. */
  function Pushed(manifest: Manifest, category: string, entry: ManifestEntry): Manifest {
    if category in manifest.groups then manifest.(groups := manifest.groups[category := manifest.groups[category] + [entry]])
    else Manifest(manifest.order + [category], manifest.groups[category := [entry]])
  }

  /** Manifest, count and size are those of these rows. */
  ghost predicate Built(manifest: Manifest, filesCount: int, totalSize: int, artifacts: seq<Artifact>, prefix: string, slug: string) {
    Groups(manifest, artifacts, prefix, slug) && filesCount == FilesIn(artifacts) && totalSize == BytesIn(artifacts)
  }

  method BuildManifest(artifacts: seq<Artifact>, disk: Disk, prefix: string, slug: string)
    returns (manifest: Manifest, filesCount: int, totalSize: int)
    ensures Built(manifest, filesCount, totalSize, Present(artifacts, disk), prefix, slug)
  {
    manifest, filesCount, totalSize := Manifest([], map[]), 0, 0;
    for i := 0 to |artifacts|
      invariant Built(manifest, filesCount, totalSize, Present(artifacts[..i], disk), prefix, slug)
    {
      var artifact := artifacts[i];
      ghost var before, after := Present(artifacts[..i], disk), Present(artifacts[..i + 1], disk);
      PresentNext(artifacts, i, disk);
      if artifact.path !in disk {
        assert after == before;
        continue;
      }
      BuiltNext(manifest, filesCount, totalSize, before, artifact, prefix, slug);
      if !artifact.isDir {
        filesCount := filesCount + 1;
        totalSize := totalSize + if artifact.size < 0 then 0 else artifact.size;
      }
      manifest := Pushed(manifest, CategoryOf(artifact), EntryOf(artifact, prefix, slug));
      assert Built(manifest, filesCount, totalSize, after, prefix, slug);
    }
    assert artifacts[..|artifacts|] == artifacts;
  }

  lemma BuiltNext(manifest: Manifest, filesCount: int, totalSize: int, before: seq<Artifact>, artifact: Artifact, prefix: string, slug: string)
    requires Built(manifest, filesCount, totalSize, before, prefix, slug)
    ensures Built(Pushed(manifest, CategoryOf(artifact), EntryOf(artifact, prefix, slug)),
      if artifact.isDir then filesCount else filesCount + 1,
      if artifact.isDir || artifact.size < 0 then totalSize else totalSize + artifact.size,
      before + [artifact], prefix, slug)
  {
    PushedGroups(manifest, before, artifact, prefix, slug);
    assert (before + [artifact])[..|before|] == before;
  }

  lemma PresentNext(artifacts: seq<Artifact>, i: nat, disk: Disk)
    requires i < |artifacts|
    ensures Present(artifacts[..i + 1], disk)
      == if artifacts[i].path in disk then Present(artifacts[..i], disk) + [artifacts[i]] else Present(artifacts[..i], disk)
  {
    assert artifacts[..i + 1][..i] == artifacts[..i];
  }

  lemma PushedGroups(manifest: Manifest, before: seq<Artifact>, artifact: Artifact, prefix: string, slug: string)
    requires Groups(manifest, before, prefix, slug)
    ensures Groups(Pushed(manifest, CategoryOf(artifact), EntryOf(artifact, prefix, slug)), before + [artifact], prefix, slug)
  {
    assert (before + [artifact])[..|before|] == before;
    NoGroupBefore(before, CategoryOf(artifact), prefix, slug);
  }

  lemma {:induction false} NoGroupBefore(artifacts: seq<Artifact>, category: string, prefix: string, slug: string)
    ensures category in CategoriesOf(artifacts) <==> GroupOf(artifacts, category, prefix, slug) != []
    decreases |artifacts|
  {
    if artifacts != [] { NoGroupBefore(artifacts[..|artifacts| - 1], category, prefix, slug); }
  }

  // ----- A partition -----

  function Entries(artifacts: seq<Artifact>, prefix: string, slug: string): seq<ManifestEntry> {
    if artifacts == [] then []
    else Entries(artifacts[..|artifacts| - 1], prefix, slug) + [EntryOf(artifacts[|artifacts| - 1], prefix, slug)]
  }

  /** The groups, one after the other. */
  function Flat(order: seq<string>, groups: map<string, seq<ManifestEntry>>): seq<ManifestEntry>
    requires forall c :: c in order ==> c in groups
  {
    if order == [] then [] else Flat(order[..|order| - 1], groups) + groups[order[|order| - 1]]
  }

  ghost predicate NoRepeats(order: seq<string>) {
    forall i, j :: 0 <= i < j < |order| ==> order[i] != order[j]
  }

  lemma {:induction false} CategoriesDiffer(artifacts: seq<Artifact>)
    ensures NoRepeats(CategoriesOf(artifacts))
    decreases |artifacts|
  {
    if artifacts != [] { CategoriesDiffer(artifacts[..|artifacts| - 1]); }
  }

  lemma {:induction false} FlatElsewhere(order: seq<string>, groups: map<string, seq<ManifestEntry>>, c: string, group: seq<ManifestEntry>)
    requires (forall d :: d in order ==> d in groups) && c !in order
    ensures Flat(order, groups[c := group]) == Flat(order, groups)
    decreases |order|
  {
    if order != [] { FlatElsewhere(order[..|order| - 1], groups, c, group); }
  }

  lemma {:induction false} FlatGrows(order: seq<string>, groups: map<string, seq<ManifestEntry>>, c: string, entry: ManifestEntry)
    requires (forall d :: d in order ==> d in groups) && c in order && NoRepeats(order)
    ensures multiset(Flat(order, groups[c := groups[c] + [entry]])) == multiset(Flat(order, groups)) + multiset{entry}
    decreases |order|
  {
    var n := |order| - 1;
    if order[n] == c {
      FlatElsewhere(order[..n], groups, c, groups[c] + [entry]);
      assert Flat(order[..n], groups) + (groups[c] + [entry]) == Flat(order, groups) + [entry];
    } else {
      FlatGrows(order[..n], groups, c, entry);
    }
  }

  /** The groups of the manifest are a partition of the rows: each row's entry stands in one of
      them, once. */
  lemma {:induction false} GroupsPartition(manifest: Manifest, artifacts: seq<Artifact>, prefix: string, slug: string)
    requires Groups(manifest, artifacts, prefix, slug)
    ensures multiset(Flat(manifest.order, manifest.groups)) == multiset(Entries(artifacts, prefix, slug))
    decreases |artifacts|
  {
    if artifacts != [] {
      var n := |artifacts| - 1;
      var before, last := artifacts[..n], artifacts[n];
      var c, entry := CategoryOf(last), EntryOf(last, prefix, slug);
      var less := Grouped(before, prefix, slug);
      GroupsPartition(less, before, prefix, slug);
      PushedGroups(less, before, last, prefix, slug);
      assert before + [last] == artifacts;
      SameGroups(manifest, Pushed(less, c, entry), artifacts, prefix, slug);
      CategoriesDiffer(before);
      if c in less.groups {
        FlatGrows(less.order, less.groups, c, entry);
      } else {
        assert (less.order + [c])[..|less.order|] == less.order;
        FlatElsewhere(less.order, less.groups, c, [entry]);
      }
    }
  }

  /** The grouping of the rows, all at once. */
  function Grouped(artifacts: seq<Artifact>, prefix: string, slug: string): Manifest {
    Manifest(CategoriesOf(artifacts), map c | c in CategoriesOf(artifacts) :: GroupOf(artifacts, c, prefix, slug))
  }

  lemma SameGroups(a: Manifest, b: Manifest, artifacts: seq<Artifact>, prefix: string, slug: string)
    requires Groups(a, artifacts, prefix, slug) && Groups(b, artifacts, prefix, slug)
    ensures a == b
  {
    assert a.groups.Keys == b.groups.Keys;
  }

  // ----- Totals -----

  function RowsOf(listing: seq<Listed>): seq<Artifact> {
    if listing == [] then [] else RowsOf(listing[..|listing| - 1]) + [listing[|listing| - 1].row]
  }

  ghost function FilePaths(listing: seq<Listed>): set<string> {
    set k | 0 <= k < |listing| && !listing[k].row.isDir :: listing[k].row.path
  }

  ghost function FilesOn(disk: Disk): set<string> { set q | q in disk && disk[q].File? }

  function SizeAt(disk: Disk, q: string): int { if q in disk && disk[q].File? && disk[q].size >= 0 then disk[q].size else 0 }

  ghost function BytesOn(disk: Disk, files: set<string>): int {
    if files == {} then 0
    else
      var q :| q in files;
      SizeAt(disk, q) + BytesOn(disk, files - {q})
  }

  lemma {:induction false} BytesWithout(disk: Disk, files: set<string>, p: string)
    requires p in files
    ensures BytesOn(disk, files) == SizeAt(disk, p) + BytesOn(disk, files - {p})
    decreases |files|
  {
    var q :| q in files && BytesOn(disk, files) == SizeAt(disk, q) + BytesOn(disk, files - {q});
    if q != p {
      BytesWithout(disk, files - {q}, p);
      BytesWithout(disk, files - {p}, q);
      assert files - {q} - {p} == files - {p} - {q};
    }
  }

  lemma {:induction false} AllPresent(listing: seq<Listed>, disk: Disk)
    requires forall k :: 0 <= k < |listing| ==> listing[k].row.path in disk
    ensures Present(RowsOf(listing), disk) == RowsOf(listing)
    decreases |listing|
  {
    if listing != [] {
      var n := |listing| - 1;
      AllPresent(listing[..n], disk);
      assert RowsOf(listing)[..|RowsOf(listing)| - 1] == RowsOf(listing[..n]);
    }
  }

  ghost predicate PathsDiffer(listing: seq<Listed>) {
    forall i, j :: 0 <= i < j < |listing| ==> listing[i].row.path != listing[j].row.path
  }

  lemma FilePathsGrow(listing: seq<Listed>)
    requires listing != [] && PathsDiffer(listing)
    ensures var n := |listing| - 1;
      && listing[n].row.path !in FilePaths(listing[..n])
      && FilePaths(listing) == FilePaths(listing[..n]) + if listing[n].row.isDir then {} else {listing[n].row.path}
  {
    var n := |listing| - 1;
    forall k | 0 <= k < n && !listing[k].row.isDir ensures listing[k].row.path in FilePaths(listing[..n]) {
      assert listing[..n][k] == listing[k];
    }
  }

  lemma {:induction false} TotalsOfListing(listing: seq<Listed>, disk: Disk)
    requires PathsDiffer(listing)
    requires forall k :: 0 <= k < |listing| ==> Truthful(listing[k].row, disk)
    ensures FilesIn(RowsOf(listing)) == |FilePaths(listing)| && BytesIn(RowsOf(listing)) == BytesOn(disk, FilePaths(listing))
    decreases |listing|
  {
    if listing != [] {
      var n := |listing| - 1;
      TotalsOfListing(listing[..n], disk);
      FilePathsGrow(listing);
      TotalsGrow(RowsOf(listing[..n]), listing[n].row, disk, FilePaths(listing[..n]));
    }
  }

  lemma TotalsGrow(before: seq<Artifact>, last: Artifact, disk: Disk, files: set<string>)
    requires FilesIn(before) == |files| && BytesIn(before) == BytesOn(disk, files) && last.path !in files && Truthful(last, disk)
    ensures var more := files + if last.isDir then {} else {last.path};
      FilesIn(before + [last]) == |more| && BytesIn(before + [last]) == BytesOn(disk, more)
  {
    assert (before + [last])[..|before|] == before;
    if last.isDir {
      assert files + {} == files;
    } else {
      BytesWithout(disk, files + {last.path}, last.path);
      assert files + {last.path} - {last.path} == files;
    }
  }

  /** After an ingest the manifest holds every row, and its count and size are the number of
      files on disk and the sum of their sizes. */
  lemma IngestedTotals(rows: Rows, disk: Disk, after: Rows, listing: seq<Listed>, manifest: Manifest,
                       filesCount: int, totalSize: int, prefix: string, slug: string)
    requires NormalDisk(disk) && Ingested(rows, disk, after) && Lists(after, listing)
    requires Built(manifest, filesCount, totalSize, Present(RowsOf(listing), disk), prefix, slug)
    ensures Groups(manifest, RowsOf(listing), prefix, slug)
    ensures filesCount == |FilesOn(disk)| && totalSize == BytesOn(disk, FilesOn(disk))
  {
    IngestAligns(rows, disk, after);
    forall k | 0 <= k < |listing| ensures listing[k].row.path in disk && Truthful(listing[k].row, disk) {
      assert FromScan(rows, disk, after[listing[k].id]);
      assert RowOk(Build(after, disk), listing[k].id);
    }
    AllPresent(listing, disk);
    forall i, j | 0 <= i < j < |listing| ensures listing[i].row.path != listing[j].row.path {
      assert listing[i].id != listing[j].id;
      assert RowAt(after, listing[i].id, listing[i].row.path);
      if listing[i].row.path == listing[j].row.path { assert RowAt(after, listing[j].id, listing[i].row.path); }
    }
    TotalsOfListing(listing, disk);
    ListedFiles(rows, disk, after, listing);
  }

  lemma ListedFiles(rows: Rows, disk: Disk, after: Rows, listing: seq<Listed>)
    requires NormalDisk(disk) && Ingested(rows, disk, after) && Lists(after, listing)
    ensures FilePaths(listing) == FilesOn(disk)
  {
    forall k | 0 <= k < |listing| && !listing[k].row.isDir ensures listing[k].row.path in FilesOn(disk) {
      assert FromScan(rows, disk, after[listing[k].id]);
    }
    forall q | q in FilesOn(disk) ensures q in FilePaths(listing) {
      var id :| KeepsRow(rows, after, id, q);
      assert FromScan(rows, disk, after[id]);
      var k :| 0 <= k < |listing| && listing[k].id == id;
      assert listing[k].row.path == q && !listing[k].row.isDir;
    }
  }
}
