/** What the manifest says of each file, stated on the rows. */
module ManifestLaws {
  import opened Wrappers
  import opened Paths
  import opened BundleTree
  import opened BundleManifest

  predicate OnlySlashes(s: string) { forall i :: 0 <= i < |s| ==> s[i] == '/' }

  /** The prefix without the slashes at its end. */
  lemma {:induction false} TrimmedEndIs(s: string) returns (slashes: string)
    ensures OnlySlashes(slashes) && s == TrimmedEnd(s) + slashes
    ensures TrimmedEnd(s) == "" || TrimmedEnd(s)[|TrimmedEnd(s)| - 1] != '/'
    decreases |s|
  {
    slashes := "";
    if s != "" && s[|s| - 1] == '/' {
      slashes := TrimmedEndIs(s[..|s| - 1]);
      slashes := slashes + [s[|s| - 1]];
    }
  }

  /** An entry says of its row what the launcher needs: path, name, kind, size and whether to download
      it once; and for a file its hash, and its address under the prefix and the build's slug. */
  lemma EntryTells(row: Artifact, prefix: string, slug: string)
    ensures var e := EntryOf(row, prefix, slug);
      && e.path == row.path && e.name == row.name && e.size == row.size && e.isDir == row.isDir && e.downloadOnce == row.downloadOnce
      && (row.isDir ==> e.sha256.None? && e.url.None?)
      && (!row.isDir ==> e.sha256 == row.sha256)
      && (!row.isDir && '\\' !in row.path ==>
            e.url == Some(TrimmedEnd(prefix) + "/builds/" + slug + "/files/" + row.path))
  {
    if '\\' !in row.path { UnifiedStable(row.path); }
  }

  /** The entry of row `k` stands in the group of its category, "root" when it has none. */
  ghost predicate StandsIn(manifest: Manifest, row: Artifact, prefix: string, slug: string) {
    var category := if row.category == "" then "root" else row.category;
    category in manifest.order && category in manifest.groups && EntryOf(row, prefix, slug) in manifest.groups[category]
  }

  lemma {:induction false} InItsGroup(artifacts: seq<Artifact>, k: nat, prefix: string, slug: string)
    requires k < |artifacts|
    ensures CategoryOf(artifacts[k]) in CategoriesOf(artifacts)
    ensures EntryOf(artifacts[k], prefix, slug) in GroupOf(artifacts, CategoryOf(artifacts[k]), prefix, slug)
    decreases |artifacts|
  {
    var n := |artifacts| - 1;
    if k < n { InItsGroup(artifacts[..n], k, prefix, slug); }
  }

  lemma {:induction false} PresentAre(artifacts: seq<Artifact>, disk: Disk, row: Artifact)
    ensures row in Present(artifacts, disk) <==> row in artifacts && row.path in disk
    decreases |artifacts|
  {
    if artifacts != [] {
      var n := |artifacts| - 1;
      PresentAre(artifacts[..n], disk, row);
      assert artifacts == artifacts[..n] + [artifacts[n]];
    }
  }

  /** The manifest of some rows has every row whose path stands on disk, and no other. */
  lemma ManifestHasExactly(manifest: Manifest, artifacts: seq<Artifact>, disk: Disk, prefix: string, slug: string, row: Artifact)
    requires Groups(manifest, Present(artifacts, disk), prefix, slug)
    ensures row in artifacts && row.path in disk ==> StandsIn(manifest, row, prefix, slug)
    ensures forall c, e :: c in manifest.groups && e in manifest.groups[c] ==>
      exists r :: r in artifacts && r.path in disk && e == EntryOf(r, prefix, slug) && c == (if r.category == "" then "root" else r.category)
  {
    var rows := Present(artifacts, disk);
    if row in artifacts && row.path in disk {
      PresentAre(artifacts, disk, row);
      var k :| 0 <= k < |rows| && rows[k] == row;
      InItsGroup(rows, k, prefix, slug);
    }
    forall c, e | c in manifest.groups && e in manifest.groups[c]
      ensures exists r :: r in artifacts && r.path in disk && e == EntryOf(r, prefix, slug) && c == (if r.category == "" then "root" else r.category)
    {
      var r := FromItsGroup(rows, c, e, prefix, slug);
      PresentAre(artifacts, disk, r);
    }
  }

  lemma {:induction false} FromItsGroup(artifacts: seq<Artifact>, c: string, e: ManifestEntry, prefix: string, slug: string) returns (r: Artifact)
    requires e in GroupOf(artifacts, c, prefix, slug)
    ensures r in artifacts && e == EntryOf(r, prefix, slug) && CategoryOf(r) == c
    decreases |artifacts|
  {
    var n := |artifacts| - 1;
    if e in GroupOf(artifacts[..n], c, prefix, slug) {
      r := FromItsGroup(artifacts[..n], c, e, prefix, slug);
      assert artifacts == artifacts[..n] + [artifacts[n]];
    } else {
      r := artifacts[n];
    }
  }

  /** Categories come in the order in which rows first have them. */
  lemma {:induction false} CategoriesInOrder(artifacts: seq<Artifact>, i: nat, j: nat) returns (k: nat)
    requires i < j < |CategoriesOf(artifacts)|
    ensures k < |artifacts| && CategoryOf(artifacts[k]) == CategoriesOf(artifacts)[i]
    ensures forall l :: 0 <= l <= k ==> CategoryOf(artifacts[l]) != CategoriesOf(artifacts)[j]
    decreases |artifacts|
  {
    var n := |artifacts| - 1;
    var before := CategoriesOf(artifacts[..n]);
    if j < |before| {
      k := CategoriesInOrder(artifacts[..n], i, j);
    } else {
      k := FirstWith(artifacts[..n], before[i]);
      forall l | 0 <= l <= k ensures CategoryOf(artifacts[l]) != CategoriesOf(artifacts)[j] {
        InItsGroup(artifacts[..n], l, "", "");
      }
    }
  }

  lemma {:induction false} FirstWith(artifacts: seq<Artifact>, c: string) returns (k: nat)
    requires c in CategoriesOf(artifacts)
    ensures k < |artifacts| && CategoryOf(artifacts[k]) == c
    decreases |artifacts|
  {
    var n := |artifacts| - 1;
    if c in CategoriesOf(artifacts[..n]) { k := FirstWith(artifacts[..n], c); } else { k := n; }
  }

  // ----- The difference from the disk -----

  /** By the rows: missing is a file row with nothing at its path; orphaned a scanned file at whose path
      there is no row, or only a folder's. */
  lemma DifferenceIs(rows: Rows, listing: seq<Listed>, disk: Disk, scan: seq<Artifact>, id: ArtifactId, path: string)
    requires Lists(rows, listing)
    ensures (exists k :: 0 <= k < |listing| && listing[k].id == id && IsMissing(listing[k], disk)) <==>
      id in rows && !rows[id].isDir && rows[id].path !in disk
    ensures IsOrphan(listing, scan, path) <==>
      && (exists entry :: entry in scan && !entry.isDir && entry.path == path)
      && (forall i :: i in rows && rows[i].path == path ==> rows[i].isDir)
  {
    if id in rows {
      var k :| 0 <= k < |listing| && listing[k].id == id;
    }
    forall i | i in rows && rows[i].path == path && !rows[i].isDir ensures IsTracked(listing, path) {
      var k :| 0 <= k < |listing| && listing[k].id == i;
      assert listing[k].row == rows[i];
    }
    if IsTracked(listing, path) {
      var k :| 0 <= k < |listing| && !listing[k].row.isDir && listing[k].row.path == path;
      assert rows[listing[k].id] == listing[k].row;
    }
  }
}
