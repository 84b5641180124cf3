/** The chunked upsert of a scan, and the build a completed ingest leaves. */
module BundleUpsert {
  import opened Wrappers
  import opened Paths
  import opened BundleTree
  import opened BundleAlignment
  import opened BundleSteps
  import opened BundleContents
  import opened BundleIngest
  import opened BundleExtracted
  import opened BundleScan

  /** The upserts of a scan, first entry first; an entry that inserts takes its own new id. */
  function UpsertedAll(rows: Rows, scan: seq<Artifact>, newIds: seq<ArtifactId>): Rows
    requires |scan| == |newIds|
  {
    if scan == [] then rows
    else
      var n := |scan| - 1;
      Upserted(UpsertedAll(rows, scan[..n], newIds[..n]), scan[n], newIds[n])
  }

  predicate PathIn(scan: seq<Artifact>, path: string) {
    exists k :: 0 <= k < |scan| && scan[k].path == path
  }

  /** `DELETE ... WHERE relative_path <> ALL(...)`. */
  function OnlyScanned(rows: Rows, scan: seq<Artifact>): Rows {
    map id | id in rows && PathIn(scan, rows[id].path) :: rows[id]
  }

  lemma {:induction false} UpsertedAllConcat(rows: Rows, a: seq<Artifact>, ids: seq<ArtifactId>, b: seq<Artifact>, more: seq<ArtifactId>)
    requires |a| == |ids| && |b| == |more|
    ensures UpsertedAll(rows, a + b, ids + more) == UpsertedAll(UpsertedAll(rows, a, ids), b, more)
    decreases |b|
  {
    if b == [] {
      assert a + b == a && ids + more == ids;
    } else {
      var n, m := |b| - 1, |a| + |b| - 1;
      assert (a + b)[..m] == a + b[..n] && (ids + more)[..m] == ids + more[..n];
      UpsertedAllConcat(rows, a, ids, b[..n], more[..n]);
    }
  }

  /** One `INSERT ... ON CONFLICT DO UPDATE` over a whole chunk; the database refuses to write
      one row twice in a statement. */
  function ChunkUpserted(rows: Rows, chunk: seq<Artifact>, newIds: seq<ArtifactId>): Option<Rows>
    requires |chunk| == |newIds|
  {
    if forall i, j :: 0 <= i < j < |chunk| ==> chunk[i].path != chunk[j].path then Some(UpsertedAll(rows, chunk, newIds))
    else None
  }

  predicate SameChunk(i: nat, j: nat) { i / UPSERT_CHUNK == j / UPSERT_CHUNK }

  /** No chunk of the scan names a path twice. */
  ghost predicate ChunksAreDistinct(scan: seq<Artifact>, upTo: nat)
    requires upTo <= |scan|
  {
    forall i, j :: 0 <= i < j < upTo && SameChunk(i, j) ==> scan[i].path != scan[j].path
  }

  /** `upsert_scan`: chunk by chunk, then the rows the scan does not name go; a chunk the
      database refuses rolls everything back. */
  method UpsertScan(rows: Rows, scan: seq<Artifact>, newIds: seq<ArtifactId>) returns (result: Option<Rows>)
    requires |scan| == |newIds|
    ensures result.Some? <==> ChunksAreDistinct(scan, |scan|)
    ensures result.Some? ==> result.value == OnlyScanned(UpsertedAll(rows, scan, newIds), scan)
  {
    var current, done, n := rows, 0, 0;
    while done < |scan|
      invariant 0 <= done <= |scan| && (done < |scan| ==> done == n * UPSERT_CHUNK)
      invariant ChunksAreDistinct(scan, done)
      invariant current == UpsertedAll(rows, scan[..done], newIds[..done])
    {
      var next := if |scan| - done < UPSERT_CHUNK then |scan| else done + UPSERT_CHUNK;
      var chunk := ChunkUpserted(current, scan[done..next], newIds[done..next]);
      ChunkChecked(scan, n, done, next);
      if chunk.None? { return None; }
      UpToNext(rows, scan, newIds, done, next);
      current, done, n := chunk.value, next, n + 1;
    }
    assert scan[..done] == scan && newIds[..done] == newIds;
    return Some(OnlyScanned(current, scan));
  }

  lemma ChunkChecked(scan: seq<Artifact>, n: nat, done: nat, next: nat)
    requires done == n * UPSERT_CHUNK && done < next <= |scan| && next - done <= UPSERT_CHUNK && ChunksAreDistinct(scan, done)
    ensures DistinctPaths(scan[done..next]) <==> ChunksAreDistinct(scan, next)
    ensures !DistinctPaths(scan[done..next]) ==> !ChunksAreDistinct(scan, |scan|)
  {
    assert forall i :: 0 <= i < done ==> i / UPSERT_CHUNK < n;
    assert forall i :: done <= i < next ==> i / UPSERT_CHUNK == n;
    if DistinctPaths(scan[done..next]) {
      forall i, j | 0 <= i < j < next && SameChunk(i, j) ensures scan[i].path != scan[j].path {
        if j >= done { assert i >= done && scan[done..next][i - done].path != scan[done..next][j - done].path; }
      }
    } else {
      var i, j :| 0 <= i < j < |scan[done..next]| && scan[done..next][i].path == scan[done..next][j].path;
      assert SameChunk(done + i, done + j) && scan[done + i].path == scan[done + j].path;
    }
  }

  lemma UpToNext(rows: Rows, scan: seq<Artifact>, newIds: seq<ArtifactId>, done: nat, next: nat)
    requires |scan| == |newIds| && done <= next <= |scan|
    ensures UpsertedAll(UpsertedAll(rows, scan[..done], newIds[..done]), scan[done..next], newIds[done..next])
      == UpsertedAll(rows, scan[..next], newIds[..next])
  {
    assert scan[..done] + scan[done..next] == scan[..next] && newIds[..done] + newIds[done..next] == newIds[..next];
    UpsertedAllConcat(rows, scan[..done], newIds[..done], scan[done..next], newIds[done..next]);
  }

  // ----- What the rows become -----

  /** Who writes what: rows already at a scanned path, new ids for the others, and the rest
      stays. */
  ghost predicate Merged(rows: Rows, scan: seq<Artifact>, newIds: seq<ArtifactId>, after: Rows)
    requires |scan| == |newIds|
  {
    && (forall id :: id in rows && !PathIn(scan, rows[id].path) ==> id in after && after[id] == rows[id])
    && (forall id, k :: id in rows && 0 <= k < |scan| && rows[id].path == scan[k].path ==>
          id in after && after[id] == scan[k].(downloadOnce := rows[id].downloadOnce))
    && (forall k :: 0 <= k < |scan| && !ExistsAt(rows, scan[k].path) ==> newIds[k] in after && after[newIds[k]] == scan[k])
    && (forall id :: id in after ==>
          id in rows || exists k :: 0 <= k < |scan| && id == newIds[k] && !ExistsAt(rows, scan[k].path))
  }

  lemma MergedUnique(rows: Rows, scan: seq<Artifact>, newIds: seq<ArtifactId>, after: Rows)
    requires UniquePaths(rows) && DistinctPaths(scan) && |scan| == |newIds| && NewIds(rows, newIds)
    requires Merged(rows, scan, newIds, after)
    ensures UniquePaths(after)
  {
    forall i, j, path | RowAt(after, i, path) && RowAt(after, j, path) ensures i == j {
      OldOrNew(rows, scan, newIds, after, i);
      OldOrNew(rows, scan, newIds, after, j);
      if i in rows && j in rows {
        assert RowAt(rows, i, path) && RowAt(rows, j, path);
      }
    }
  }

  lemma OldOrNew(rows: Rows, scan: seq<Artifact>, newIds: seq<ArtifactId>, after: Rows, id: ArtifactId)
    requires |scan| == |newIds| && NewIds(rows, newIds) && Merged(rows, scan, newIds, after) && id in after
    ensures id in rows ==> RowAt(rows, id, after[id].path) && ExistsAt(rows, after[id].path)
    ensures id !in rows ==> exists k :: 0 <= k < |scan| && id == newIds[k] && after[id] == scan[k] && !ExistsAt(rows, scan[k].path)
  {
    if id in rows && PathIn(scan, rows[id].path) {
      var k :| 0 <= k < |scan| && scan[k].path == rows[id].path;
    }
  }

  lemma {:induction false} UpsertsMerge(rows: Rows, scan: seq<Artifact>, newIds: seq<ArtifactId>)
    requires UniquePaths(rows) && DistinctPaths(scan) && |scan| == |newIds| && NewIds(rows, newIds)
    ensures Merged(rows, scan, newIds, UpsertedAll(rows, scan, newIds))
    decreases |scan|
  {
    if scan != [] {
      var n := |scan| - 1;
      var before := UpsertedAll(rows, scan[..n], newIds[..n]);
      UpsertsMerge(rows, scan[..n], newIds[..n]);
      MergedUnique(rows, scan[..n], newIds[..n], before);
      OneMoreMerged(rows, scan, newIds, before);
    }
  }

  lemma OneMoreMerged(rows: Rows, scan: seq<Artifact>, newIds: seq<ArtifactId>, before: Rows)
    requires UniquePaths(rows) && DistinctPaths(scan) && |scan| == |newIds| > 0 && NewIds(rows, newIds)
    requires var n := |scan| - 1; Merged(rows, scan[..n], newIds[..n], before) && UniquePaths(before)
    ensures var n := |scan| - 1; Merged(rows, scan, newIds, Upserted(before, scan[n], newIds[n]))
  {
    var n := |scan| - 1;
    var last := scan[n];
    assert !PathIn(scan[..n], last.path);
    assert newIds[n] !in before by { NotTaken(rows, scan[..n], newIds[..n], before, newIds[n]); }
    if ExistsAt(rows, last.path) {
      var id :| id in rows && RowAt(rows, id, last.path);
      assert before[id] == rows[id];
      UpsertWritesOneRow(before, last, newIds[n], id);
      OneUpdated(rows, scan, newIds, before, id);
    } else {
      forall id | id in before ensures before[id].path != last.path { OldOrNew(rows, scan[..n], newIds[..n], before, id); }
      OneInserted(rows, scan, newIds, before);
    }
  }

  lemma NotTaken(rows: Rows, scan: seq<Artifact>, newIds: seq<ArtifactId>, after: Rows, id: ArtifactId)
    requires |scan| == |newIds| && Merged(rows, scan, newIds, after) && id !in rows && id !in newIds
    ensures id !in after
  {
  }

  /** Growing a scan by an entry: which paths it names. */
  lemma PathInGrows(scan: seq<Artifact>, path: string)
    requires scan != []
    ensures PathIn(scan, path) <==> PathIn(scan[..|scan| - 1], path) || path == scan[|scan| - 1].path
  {
    if PathIn(scan, path) {
      var k :| 0 <= k < |scan| && scan[k].path == path;
      assert k < |scan| - 1 ==> scan[..|scan| - 1][k].path == path;
    }
    if PathIn(scan[..|scan| - 1], path) {
      var k :| 0 <= k < |scan| - 1 && scan[..|scan| - 1][k].path == path;
      assert scan[k].path == path;
    }
  }

  lemma OneUpdated(rows: Rows, scan: seq<Artifact>, newIds: seq<ArtifactId>, before: Rows, id: ArtifactId)
    requires UniquePaths(rows) && DistinctPaths(scan) && |scan| == |newIds| > 0
    requires var n := |scan| - 1; Merged(rows, scan[..n], newIds[..n], before) && RowAt(rows, id, scan[n].path)
    ensures Merged(rows, scan, newIds, before[id := scan[|scan| - 1].(downloadOnce := rows[id].downloadOnce)])
  {
    var n := |scan| - 1;
    var after := before[id := scan[n].(downloadOnce := rows[id].downloadOnce)];
    AtMostOneRow(rows, id, scan[n].path);
    forall i | i in rows && !PathIn(scan, rows[i].path) ensures i in after && after[i] == rows[i] {
      PathInGrows(scan, rows[i].path);
    }
    forall i, k | i in rows && 0 <= k < |scan| && rows[i].path == scan[k].path
      ensures i in after && after[i] == scan[k].(downloadOnce := rows[i].downloadOnce)
    {
      assert k < n ==> scan[..n][k] == scan[k];
    }
    forall k | 0 <= k < |scan| && !ExistsAt(rows, scan[k].path) ensures newIds[k] in after && after[newIds[k]] == scan[k] {
      assert k < n && scan[..n][k] == scan[k] && newIds[..n][k] == newIds[k];
    }
  }

  lemma OneInserted(rows: Rows, scan: seq<Artifact>, newIds: seq<ArtifactId>, before: Rows)
    requires DistinctPaths(scan) && |scan| == |newIds| > 0 && NewIds(rows, newIds)
    requires var n := |scan| - 1; Merged(rows, scan[..n], newIds[..n], before) && !ExistsAt(rows, scan[n].path)
    requires newIds[|scan| - 1] !in before
    ensures Merged(rows, scan, newIds, before[newIds[|scan| - 1] := scan[|scan| - 1]])
  {
    var n := |scan| - 1;
    var after := before[newIds[n] := scan[n]];
    forall i | i in rows && !PathIn(scan, rows[i].path) ensures i in after && after[i] == rows[i] {
      PathInGrows(scan, rows[i].path);
    }
    forall i, k | i in rows && 0 <= k < |scan| && rows[i].path == scan[k].path
      ensures i in after && after[i] == scan[k].(downloadOnce := rows[i].downloadOnce)
    {
      assert k < n && scan[..n][k] == scan[k] by { assert RowAt(rows, i, scan[k].path); }
    }
    forall k | 0 <= k < |scan| && !ExistsAt(rows, scan[k].path) ensures newIds[k] in after && after[newIds[k]] == scan[k] {
      assert k < n ==> scan[..n][k] == scan[k] && newIds[..n][k] == newIds[k];
    }
    forall id | id in after
      ensures id in rows || exists k :: 0 <= k < |scan| && id == newIds[k] && !ExistsAt(rows, scan[k].path)
    {
      if id !in rows && id != newIds[n] {
        var k :| 0 <= k < n && id == newIds[..n][k] && !ExistsAt(rows, scan[..n][k].path);
        assert id == newIds[k] && scan[..n][k] == scan[k];
      }
    }
  }

  // ----- A completed ingest -----

  /** A row of the ingested build: what the walk recorded at its path, but the path's old
      `download_once`. */
  ghost predicate FromScan(rows: Rows, disk: Disk, row: Artifact) {
    && row.path in disk && row == ScanRow(disk, row.path).(downloadOnce := row.downloadOnce)
    && (row.downloadOnce <==> exists i :: RowAt(rows, i, row.path) && rows[i].downloadOnce)
  }

  lemma MergedRow(rows: Rows, disk: Disk, scan: seq<Artifact>, from: seq<string>, newIds: seq<ArtifactId>, after: Rows, id: ArtifactId)
    requires NormalDisk(disk) && Records(disk, scan, from) && UniquePaths(rows) && |scan| == |newIds| && NewIds(rows, newIds)
    requires Merged(rows, scan, newIds, after) && id in after && PathIn(scan, after[id].path)
    ensures FromScan(rows, disk, after[id])
  {
    NormalScanIsDistinct(disk, scan, from);
    OldOrNew(rows, scan, newIds, after, id);
    if id in rows {
      var k :| 0 <= k < |scan| && scan[k].path == after[id].path;
      AtMostOneRow(rows, id, after[id].path);
      assert after[id] == scan[k].(downloadOnce := rows[id].downloadOnce);
    }
  }

  /** `id` is the row at `q` afterwards, and already was if there was one. */
  ghost predicate KeepsRow(rows: Rows, after: Rows, id: ArtifactId, q: string) {
    RowAt(after, id, q) && (ExistsAt(rows, q) ==> RowAt(rows, id, q))
  }

  /** Every scanned path gets its row, the row it had if there was one. */
  lemma MergedPath(rows: Rows, scan: seq<Artifact>, newIds: seq<ArtifactId>, after: Rows, k: nat)
    returns (id: ArtifactId)
    requires |scan| == |newIds| && k < |scan| && Merged(rows, scan, newIds, after)
    ensures KeepsRow(rows, after, id, scan[k].path)
  {
    if ExistsAt(rows, scan[k].path) {
      id :| id in rows && RowAt(rows, id, scan[k].path);
      assert id in after && after[id].path == scan[k].path;
    } else {
      id := newIds[k];
      assert id in after && after[id] == scan[k];
    }
  }

  lemma ScannedPathKept(rows: Rows, scan: seq<Artifact>, newIds: seq<ArtifactId>, merged: Rows, k: nat)
    requires |scan| == |newIds| && k < |scan| && Merged(rows, scan, newIds, merged)
    ensures exists id :: KeepsRow(rows, OnlyScanned(merged, scan), id, scan[k].path)
  {
    var id := MergedPath(rows, scan, newIds, merged, k);
    assert PathIn(scan, scan[k].path);
    assert KeepsRow(rows, OnlyScanned(merged, scan), id, scan[k].path);
  }

  lemma OnlyScannedUnique(rows: Rows, scan: seq<Artifact>)
    requires UniquePaths(rows)
    ensures UniquePaths(OnlyScanned(rows, scan))
  {
    forall i, j, path | RowAt(OnlyScanned(rows, scan), i, path) && RowAt(OnlyScanned(rows, scan), j, path) ensures i == j {
      assert RowAt(rows, i, path) && RowAt(rows, j, path);
    }
  }

  lemma ScannedUnique(rows: Rows, scan: seq<Artifact>, newIds: seq<ArtifactId>)
    requires UniquePaths(rows) && DistinctPaths(scan) && |scan| == |newIds| && NewIds(rows, newIds)
    ensures UniquePaths(OnlyScanned(UpsertedAll(rows, scan, newIds), scan))
  {
    UpsertsMerge(rows, scan, newIds);
    MergedUnique(rows, scan, newIds, UpsertedAll(rows, scan, newIds));
    OnlyScannedUnique(UpsertedAll(rows, scan, newIds), scan);
  }

  /** The build a completed ingest leaves: each row from the scan, each path with its row. */
  ghost predicate Ingested(rows: Rows, disk: Disk, after: Rows) {
    && UniquePaths(after)
    && (forall id :: id in after ==> FromScan(rows, disk, after[id]))
    && (forall q :: q in disk ==> exists id :: KeepsRow(rows, after, id, q))
  }

  /** A completed ingest leaves exactly one row for each path on disk, of its kind, size, hash,
      name and category; a path that had a row keeps its id and its `download_once`, and a new
      path starts without. */
  lemma IngestedBuild(rows: Rows, disk: Disk, scan: seq<Artifact>, from: seq<string>, newIds: seq<ArtifactId>)
    requires NormalDisk(disk) && Records(disk, scan, from) && Elems(from) == disk.Keys
    requires UniquePaths(rows) && |scan| == |newIds| && NewIds(rows, newIds)
    ensures Ingested(rows, disk, OnlyScanned(UpsertedAll(rows, scan, newIds), scan))
  {
    var merged := UpsertedAll(rows, scan, newIds);
    var after := OnlyScanned(merged, scan);
    assert DistinctPaths(scan) by { NormalScanIsDistinct(disk, scan, from); }
    UpsertsMerge(rows, scan, newIds);
    ScannedUnique(rows, scan, newIds);
    forall id | id in after ensures FromScan(rows, disk, after[id]) {
      MergedRow(rows, disk, scan, from, newIds, merged, id);
    }
    forall q | q in disk ensures exists id :: KeepsRow(rows, after, id, q) {
      assert q in Elems(from);
      var k :| 0 <= k < |from| && from[k] == q;
      NormalScanIsDistinct(disk, scan, from);
      ScannedPathKept(rows, scan, newIds, merged, k);
    }
  }

  /** So rows and disk are aligned again, whatever the rows were, and the rows tell the truth. */
  lemma IngestAligns(rows: Rows, disk: Disk, after: Rows)
    requires NormalDisk(disk) && Ingested(rows, disk, after)
    ensures Aligned(Build(after, disk)) && Faithful(Build(after, disk)) && NormalPaths(after)
  {
    forall id | id in after ensures RowOk(Build(after, disk), id) && Truthful(after[id], disk) && Normal(after[id].path) {
      assert FromScan(rows, disk, after[id]);
      NormalIsNonempty(after[id].path);
      NormalHasNoBackslash(after[id].path);
      UnifiedStable(after[id].path);
    }
  }

  // ----- Folders that cannot be listed -----

  /** What the walk of the whole tree sees. */
  ghost function Seen(disk: Disk, closed: set<string>): Disk {
    map q | q in disk && Visible(disk, closed, "", q) :: disk[q]
  }

  lemma SeenIsNormal(disk: Disk, closed: set<string>)
    requires NormalDisk(disk)
    ensures NormalDisk(Seen(disk, closed))
  {
    var seen := Seen(disk, closed);
    forall p, q | p in seen && Under(p, q) && q != "" ensures q in seen && seen[q].Dir? {
      forall d | d in closed && Inside(d, "") ensures !Under(q, d) {
        if Under(q, d) { UnderTrans(p, q, d); }
      }
    }
  }

  lemma RecordsOfSeen(disk: Disk, closed: set<string>, scan: seq<Artifact>, from: seq<string>)
    requires Records(disk, scan, from) && Elems(from) == VisibleIn(disk, closed, "")
    ensures Records(Seen(disk, closed), scan, from) && Elems(from) == Seen(disk, closed).Keys
  {
    forall i | 0 <= i < |from| ensures from[i] in Seen(disk, closed) && scan[i] == ScanRow(Seen(disk, closed), from[i]) {
      assert from[i] in Elems(from);
    }
  }

  /** A completed ingest aligns rows and disk even when folders could not be listed: what is in
      them loses its rows, and stays. */
  lemma SeenAligns(rows: Rows, disk: Disk, closed: set<string>, after: Rows)
    requires NormalDisk(disk) && Ingested(rows, Seen(disk, closed), after)
    ensures Aligned(Build(after, disk)) && Faithful(Build(after, disk)) && NormalPaths(after)
  {
    SeenIsNormal(disk, closed);
    IngestAligns(rows, Seen(disk, closed), after);
    GrownDiskAligned(Build(after, Seen(disk, closed)), disk);
    forall id | id in after ensures Truthful(after[id], disk) { assert Truthful(after[id], Seen(disk, closed)); }
  }

  // ----- An ingest that fails -----

  /** What a wipe that fails part-way may leave: whole paths, as folders go after what they hold. */
  ghost predicate MayRemain(disk: Disk, left: set<string>) {
    left <= disk.Keys && forall p, q :: p in left && Under(p, q) && q != "" ==> q in left
  }

  /** The files an ingest leaves: what the wipe did not get to, or what came out of the archive. */
  function LeftByIngest(disk: Disk, archive: Archive, ios: seq<WriteIo>, wiped: bool, left: set<string>): Disk
    requires ForEach(archive, ios)
  {
    if !wiped then map q | q in disk && q in left :: disk[q] else Unpacked(map[], archive, ios).disk
  }

  lemma UnpackedIsNormal(archive: Archive, ios: seq<WriteIo>)
    requires ForEach(archive, ios)
    ensures NormalDisk(Unpacked(map[], archive, ios).disk)
  {
    if archive.Ok? { ExtractionStaysInside(map[], 0, archive.value, ios); }
  }

  lemma LeftIsOk(disk: Disk, archive: Archive, ios: seq<WriteIo>, wiped: bool, left: set<string>)
    requires ForEach(archive, ios) && DiskOk(disk) && MayRemain(disk, left)
    ensures DiskOk(LeftByIngest(disk, archive, ios, wiped, left))
    ensures wiped ==> NormalDisk(LeftByIngest(disk, archive, ios, wiped, left))
  {
    if wiped {
      UnpackedIsNormal(archive, ios);
    } else {
      forall p, q | p in left && Under(p, q) && q != "" ensures q in left && disk[q].Dir? {
        assert p in disk && q in disk;
      }
    }
  }

  /** A row's path is among what the wipe left, or comes out of the archive as what the row says. */
  predicate Survives(row: Artifact, archive: Archive, ios: seq<WriteIo>, wiped: bool, left: set<string>)
    requires ForEach(archive, ios)
  {
    if wiped then ComesOut(archive, ios, row.path, row.isDir) else row.path in left
  }

  predicate AllSurvive(rows: Rows, archive: Archive, ios: seq<WriteIo>, wiped: bool, left: set<string>)
    requires ForEach(archive, ios)
  {
    forall id :: id in rows ==> Survives(rows[id], archive, ios, wiped, left)
  }

  /** Each row's path stands on this disk, with the row's kind. */
  ghost predicate Stand(rows: Rows, disk: Disk) {
    forall id :: id in rows ==> IsNode(disk, rows[id].path, rows[id].isDir)
  }

  lemma StandAligns(b: Build, disk: Disk)
    requires Aligned(b) && DiskOk(disk)
    ensures Aligned(Build(b.rows, disk)) <==> Stand(b.rows, disk)
  {
    var after := Build(b.rows, disk);
    forall id | id in b.rows ensures RowOk(after, id) <==> IsNode(disk, b.rows[id].path, b.rows[id].isDir) {
      assert RowOk(b, id);
    }
  }

  /** Exactly when an ingest that fails, at whatever step, leaves rows and disk aligned: when
      the path of every old row survives the wipe, or comes out of the archive as what it was. */
  lemma FailedIngestAlignedExactly(b: Build, archive: Archive, ios: seq<WriteIo>, wiped: bool, left: set<string>)
    requires ForEach(archive, ios) && Aligned(b) && MayRemain(b.disk, left)
    ensures Aligned(Build(b.rows, LeftByIngest(b.disk, archive, ios, wiped, left)))
      <==> AllSurvive(b.rows, archive, ios, wiped, left)
  {
    var disk := LeftByIngest(b.disk, archive, ios, wiped, left);
    LeftIsOk(b.disk, archive, ios, wiped, left);
    StandAligns(b, disk);
    forall id | id in b.rows
      ensures IsNode(disk, b.rows[id].path, b.rows[id].isDir) <==> Survives(b.rows[id], archive, ios, wiped, left)
    {
      assert RowOk(b, id);
      UnpackedExactly(archive, ios, b.rows[id].path, b.rows[id].isDir);
    }
  }

  /** A file row's path is among what the wipe left, or the very bytes it tells of come out. */
  predicate StaysTrue(row: Artifact, archive: Archive, ios: seq<WriteIo>, wiped: bool, left: set<string>)
    requires ForEach(archive, ios)
  {
    if row.isDir then true
    else if !wiped then row.path in left
    else row.sha256.Some? && FileOut(archive, ios, row.path) == Some(File(row.size, row.sha256.value))
  }

  predicate AllStayTrue(rows: Rows, archive: Archive, ios: seq<WriteIo>, wiped: bool, left: set<string>)
    requires ForEach(archive, ios)
  {
    forall id :: id in rows ==> StaysTrue(rows[id], archive, ios, wiped, left)
  }

  /** And exactly when its file rows still tell the size and hash of the bytes at their paths. */
  lemma FailedIngestFaithfulExactly(b: Build, archive: Archive, ios: seq<WriteIo>, wiped: bool, left: set<string>)
    requires ForEach(archive, ios) && Faithful(b)
    ensures Faithful(Build(b.rows, LeftByIngest(b.disk, archive, ios, wiped, left))) <==> AllStayTrue(b.rows, archive, ios, wiped, left)
  {
    var disk := LeftByIngest(b.disk, archive, ios, wiped, left);
    forall id | id in b.rows ensures Truthful(b.rows[id], disk) <==> StaysTrue(b.rows[id], archive, ios, wiped, left) {
      assert Truthful(b.rows[id], b.disk);
      UnpackedBytesExactly(archive, ios, b.rows[id].path);
    }
  }

  /** When no entry is stopped half-way, for instance as the archive is refused at some entry for
      what it declares, or the walk after it fails: the entries before it must bring every row. */
  lemma RefusedAlignedExactly(b: Build, entries: seq<ZipEntry>, ios: seq<WriteIo>)
    requires |entries| == |ios| && |entries| <= MAX_ENTRIES && Aligned(b)
    requires var n := Passed([], entries, ios); n < |entries| ==> !Admitted(entries[..n], entries[n])
    ensures Aligned(Build(b.rows, LeftByIngest(b.disk, Ok(entries), ios, true, {}))) <==>
      forall id :: id in b.rows ==> Brought(entries[..Passed([], entries, ios)], b.rows[id].path, b.rows[id].isDir)
  {
    FailedIngestAlignedExactly(b, Ok(entries), ios, true, {});
    assert [] + entries[..Passed([], entries, ios)] == entries[..Passed([], entries, ios)];
  }

  /** So it takes an archive that has every path of the old build. */
  lemma FailedIngestNeedsThePaths(b: Build, archive: Archive, ios: seq<WriteIo>, id: ArtifactId)
    requires ForEach(archive, ios) && id in b.rows && Aligned(Build(b.rows, LeftByIngest(b.disk, archive, ios, true, {})))
    ensures archive.Ok? && OnTheWay(archive.value, b.rows[id].path)
  {
    assert RowOk(Build(b.rows, LeftByIngest(b.disk, archive, ios, true, {})), id);
    OnlyEntriesStand(archive, ios, b.rows[id].path);
  }

  /** And when nothing is unpacked, as what was sent is no ZIP or has too many entries, no rows
      at all. */
  lemma WipedAlignedExactly(b: Build, archive: Archive, ios: seq<WriteIo>)
    requires ForEach(archive, ios) && Aligned(b) && (archive.Err? || |archive.value| > MAX_ENTRIES)
    ensures Aligned(Build(b.rows, LeftByIngest(b.disk, archive, ios, true, {}))) <==> b.rows == map[]
  {
    FailedIngestAlignedExactly(b, archive, ios, true, {});
    assert (forall id :: id !in b.rows) ==> b.rows == map[];
  }

  // ----- One that fails and does no harm -----

  function Again(): seq<ZipEntry> {
    [ZipEntry("a", false, true, 0, 0, ""), ZipEntry("..", false, true, 0, 0, "")]
  }

  lemma PlainLetter(name: string)
    requires |name| == 1 && name[0] != '/' && name[0] != '.' && name[0] != '\\'
    ensures Normalized(name) == Ok(name) && !Skipped(name) && Stripped(name) == name && Parent(name) == ""
  {
    SplitPlain(name);
    NormalIsFixed(name);
    ParentOf("", name);
  }

  lemma DotsEscape()
    ensures Normalized("..") == Err(Escapes) && !Skipped("..") && Stripped("..") == ".."
  {
    UnifiedStable("..");
    SplitPlain("..");
    KeptContains([".."], 0);
  }

  /** A failed ingest can leave rows and disk aligned though there are rows: the build has file
      `a`, and the archive brings it again before the entry that is refused. */
  lemma FailedIngestCanStayAligned(io: WriteIo)
    requires io.created && io.whole
    ensures var rows, ios := map[1 := Fresh("a", 0, Some(""), false)], [io, io];
      var extracted := Extracted(map[], 0, Again(), ios);
      extracted.error.Some? && rows != map[] && Aligned(Build(rows, extracted.disk))
  {
    PlainLetter("a");
    DotsEscape();
    var rows: Rows := map[1 := Fresh("a", 0, Some(""), false)];
    var entry := Again()[0];
    assert MadeDirs(map[], "", io.made) == map[];
    var first := ExtractedEntry(map[], 0, entry, io);
    assert first == Extraction(map["a" := File(0, "")], 0, None);
    assert Again()[1..] == [Again()[1]] && [io, io][1..] == [io];
    assert Extracted(first.disk, 0, [Again()[1]], [io]) == Extraction(first.disk, 0, Some(BadRequest));
    assert RowOk(Build(rows, first.disk), 1);
  }
}
