/** A batch whose turns part a row from its file and put it over another: the build it leaves is
    aligned again, so alignment after every turn asks for more than alignment at the end. */
module BundleLuck {
  import opened Wrappers
  import opened Paths
  import opened BundleTree
  import opened BundleAlignment
  import opened BundleMoves
  import opened BundleBatches
  import opened BundleWitnesses

  // ----- The rows and their story -----

  /** Where row `id` stands after `k` turns. Row 8 is left behind in turn 3, taken along without
      its file in turn 5, and put over an untracked file in turn 6. */
  function PathAt(k: nat, id: ArtifactId): string {
    if id == 1 then if k < 1 then "g/h" else "h"
    else if id == 2 then if k < 1 then "g/h/c" else "h/c"
    else if id == 3 then if k < 1 then "g/h/c/m/y" else "h/c/m/y"
    else if id == 4 then if k < 2 then "q/g" else "g"
    else if id == 5 then if k < 2 then "q/g/h/c" else if k < 5 then "g/h/c" else "c"
    else if id == 6 then if k < 2 then "q/g/h/c/m/y" else if k < 3 then "g/h/c/m/y" else "y"
    else if id == 7 then if k < 4 then "c/m" else "m"
    else if id == 8 then if k < 2 then "q/g/h/c/m/y/z" else if k < 5 then "g/h/c/m/y/z" else if k < 6 then "c/m/y/z" else "z"
    else if k < 4 then "c/m/y/z" else "m/y/z"
  }

  predicate IsRow(id: ArtifactId) { 1 <= id <= 9 }

  predicate LeafId(id: ArtifactId) { id == 3 || id == 8 || id == 9 }

  /** The entries of the batch, in order, and the rows that each turn finds at their old paths. */
  function Picked(k: nat): ArtifactId {
    if k == 0 then 1 else if k == 1 then 4 else if k == 2 then 3 else if k == 3 then 7 else if k == 4 then 2 else 9
  }

  function Mover(k: nat): ArtifactId {
    if k == 0 then 1 else if k == 1 then 4 else if k == 2 then 6 else if k == 3 then 7 else if k == 4 then 5 else 8
  }

  function From(k: nat): string { PathAt(0, Picked(k)) }

  function To(k: nat): string { PathAt(k + 1, Mover(k)) }

  ghost predicate Stage(rows: Rows, k: nat) {
    && (forall i :: i in rows <==> IsRow(i))
    && forall i :: i in rows ==> rows[i].path == PathAt(k, i) && (rows[i].isDir <==> !LeafId(i))
  }

  lemma MoverStandsThere(k: nat)
    requires k < 6
    ensures PathAt(k, Mover(k)) == From(k) && To(k) != "" && NoSlash(To(k)) && IsRow(Mover(k)) && From(k) != "" && From(k) != To(k)
  {
  }

  /** Only these rows lie below the folder that a turn takes. */
  lemma WhoFollows(k: nat, i: ArtifactId)
    requires k < 6 && IsRow(i) && i != Mover(k) && !LeafId(Picked(k)) && Under(PathAt(k, i), From(k))
    ensures (k == 0 && i in {2, 3}) || (k == 1 && i in {5, 6, 8}) || (k == 3 && i == 9) || (k == 4 && i == 8)
  {
    if PathAt(k, i)[0] != From(k)[0] { Apart(PathAt(k, i), From(k)); }
  }

  lemma Followers(k: nat, i: ArtifactId)
    requires (k == 0 && i in {2, 3}) || (k == 1 && i in {5, 6, 8}) || (k == 3 && i == 9) || (k == 4 && i == 8)
    ensures PathAt(k + 1, i) == To(k) + PathAt(k, i)[|From(k)|..]
  {
    if k == 1 {
      SecondFollowers(i);
    } else if k == 0 {
      assert "g/h/c"[3..] == "/c" && "g/h/c/m/y"[3..] == "/c/m/y";
    } else if k == 3 {
      assert "c/m/y/z"[3..] == "/y/z";
    } else {
      assert "g/h/c/m/y/z"[5..] == "/m/y/z";
    }
  }

  lemma SecondFollowers(i: ArtifactId)
    requires i in {5, 6, 8}
    ensures PathAt(2, i) == "g" + PathAt(1, i)[3..]
  {
    assert "q/g/h/c"[3..] == "/h/c" && "q/g/h/c/m/y"[3..] == "/h/c/m/y" && "q/g/h/c/m/y/z"[3..] == "/h/c/m/y/z";
  }

  lemma Stayers(k: nat, i: ArtifactId)
    requires k < 6 && IsRow(i) && i != Mover(k) && (LeafId(Picked(k)) || !Under(PathAt(k, i), From(k)))
    ensures PathAt(k + 1, i) == PathAt(k, i)
  {
    assert "g/h/c"[..3] == "g/h" && "g/h/c/m/y"[..3] == "g/h";
    assert "q/g/h/c"[..3] == "q/g" && "q/g/h/c/m/y"[..3] == "q/g" && "q/g/h/c/m/y/z"[..3] == "q/g";
    assert "c/m/y/z"[..3] == "c/m" && "g/h/c/m/y/z"[..5] == "g/h/c";
  }

  lemma NextPath(k: nat, i: ArtifactId)
    requires k < 6 && IsRow(i)
    ensures PathAt(k + 1, i) ==
      if i == Mover(k) then To(k)
      else if !LeafId(Picked(k)) && Under(PathAt(k, i), From(k)) then To(k) + PathAt(k, i)[|From(k)|..]
      else PathAt(k, i)
  {
    if i != Mover(k) {
      if !LeafId(Picked(k)) && Under(PathAt(k, i), From(k)) {
        WhoFollows(k, i);
        Followers(k, i);
      } else {
        Stayers(k, i);
      }
    }
  }

  lemma StageMoves(rows: Rows, k: nat)
    requires k < 6 && Stage(rows, k)
    ensures Stage(RowsMoved(rows, Mover(k), From(k), To(k), !LeafId(Picked(k))), k + 1)
  {
    var rows' := RowsMoved(rows, Mover(k), From(k), To(k), !LeafId(Picked(k)));
    forall i | i in rows ensures rows'[i].path == PathAt(k + 1, i) && rows'[i].isDir == rows[i].isDir {
      NextPath(k, i);
    }
  }

  /** No row stands in the way of a turn. */
  lemma TargetIsFree(k: nat, i: ArtifactId)
    requires k < 6 && IsRow(i)
    ensures PathAt(k, i) != To(k) && !Under(PathAt(k, i), To(k))
  {
    assert PathAt(k, i)[0] != To(k)[0];
    Apart(PathAt(k, i), To(k));
  }

  /** One row stands where the entry was; only row 8 is ever below a file's entry. */
  lemma OnlyMover(k: nat, i: ArtifactId)
    requires k < 6 && IsRow(i)
    ensures PathAt(k, i) == From(k) ==> i == Mover(k)
    ensures k < 5 && i != 8 && LeafId(Picked(k)) ==> !Under(PathAt(k, i), From(k))
  {
  }

  // ----- The tree -----

  /** The row that is parted from its file. */
  const Stray: ArtifactId := 8

  function LuckyFiles(): set<string> { {"g/h/c/m/y", "q/g/h/c/m/y/z", "c/m/y/z", "z"} }

  /** These files, and the folders they stand in. */
  function TreeOf(files: set<string>): Disk {
    map q | q in (set f, p | f in files && p in Chain(f) :: p) :: if q in files then File(0, "") else Dir
  }

  lemma InTree(files: set<string>, q: string)
    ensures q in TreeOf(files) <==> q != "" && exists f :: f in files && Below(f, q)
  {
    if q in TreeOf(files) {
      var f :| f in files && q in Chain(f);
      ChainIs(f, q);
    }
    if q != "" && exists f :: f in files && Below(f, q) {
      var f :| f in files && Below(f, q);
      ChainIs(f, q);
    }
  }

  lemma TreeOk(files: set<string>)
    requires forall f, g :: f in files && g in files ==> !Under(f, g)
    ensures DiskOk(TreeOf(files))
  {
    var disk := TreeOf(files);
    forall p, q | p in disk && Under(p, q) && q != "" ensures q in disk && disk[q].Dir? {
      InTree(files, p);
      var f :| f in files && Below(f, p);
      if f != p { UnderTrans(f, p, q); }
      InTree(files, q);
      assert Under(f, q);
    }
  }

  /** Nothing in the folder `dir` but what is about to move away. */
  ghost predicate Holds(disk: Disk, dir: string, source: string) {
    dir in disk && disk[dir].Dir? && forall q :: q in disk && Under(q, dir) ==> Below(q, source)
  }

  ghost predicate Empty(disk: Disk, dir: string) {
    dir in disk && disk[dir].Dir? && forall q :: q in disk ==> !Under(q, dir)
  }

  ghost predicate DiskStage(disk: Disk, k: nat) {
    && DiskOk(disk) && "z" in disk && disk["z"].File?
    && (k <= 0 ==> "h" !in disk && Holds(disk, "g", "g/h")) && (k == 1 ==> Empty(disk, "g"))
    && (k <= 2 ==> "y" !in disk) && (k <= 3 ==> "m" !in disk && Holds(disk, "c", "c/m")) && (k == 4 ==> Empty(disk, "c"))
    && (3 <= k <= 5 ==> PathAt(k, Stray) !in disk)
  }

  /** A rename touches what stands under another letter only by taking it away. */
  lemma Untouched(disk: Disk, source: string, target: string, q: string)
    requires GoodRename(disk, source, target) && q != "" && q[0] != target[0]
    ensures var disk' := RenamedDisk(disk, source, target);
      (q in disk' <==> q in disk && !Below(q, source)) && (q in disk' ==> disk'[q] == disk[q])
  {
    RenamedNode(disk, source, target, q);
    Apart(q, target);
  }

  lemma HoldsMoves(disk: Disk, source: string, target: string, dir: string, inner: string)
    requires GoodRename(disk, source, target) && Holds(disk, dir, inner) && dir != "" && dir[0] != target[0]
    requires Under(inner, dir)
    ensures source == inner ==> Empty(RenamedDisk(disk, source, target), dir)
    ensures dir[0] != source[0] ==> Holds(RenamedDisk(disk, source, target), dir, inner)
  {
    var disk' := RenamedDisk(disk, source, target);
    Untouched(disk, source, target, dir);
    if dir[0] != source[0] { Apart(dir, source); }
    forall q | q in disk' && Under(q, dir) ensures q in disk && Below(q, inner) && !Below(q, source) {
      assert q[0] == q[..|dir|][0] == dir[0];
      Untouched(disk, source, target, q);
    }
  }

  lemma RenameIsGood(disk: Disk, k: nat)
    requires k < 5 && DiskStage(disk, k) && From(k) in disk && (k == 1 || k == 4 ==> disk[From(k)].Dir?)
    ensures GoodRename(disk, From(k), To(k))
  {
    MoverStandsThere(k);
    ParentOf("", To(k));
    assert k == 1 || k == 4 || To(k) !in disk;
  }

  lemma StrayFileGone(disk: Disk, k: nat)
    requires 2 <= k < 5 && DiskStage(disk, k) && GoodRename(disk, From(k), To(k))
    ensures PathAt(k + 1, Stray) !in RenamedDisk(disk, From(k), To(k))
  {
    if k == 2 {
      assert "g/h/c/m/y/z"[..9] == "g/h/c/m/y";
      SourceIsVacated(disk, From(k), To(k), "g/h/c/m/y/z");
    } else if k == 3 {
      Untouched(disk, From(k), To(k), "g/h/c/m/y/z");
    } else {
      RenamedNode(disk, From(k), To(k), "c/m/y/z");
      assert Origin("c/m/y/z", From(k), To(k)) == "g/h/c/m/y/z" && Below("c/m/y/z", "c");
    }
  }

  lemma DiskMoves(disk: Disk, k: nat)
    requires k < 5 && DiskStage(disk, k) && GoodRename(disk, From(k), To(k))
    ensures DiskStage(RenamedDisk(disk, From(k), To(k)), k + 1)
  {
    var source, target := From(k), To(k);
    RenamedDiskOk(disk, source, target);
    Untouched(disk, source, target, "z");
    if k <= 1 { Untouched(disk, source, target, "y"); }
    if k <= 2 { Untouched(disk, source, target, "m"); }
    if k == 0 { HoldsMoves(disk, source, target, "g", "g/h"); }
    if k <= 3 { HoldsMoves(disk, source, target, "c", "c/m"); }
    if k >= 2 { StrayFileGone(disk, k); }
  }

  // ----- The turns -----

  function Without(b: Build): Build { b.(rows := b.rows - {Stray}) }

  ghost predicate Lucky(b: Build, k: nat) {
    Stage(b.rows, k) && DiskStage(b.disk, k) && Aligned(Without(b))
  }

  /** The entry that the batch moves in turn `k`, as it was at the start. */
  ghost predicate IsPick(sel: Selected, k: nat) {
    sel.entry.path == From(k) && (sel.entry.isDir <==> !LeafId(Picked(k))) && sel.target == To(k)
  }

  lemma RenameTurn(b: Build, sel: Selected, id: ArtifactId, io: Io)
    requires DestinationFree(b.rows, sel.target, sel.entry.isDir) && io.renamed && Parent(sel.target) == ""
    requires ExistsAt(b.rows, sel.entry.path) && RowIdAt(b.rows, sel.entry.path) == id
    requires GoodRename(b.disk, sel.entry.path, sel.target)
    ensures BatchTurn(b, sel, io) == Outcome(MovedToRoot(b, id, sel), None)
  {
    assert MadeDirs(b.disk, "", io.made) == b.disk;
  }

  lemma SourceIsThere(b: Build, k: nat)
    requires k < 5 && Lucky(b, k)
    ensures RowAt(b.rows, Mover(k), From(k)) && Mover(k) != Stray
    ensures From(k) in b.disk && (k == 1 || k == 4 ==> b.disk[From(k)].Dir?)
  {
    MoverStandsThere(k);
    assert RowOk(Without(b), Mover(k));
  }

  lemma TurnFinds(b: Build, sel: Selected, k: nat)
    requires k < 6 && Stage(b.rows, k) && IsPick(sel, k)
    ensures DestinationFree(b.rows, To(k), sel.entry.isDir) && ExistsAt(b.rows, From(k)) && RowIdAt(b.rows, From(k)) == Mover(k)
  {
    MoverStandsThere(k);
    assert RowAt(b.rows, Mover(k), From(k));
    forall i | i in b.rows
      ensures b.rows[i].path != To(k) && !Under(b.rows[i].path, To(k)) && (RowAt(b.rows, i, From(k)) ==> i == Mover(k))
    {
      TargetIsFree(k, i);
      OnlyMover(k, i);
    }
  }

  lemma RowsWithout(rows: Rows, id: ArtifactId, source: string, target: string, isDir: bool)
    requires id != Stray
    ensures RowsMoved(rows, id, source, target, isDir) - {Stray} == RowsMoved(rows - {Stray}, id, source, target, isDir)
  {
  }

  lemma RestIsLegal(b: Build, id: ArtifactId, source: string, target: string, isDir: bool)
    requires Aligned(Without(b)) && RowAt(b.rows, id, source) && id != Stray && target != "" && source != target
    requires DestinationFree(b.rows, target, isDir)
    ensures LegalOn(Without(b), id, source, target, isDir)
  {
    assert forall i :: i in Without(b).rows ==> i in b.rows && b.rows[i] == Without(b).rows[i];
    assert ExistsAt(Without(b).rows, target) ==> ExistsAt(b.rows, target);
    assert ExistsUnder(Without(b).rows, target) ==> ExistsUnder(b.rows, target);
  }

  lemma RestAligned(b: Build, sel: Selected, id: ArtifactId)
    requires LegalOn(Without(b), id, sel.entry.path, sel.target, sel.entry.isDir) && id != Stray
    requires GoodRename(b.disk, sel.entry.path, sel.target)
    requires sel.entry.isDir || !ExistsUnder(Without(b).rows, sel.entry.path)
    ensures Aligned(Without(MovedToRoot(b, id, sel)))
  {
    RenamedAligned(Without(b), id, sel.entry.path, sel.target, sel.entry.isDir);
    RowsWithout(b.rows, id, sel.entry.path, sel.target, sel.entry.isDir);
  }

  /** Apart from row 8, five turns keep rows and disk aligned. */
  lemma LuckyTurn(b: Build, sel: Selected, k: nat, io: Io)
    requires k < 5 && Lucky(b, k) && IsPick(sel, k) && io.renamed
    ensures BatchTurn(b, sel, io).error.None? && Lucky(BatchTurn(b, sel, io).build, k + 1)
  {
    SourceIsThere(b, k);
    RenameIsGood(b.disk, k);
    TurnFinds(b, sel, k);
    MoverStandsThere(k);
    ParentOf("", To(k));
    RenameTurn(b, sel, Mover(k), io);
    RestIsLegal(b, Mover(k), From(k), To(k), sel.entry.isDir);
    assert sel.entry.isDir || !ExistsUnder(Without(b).rows, From(k)) by {
      forall i | i in b.rows { OnlyMover(k, i); }
    }
    RestAligned(b, sel, Mover(k));
    StageMoves(b.rows, k);
    DiskMoves(b.disk, k);
  }

  lemma StrayLands(b: Build, source: string, target: string)
    requires Aligned(Without(b)) && Stray in b.rows && !b.rows[Stray].isDir
    requires target != "" && IsFile(b.disk, target) && forall i :: i in b.rows ==> b.rows[i].path != target
    ensures Aligned(Build(RowsMoved(b.rows, Stray, source, target, false), b.disk))
  {
    var after := Build(RowsMoved(b.rows, Stray, source, target, false), b.disk);
    forall i | i in after.rows ensures RowOk(after, i) {
      if i != Stray { assert RowOk(Without(b), i); }
    }
    forall i, j, path | RowAt(after.rows, i, path) && RowAt(after.rows, j, path) ensures i == j {
      assert i != Stray && j != Stray ==> RowAt(Without(b).rows, i, path) && RowAt(Without(b).rows, j, path);
    }
  }

  /** The sixth puts it over the file `z`, which no row tells of. */
  lemma LastTurn(b: Build, sel: Selected, io: Io)
    requires Lucky(b, 5) && IsPick(sel, 5)
    ensures BatchTurn(b, sel, io).error.None? && Aligned(BatchTurn(b, sel, io).build)
  {
    TurnFinds(b, sel, 5);
    assert sel.entry.path == "c/m/y/z" && sel.target == "z" && Mover(5) == Stray;
    assert BatchTurn(b, sel, io) == Outcome(Build(RowsMoved(b.rows, Stray, "c/m/y/z", "z", false), b.disk), None);
    StrayLands(b, "c/m/y/z", "z");
  }

  // ----- The batch -----

  /** The turns of the batch from the `k`-th on. */
  ghost predicate LuckyBatch(batch: seq<Selected>, k: nat) {
    |batch| == 6 - k && forall j :: 0 <= j < |batch| ==> IsPick(batch[j], k + j)
  }

  ghost predicate AllRenamed(ios: seq<Io>) {
    forall j :: 0 <= j < |ios| ==> ios[j].renamed
  }

  /** After the third turn row 8 is without its file. */
  lemma StrayMisaligns(b: Build)
    requires Lucky(b, 3)
    ensures !Aligned(b)
  {
    assert Aligned(b) ==> RowOk(b, Stray);
  }

  lemma FirstOf(batch: seq<Selected>, k: nat)
    requires k < 6 && LuckyBatch(batch, k)
    ensures IsPick(batch[0], k) && LuckyBatch(batch[1..], k + 1)
  {
    assert IsPick(batch[0], k + 0);
    forall j | 0 <= j < |batch| - 1 ensures IsPick(batch[1..][j], k + 1 + j) { assert IsPick(batch[j + 1], k + (j + 1)); }
  }

  lemma {:induction false} LuckyFrom(start: Rows, b: Build, batch: seq<Selected>, ios: seq<Io>, k: nat)
    requires k < 6 && Lucky(b, k) && LuckyBatch(batch, k) && |ios| == |batch| && AllRenamed(ios)
    ensures BatchFrom(start, b, batch, ios).error.None? && Aligned(BatchFrom(start, b, batch, ios).build)
    decreases 6 - k
  {
    var turn := BatchTurn(b, batch[0], ios[0]);
    FirstOf(batch, k);
    if k < 5 {
      LuckyTurn(b, batch[0], k, ios[0]);
      LuckyFrom(start, turn.build, batch[1..], ios[1..], k + 1);
    } else {
      LastTurn(b, batch[0], ios[0]);
      assert BatchFrom(start, turn.build, batch[1..], ios[1..]) == Outcome(turn.build, None);
    }
  }

  function LuckyRows(): Rows {
    map id | 1 <= id <= 9 :: Fresh(PathAt(0, id), 0, if LeafId(id) then Some("") else None, !LeafId(id))
  }

  lemma FilesApart(f: string, g: string)
    requires f in LuckyFiles() && g in LuckyFiles()
    ensures !Under(f, g)
  {
    if f != g { Apart(f, g); }
  }

  /** Each row stands on one of the paths to a file. */
  lemma RowInTree(id: ArtifactId)
    requires IsRow(id)
    ensures PathAt(0, id) in TreeOf(LuckyFiles()) && (PathAt(0, id) in LuckyFiles() <==> LeafId(id))
  {
    InTree(LuckyFiles(), PathAt(0, id));
    assert "g/h/c/m/y"[..3] == "g/h" && "g/h/c/m/y"[..5] == "g/h/c" && "c/m/y/z"[..3] == "c/m";
    assert "q/g/h/c/m/y/z"[..3] == "q/g" && "q/g/h/c/m/y/z"[..7] == "q/g/h/c" && "q/g/h/c/m/y/z"[..11] == "q/g/h/c/m/y";
    assert Below("g/h/c/m/y", PathAt(0, id)) || Below("q/g/h/c/m/y/z", PathAt(0, id)) || Below("c/m/y/z", PathAt(0, id));
  }

  lemma PathsDistinct(i: ArtifactId, j: ArtifactId)
    requires IsRow(i) && IsRow(j) && PathAt(0, i) == PathAt(0, j)
    ensures i == j
  {
    assert |PathAt(0, i)| == |PathAt(0, j)| && PathAt(0, i)[0] == PathAt(0, j)[0];
  }

  lemma LuckyAligned(b: Build)
    requires b == Build(LuckyRows(), TreeOf(LuckyFiles()))
    ensures Aligned(b) && Stage(b.rows, 0)
  {
    forall f, g | f in LuckyFiles() && g in LuckyFiles() ensures !Under(f, g) { FilesApart(f, g); }
    TreeOk(LuckyFiles());
    forall i, j, path | RowAt(b.rows, i, path) && RowAt(b.rows, j, path) ensures i == j { PathsDistinct(i, j); }
    forall id | id in b.rows ensures RowOk(b, id) { RowInTree(id); }
  }

  ghost function AfterTurns(b: Build, batch: seq<Selected>, ios: seq<Io>, n: nat): Build
    requires n <= |batch| == |ios|
    decreases n
  {
    if n == 0 then b else AfterTurns(BatchTurn(b, batch[0], ios[0]).build, batch[1..], ios[1..], n - 1)
  }

  lemma {:induction false} UnalignedAfter(b: Build, batch: seq<Selected>, ios: seq<Io>, n: nat)
    requires n <= |batch| == |ios| && !Aligned(AfterTurns(b, batch, ios, n))
    ensures !AlignedThroughout(b, batch, ios)
    decreases n
  {
    if n > 0 { UnalignedAfter(BatchTurn(b, batch[0], ios[0]).build, batch[1..], ios[1..], n - 1); }
  }

  lemma AfterThree(b: Build, batch: seq<Selected>, ios: seq<Io>)
    requires 3 <= |batch| == |ios|
    ensures AfterTurns(b, batch, ios, 3)
      == BatchTurn(BatchTurn(BatchTurn(b, batch[0], ios[0]).build, batch[1], ios[1]).build, batch[2], ios[2]).build
  {
    var one := BatchTurn(b, batch[0], ios[0]).build;
    var two := BatchTurn(one, batch[1], ios[1]).build;
    assert AfterTurns(one, batch[1..], ios[1..], 2) == AfterTurns(two, batch[1..][1..], ios[1..][1..], 1);
    assert AfterTurns(two, batch[1..][1..], ios[1..][1..], 1) == BatchTurn(two, batch[2], ios[2]).build;
  }

  lemma NotThroughout(b: Build, batch: seq<Selected>, ios: seq<Io>)
    requires Lucky(b, 0) && |batch| == 6 == |ios| && AllRenamed(ios) && LuckyBatch(batch, 0)
    ensures !AlignedThroughout(b, batch, ios)
  {
    assert forall j :: 0 <= j < 6 ==> IsPick(batch[j], 0 + j);
    var one := BatchTurn(b, batch[0], ios[0]).build;
    assert Lucky(one, 1) by { LuckyTurn(b, batch[0], 0, ios[0]); }
    var two := BatchTurn(one, batch[1], ios[1]).build;
    assert Lucky(two, 2) by { LuckyTurn(one, batch[1], 1, ios[1]); }
    var three := BatchTurn(two, batch[2], ios[2]).build;
    assert !Aligned(three) by {
      LuckyTurn(two, batch[2], 2, ios[2]);
      StrayMisaligns(three);
    }
    AfterThree(b, batch, ios);
    UnalignedAfter(b, batch, ios, 3);
  }

  function LuckyIds(): seq<ArtifactId> { [1, 4, 3, 7, 2, 9] }

  function LuckyNames(): seq<string> { ["h", "g", "y", "m", "c", "z"] }

  lemma LuckyMovable(rows: Rows, k: nat)
    requires Stage(rows, 0) && k < 6 && rows[Picked(k)].name == Name(rows[Picked(k)].path)
    ensures Movable(rows, LuckyIds()[k], LuckyDirs()[k], LuckyNames()[k])
  {
    assert LuckyIds()[k] == Picked(k);
    assert "g/h" == "g" + "/" + "h" && "q/g" == "q" + "/" + "g" && "c/m" == "c" + "/" + "m";
    assert "g/h/c/m/y" == "g/h/c/m" + "/" + "y" && "g/h/c" == "g/h" + "/" + "c" && "c/m/y/z" == "c/m/y" + "/" + "z";
  }

  lemma LuckyPicks(rows: Rows, batch: seq<Selected>)
    requires Stage(rows, 0) && batch == ToRoot(rows, LuckyIds(), LuckyNames())
    ensures LuckyBatch(batch, 0)
  {
    forall j | 0 <= j < 6 ensures IsPick(batch[j], j) {
      assert LuckyIds()[j] == Picked(j) && LuckyNames()[j] == To(j);
    }
  }

  function LuckyDirs(): seq<string> { ["g", "q", "g/h/c/m", "c", "g/h", "c/m/y"] }

  lemma LuckyResolves(b: Build)
    requires Aligned(b) && Stage(b.rows, 0)
    ensures forall k :: 0 <= k < 6 ==> LuckyIds()[k] in b.rows
    ensures ResolvedBatch(b.rows, LuckyIds(), "") == Ok(ToRoot(b.rows, LuckyIds(), LuckyNames()))
  {
    forall k | 0 <= k < 6
      ensures LuckyIds()[k] in b.rows && Movable(b.rows, LuckyIds()[k], LuckyDirs()[k], LuckyNames()[k])
    {
      assert LuckyIds()[k] == Picked(k) && RowOk(b, Picked(k));
      LuckyMovable(b.rows, k);
    }
    ResolvesToRoot(b.rows, LuckyIds(), LuckyDirs(), LuckyNames());
  }

  lemma WithoutAligned(b: Build)
    requires Aligned(b)
    ensures Aligned(Without(b))
  {
    var rest := Without(b);
    forall i | i in rest.rows ensures RowOk(rest, i) { assert RowOk(b, i); }
    forall i, j, path | RowAt(rest.rows, i, path) && RowAt(rest.rows, j, path) ensures i == j {
      assert RowAt(b.rows, i, path) && RowAt(b.rows, j, path);
    }
  }

  lemma LuckyMove(b: Build, ios: seq<Io>)
    requires Aligned(b) && Stage(b.rows, 0) && DiskStage(b.disk, 0)
    requires |ios| == 6 && AllRenamed(ios)
    ensures var batch := ResolvedBatch(b.rows, LuckyIds(), "");
      batch.Ok? && |batch.value| == 6 && !AlignedThroughout(b, batch.value, ios)
    ensures var outcome := MoveFiles(b, LuckyIds(), "", ios);
      outcome.error.None? && Aligned(outcome.build)
  {
    LuckyResolves(b);
    var batch := ToRoot(b.rows, LuckyIds(), LuckyNames());
    LuckyPicks(b.rows, batch);
    WithoutAligned(b);
    LuckyFrom(b.rows, b, batch, ios, 0);
    NotThroughout(b, batch, ios);
    assert MoveFiles(b, LuckyIds(), "", ios) == BatchFrom(b.rows, b, batch, ios);
  }

  lemma InLuckyTree(q: string)
    ensures q in TreeOf(LuckyFiles()) <==>
      q != "" && (Below("g/h/c/m/y", q) || Below("q/g/h/c/m/y/z", q) || Below("c/m/y/z", q) || Below("z", q))
  {
    InTree(LuckyFiles(), q);
  }

  lemma NothingBetween(dir: string, name: char, q: string)
    requires name != '/' && Under(q, dir)
    ensures !Under(dir + "/" + [name], q)
  {
  }

  /** The folder `dir` of the tree holds the folder `inner`, and nothing beside it. */
  lemma LuckyHolds(dir: string, name: char, file: string)
    requires (dir, name, file) in {("g", 'h', "g/h/c/m/y"), ("c", 'm', "c/m/y/z")}
    ensures Holds(TreeOf(LuckyFiles()), dir, dir + "/" + [name])
  {
    var disk, inner := TreeOf(LuckyFiles()), dir + "/" + [name];
    InLuckyTree(dir);
    assert Under(file, dir) && Under(file, inner);
    forall q | q in disk && Under(q, dir) ensures Below(q, inner) {
      InLuckyTree(q);
      assert q[0] == q[..1][0] == dir[0];
      assert Below(file, q) by { OnlyByLetter(q, file); }
      UnderTotal(file, q, inner);
      NothingBetween(dir, name, q);
    }
  }

  lemma OnlyByLetter(q: string, file: string)
    requires q in TreeOf(LuckyFiles()) && file in LuckyFiles() && q[0] == file[0]
    ensures Below(file, q)
  {
    InLuckyTree(q);
    forall f | f in LuckyFiles() && f[0] != q[0] ensures !Below(f, q) { Apart(f, q); }
  }

  lemma NotInLuckyTree(q: string)
    requires q in {"h", "y", "m"}
    ensures q !in TreeOf(LuckyFiles())
  {
    InLuckyTree(q);
    forall f | f in LuckyFiles() ensures !Below(f, q) { Apart(f, q); }
  }

  lemma LuckyDisk()
    ensures DiskStage(TreeOf(LuckyFiles()), 0)
  {
    forall f, g | f in LuckyFiles() && g in LuckyFiles() ensures !Under(f, g) { FilesApart(f, g); }
    TreeOk(LuckyFiles());
    InLuckyTree("z");
    NotInLuckyTree("h");
    NotInLuckyTree("y");
    NotInLuckyTree("m");
    LuckyHolds("g", 'h', "g/h/c/m/y");
    LuckyHolds("c", 'm', "c/m/y/z");
    assert "g" + "/" + ['h'] == "g/h" && "c" + "/" + ['m'] == "c/m";
  }

  /** A batch that parts a row from its file can still leave rows and disk aligned: on this
      build the third turn does, and the last one puts the row over an untracked file. */
  lemma CompletedBatchCanRealign(ios: seq<Io>)
    requires |ios| == 6 && AllRenamed(ios)
    ensures var b, ids := Build(LuckyRows(), TreeOf(LuckyFiles())), LuckyIds();
      && Aligned(b) && !Selectable(b.rows, ids)
      && MoveFiles(b, ids, "", ios).error.None? && Aligned(MoveFiles(b, ids, "", ios).build)
      && ResolvedBatch(b.rows, ids, "").Ok? && |ResolvedBatch(b.rows, ids, "").value| == 6
      && !AlignedThroughout(b, ResolvedBatch(b.rows, ids, "").value, ios)
  {
    var b := Build(LuckyRows(), TreeOf(LuckyFiles()));
    LuckyAligned(b);
    LuckyDisk();
    LuckyMove(b, ios);
    NotSelectable(b.rows);
  }

  lemma NotSelectable(rows: Rows)
    requires Stage(rows, 0)
    ensures !Selectable(rows, LuckyIds())
  {
    assert "g/h/c/m/y"[..3] == "g/h";
    assert LuckyIds()[0] == 1 && LuckyIds()[2] == 3 && rows[1].path == "g/h" && rows[3].path == "g/h/c/m/y";
  }
}
