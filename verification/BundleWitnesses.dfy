/** Batches that part rows from disk though no filesystem call fails. One completes: it moves a
    folder, then another into its old place, then a file that lay below the first and whose path
    now names a folder of the second. One fails: it moves a folder, then looks for a file in it. */
module BundleWitnesses {
  import opened Wrappers
  import opened Paths
  import opened BundleTree
  import opened BundleAlignment
  import opened BundleMoves
  import opened BundleBatches

  function PathOf(id: ArtifactId): string {
    if id == 1 then "g/f" else if id == 2 then "g/f/y" else if id == 3 then "q/g"
    else if id == 4 then "q/g/f" else if id == 5 then "q/g/f/y" else "q/g/f/y/z"
  }

  predicate FileId(id: ArtifactId) { id == 2 || id == 6 }

  function RowOf(id: ArtifactId): Artifact {
    Fresh(PathOf(id), 0, if FileId(id) then Some("") else None, !FileId(id))
  }

  function NestedRows(): Rows { map id | 1 <= id <= 6 :: RowOf(id) }

  function NestedDisk(): Disk {
    map["g" := Dir, "g/f" := Dir, "g/f/y" := File(0, ""), "q" := Dir, "q/g" := Dir,
        "q/g/f" := Dir, "q/g/f/y" := Dir, "q/g/f/y/z" := File(0, "")]
  }

  lemma DiskOkHere()
    ensures DiskOk(NestedDisk())
  {
    var disk := NestedDisk();
    forall p, q | p in disk && Under(p, q) && q != "" ensures q in disk && disk[q].Dir? {
      assert q == p[..|q|] && p[|q|] == '/';
      assert "g/f"[..1] == "g";
      assert "g/f/y"[..1] == "g" && "g/f/y"[..3] == "g/f";
      assert "q/g"[..1] == "q";
      assert "q/g/f"[..1] == "q" && "q/g/f"[..3] == "q/g";
      assert "q/g/f/y"[..1] == "q" && "q/g/f/y"[..3] == "q/g" && "q/g/f/y"[..5] == "q/g/f";
      assert "q/g/f/y/z"[..1] == "q" && "q/g/f/y/z"[..3] == "q/g" && "q/g/f/y/z"[..5] == "q/g/f"
          && "q/g/f/y/z"[..7] == "q/g/f/y";
    }
  }

  lemma PathsDiffer(i: ArtifactId, j: ArtifactId)
    requires 1 <= i <= 6 && 1 <= j <= 6 && PathOf(i) == PathOf(j)
    ensures i == j
  {
    assert |PathOf(i)| == |PathOf(j)| && PathOf(i)[0] == PathOf(j)[0];
  }

  lemma NodeOf(id: ArtifactId)
    requires 1 <= id <= 6
    ensures PathOf(id) != "" && PathOf(id) in NestedDisk() && (FileId(id) <==> NestedDisk()[PathOf(id)].File?)
  {
  }

  lemma AlignedOf(rows: Rows, disk: Disk)
    requires rows == NestedRows() && DiskOk(disk)
    requires forall id :: 1 <= id <= 6 ==> PathOf(id) != "" && PathOf(id) in disk && (FileId(id) <==> disk[PathOf(id)].File?)
    requires forall i, j :: 1 <= i <= 6 && 1 <= j <= 6 && PathOf(i) == PathOf(j) ==> i == j
    ensures Aligned(Build(rows, disk))
  {
    assert forall id :: id in rows ==> 1 <= id <= 6 && rows[id] == RowOf(id) && rows[id].path == PathOf(id);
  }

  lemma AlignedHere()
    ensures Aligned(Build(NestedRows(), NestedDisk()))
  {
    DiskOkHere();
    forall id | 1 <= id <= 6 ensures PathOf(id) != "" && PathOf(id) in NestedDisk() && (FileId(id) <==> NestedDisk()[PathOf(id)].File?) {
      NodeOf(id);
    }
    forall i, j | 1 <= i <= 6 && 1 <= j <= 6 && PathOf(i) == PathOf(j) ensures i == j { PathsDiffer(i, j); }
    AlignedOf(NestedRows(), NestedDisk());
  }

  /** A turn that moves an entry to the root of the build. */
  lemma RootTurn(b: Build, sel: Selected, id: ArtifactId, io: Io)
    requires Aligned(b) && RowAt(b.rows, id, sel.entry.path) && Parent(sel.target) == ""
    requires DestinationFree(b.rows, sel.target, sel.entry.isDir)
    requires Renamable(b.disk, sel.entry.path, sel.target) && io.renamed
    ensures BatchTurn(b, sel, io)
      == Outcome(Build(RowsMoved(b.rows, id, sel.entry.path, sel.target, sel.entry.isDir),
                       RenamedDisk(b.disk, sel.entry.path, sel.target)), None)
    ensures BatchTurn(b, sel, io) == MoveSubtree(b, id, sel.entry.path, sel.target, sel.entry.isDir, io)
  {
    assert RowAt(b.rows, RowIdAt(b.rows, sel.entry.path), sel.entry.path);
    assert MadeDirs(b.disk, "", io.made) == b.disk;
  }

  lemma FreeAt(rows: Rows, target: string, isDir: bool)
    requires target != "" && forall id :: id in rows ==> rows[id].path != "" && rows[id].path[0] != target[0]
    ensures DestinationFree(rows, target, isDir)
  {
  }

  lemma RenamableToRoot(disk: Disk, source: string, target: string)
    requires DiskOk(disk) && source in disk && target != "" && target !in disk && !Under(target, source)
    requires Parent(target) == ""
    ensures Renamable(disk, source, target)
  {
  }

  /** The rows and the tree a move to the root leaves. */
  ghost function MovedToRoot(b: Build, id: ArtifactId, sel: Selected): Build {
    Build(RowsMoved(b.rows, id, sel.entry.path, sel.target, sel.entry.isDir),
          RenamedDisk(b.disk, sel.entry.path, sel.target))
  }

  lemma AlignedRootTurn(b: Build, sel: Selected, io: Io)
    requires Aligned(b) && Resolved(b.rows, [sel]) && Parent(sel.target) == ""
    requires DestinationFree(b.rows, sel.target, sel.entry.isDir)
    requires Renamable(b.disk, sel.entry.path, sel.target) && io.renamed
    ensures BatchTurn(b, sel, io) == Outcome(MovedToRoot(b, sel.id, sel), None)
    ensures Aligned(MovedToRoot(b, sel.id, sel)) && GoodRename(b.disk, sel.entry.path, sel.target)
  {
    assert [sel][0] == sel;
    RootTurn(b, sel, sel.id, io);
    TurnKeepsAligned(b, [sel], io);
    assert RowOk(b, sel.id);
  }

  /** Moving an entry to a name that no path starts with completes. */
  lemma FreshRootTurn(b: Build, sel: Selected, io: Io)
    requires Aligned(b) && Resolved(b.rows, [sel]) && sel.target != "" && NoSlash(sel.target) && io.renamed
    requires forall id :: id in b.rows ==> b.rows[id].path != "" && b.rows[id].path[0] != sel.target[0]
    requires sel.target !in b.disk
    ensures BatchTurn(b, sel, io) == Outcome(MovedToRoot(b, sel.id, sel), None)
    ensures Aligned(MovedToRoot(b, sel.id, sel)) && GoodRename(b.disk, sel.entry.path, sel.target)
  {
    assert [sel][0] == sel;
    assert RowOk(b, sel.id);
    FreeAt(b.rows, sel.target, sel.entry.isDir);
    ParentOf("", sel.target);
    RenamableToRoot(b.disk, sel.entry.path, sel.target);
    AlignedRootTurn(b, sel, io);
  }

  /** What stands under another letter than a move's target was there before, outside the
      folder it took. */
  lemma ElsewhereAfter(b: Build, sel: Selected, q: string)
    requires GoodRename(b.disk, sel.entry.path, sel.target) && q != "" && q[0] != sel.target[0]
    ensures var disk := MovedToRoot(b, sel.id, sel).disk;
      (q in disk <==> q in b.disk && !Below(q, sel.entry.path)) && (q in disk ==> disk[q] == b.disk[q])
  {
    RenamedNode(b.disk, sel.entry.path, sel.target, q);
    Apart(q, sel.target);
  }

  lemma Apart(p: string, q: string)
    requires p != "" && q != "" && p[0] != q[0]
    ensures !Below(p, q)
  {
  }

  /** Once the folder below `next.target` has moved away, that name takes another folder. */
  lemma RefilledTurn(b: Build, sel: Selected, next: Selected, io: Io)
    requires Aligned(b) && GoodRename(b.disk, sel.entry.path, sel.target)
    requires var moved := MovedToRoot(b, sel.id, sel); Aligned(moved) && Resolved(moved.rows, [next])
    requires next.target != "" && NoSlash(next.target) && next.target[0] != sel.target[0] && io.renamed
    requires next.entry.isDir && next.target in b.disk && b.disk[next.target].Dir? && Under(sel.entry.path, next.target)
    requires forall q :: q in b.disk && Under(q, next.target) ==> Below(q, sel.entry.path)
    requires !ExistsAt(b.rows, next.target)
    ensures BatchTurn(MovedToRoot(b, sel.id, sel), next, io) == Outcome(MovedToRoot(MovedToRoot(b, sel.id, sel), next.id, next), None)
    ensures Aligned(MovedToRoot(MovedToRoot(b, sel.id, sel), next.id, next))
    ensures GoodRename(MovedToRoot(b, sel.id, sel).disk, next.entry.path, next.target)
  {
    var moved := MovedToRoot(b, sel.id, sel);
    assert [next][0] == next;
    assert RowOk(moved, next.id);
    ParentOf("", next.target);
    ElsewhereAfter(b, sel, next.target);
    forall q | q in moved.disk ensures !Under(q, next.target) {
      if Under(q, next.target) { ElsewhereAfter(b, sel, q); }
    }
    forall id | id in moved.rows ensures moved.rows[id].path != next.target && !Under(moved.rows[id].path, next.target) {
      assert RowOk(moved, id) && !RowAt(b.rows, id, next.target);
    }
    assert Renamable(moved.disk, next.entry.path, next.target);
    AlignedRootTurn(moved, next, io);
  }

  /** A file entry whose old path now names a folder with a row in it: the turn takes the
      folder's own row and leaves the other behind. */
  lemma GrabbingTurn(b: Build, sel: Selected, id: ArtifactId, below: ArtifactId, io: Io)
    requires Aligned(b) && RowAt(b.rows, id, sel.entry.path) && !sel.entry.isDir && io.renamed
    requires below in b.rows && Under(b.rows[below].path, sel.entry.path)
    requires sel.target != "" && NoSlash(sel.target) && sel.target !in b.disk
    ensures BatchTurn(b, sel, io).error.None? && !Aligned(BatchTurn(b, sel, io).build)
  {
    assert RowOk(b, id);
    ParentOf("", sel.target);
    RenamableToRoot(b.disk, sel.entry.path, sel.target);
    forall i | i in b.rows ensures !RowAt(b.rows, i, sel.target) { assert RowOk(b, i); }
    RootTurn(b, sel, id, io);
    MoveAlignedExactly(b, id, sel.entry.path, sel.target, false, io);
  }

  // ----- The batch -----

  /** The row of `path` follows the folder `sel` moves. */
  lemma Follows(b: Build, sel: Selected, id: ArtifactId)
    requires id in b.rows && id != sel.id && sel.entry.isDir && Under(b.rows[id].path, sel.entry.path)
    ensures id in MovedToRoot(b, sel.id, sel).rows
    ensures MovedToRoot(b, sel.id, sel).rows[id].path == sel.target + b.rows[id].path[|sel.entry.path|..]
    ensures MovedToRoot(b, sel.id, sel).rows[id].isDir == b.rows[id].isDir
  {
  }

  lemma Stays(b: Build, sel: Selected, id: ArtifactId)
    requires id in b.rows && id != sel.id && !Under(b.rows[id].path, sel.entry.path)
    ensures id in MovedToRoot(b, sel.id, sel).rows && MovedToRoot(b, sel.id, sel).rows[id] == b.rows[id]
  {
  }

  /** The shape of the trouble: `a` is a folder below a bare directory whose name `s`, a folder
      too, will take; `c` lies below `a`, and its path is where `inner`, a folder of `s` that
      holds `below`, will come to stand. */
  ghost predicate Nested(b: Build, a: Selected, s: Selected, c: Selected, inner: ArtifactId, below: ArtifactId) {
    && Aligned(b) && Resolved(b.rows, [a, s, c]) && Targets(a.target, s.target, c.target)
    && Places(b, a, s, c) && Inner(b.rows, a, s, c, inner, below)
  }

  ghost predicate Targets(a: string, s: string, c: string) {
    && a != "" && s != "" && c != "" && NoSlash(a) && NoSlash(s) && NoSlash(c)
    && a[0] != s[0] && a[0] != c[0] && s[0] != c[0]
  }

  ghost predicate Places(b: Build, a: Selected, s: Selected, c: Selected) {
    && a.target != "" && a.target !in b.disk && c.target !in b.disk
    && (forall id :: id in b.rows ==> b.rows[id].path != "" && b.rows[id].path[0] != a.target[0])
    && s.target in b.disk && b.disk[s.target].Dir? && !ExistsAt(b.rows, s.target)
    && Under(a.entry.path, s.target)
    && (forall q :: q in b.disk && Under(q, s.target) ==> Below(q, a.entry.path))
  }

  ghost predicate Inner(rows: Rows, a: Selected, s: Selected, c: Selected, inner: ArtifactId, below: ArtifactId) {
    && s.entry.isDir && !c.entry.isDir && a.id != s.id && s.id in rows && !Under(rows[s.id].path, a.entry.path)
    && (forall i :: i in {inner, below} ==>
          i in rows && i != a.id && i != s.id && Under(rows[i].path, s.entry.path) && !Under(rows[i].path, a.entry.path))
    && Under(rows[below].path, rows[inner].path)
    && s.target + rows[inner].path[|s.entry.path|..] == c.entry.path
  }

  lemma AfterFirst(b: Build, a: Selected, s: Selected, c: Selected, inner: ArtifactId, below: ArtifactId, io: Io)
    requires Nested(b, a, s, c, inner, below) && io.renamed
    ensures BatchTurn(b, a, io) == Outcome(MovedToRoot(b, a.id, a), None) && Aligned(MovedToRoot(b, a.id, a))
    ensures GoodRename(b.disk, a.entry.path, a.target)
  {
    assert Resolved(b.rows, [a]) by { assert [a, s, c][0] == a; }
    FreshRootTurn(b, a, io);
  }

  lemma AfterSecond(b: Build, a: Selected, s: Selected, c: Selected, inner: ArtifactId, below: ArtifactId, io: Io)
    requires Nested(b, a, s, c, inner, below) && io.renamed
    requires var moved := MovedToRoot(b, a.id, a); Aligned(moved) && GoodRename(b.disk, a.entry.path, a.target)
    ensures var moved := MovedToRoot(b, a.id, a);
      BatchTurn(moved, s, io) == Outcome(MovedToRoot(moved, s.id, s), None) && Aligned(MovedToRoot(moved, s.id, s))
      && GoodRename(moved.disk, s.entry.path, s.target)
  {
    var moved := MovedToRoot(b, a.id, a);
    assert Resolved(moved.rows, [s]) by {
      assert [a, s, c][1] == s;
      Stays(b, a, s.id);
    }
    RefilledTurn(b, a, s, io);
  }

  lemma RowsAfterTwo(b: Build, a: Selected, s: Selected, c: Selected, inner: ArtifactId, below: ArtifactId)
    requires Inner(b.rows, a, s, c, inner, below)
    ensures var rows := MovedToRoot(MovedToRoot(b, a.id, a), s.id, s).rows;
      RowAt(rows, inner, c.entry.path) && below in rows && Under(rows[below].path, c.entry.path)
  {
    var moved := MovedToRoot(b, a.id, a);
    var outer, source := b.rows[inner].path, s.entry.path;
    Stays(b, a, inner);
    Stays(b, a, below);
    Follows(moved, s, inner);
    UnderTrans(b.rows[below].path, outer, source);
    Follows(moved, s, below);
    var path := s.target + b.rows[below].path[|source|..];
    assert path[..|c.entry.path|] == c.entry.path && path[|c.entry.path|] == b.rows[below].path[|outer|] by {
      assert b.rows[below].path[..|outer|] == outer;
    }
  }

  lemma FreeAfterTwo(b: Build, a: Selected, s: Selected, c: Selected)
    requires GoodRename(b.disk, a.entry.path, a.target) && Targets(a.target, s.target, c.target)
    requires GoodRename(MovedToRoot(b, a.id, a).disk, s.entry.path, s.target) && c.target !in b.disk
    ensures c.target !in MovedToRoot(MovedToRoot(b, a.id, a), s.id, s).disk
  {
    ElsewhereAfter(b, a, c.target);
    ElsewhereAfter(MovedToRoot(b, a.id, a), s, c.target);
  }

  /** Every turn of such a batch completes, and the row below the folder that `c`'s turn
      grabbed is left without its file. */
  lemma NestedBatchMisaligns(b: Build, a: Selected, s: Selected, c: Selected, inner: ArtifactId, below: ArtifactId, io: Io)
    requires Nested(b, a, s, c, inner, below) && io.renamed
    ensures BatchFrom(b.rows, b, [a, s, c], [io, io, io]).error.None?
    ensures !Aligned(BatchFrom(b.rows, b, [a, s, c], [io, io, io]).build)
  {
    var one := MovedToRoot(b, a.id, a);
    var two := MovedToRoot(one, s.id, s);
    AfterFirst(b, a, s, c, inner, below, io);
    AfterSecond(b, a, s, c, inner, below, io);
    RowsAfterTwo(b, a, s, c, inner, below);
    FreeAfterTwo(b, a, s, c);
    GrabbingTurn(two, c, inner, below, io);
    ThreeTurns(b.rows, b, a, s, c, io);
  }

  lemma ThreeTurns(start: Rows, b: Build, a: Selected, s: Selected, c: Selected, io: Io)
    requires BatchTurn(b, a, io).error.None?
    requires BatchTurn(BatchTurn(b, a, io).build, s, io).error.None?
    requires BatchTurn(BatchTurn(BatchTurn(b, a, io).build, s, io).build, c, io).error.None?
    ensures BatchFrom(start, b, [a, s, c], [io, io, io])
      == BatchTurn(BatchTurn(BatchTurn(b, a, io).build, s, io).build, c, io)
  {
    var one := BatchTurn(b, a, io).build;
    var two := BatchTurn(one, s, io).build;
    assert BatchFrom(start, b, [a, s, c], [io, io, io]) == BatchFrom(start, one, [s, c], [io, io]) by {
      assert [a, s, c][1..] == [s, c] && [io, io, io][1..] == [io, io];
    }
    assert BatchFrom(start, one, [s, c], [io, io]) == BatchFrom(start, two, [c], [io]) by {
      assert [s, c][1..] == [c] && [io, io][1..] == [io];
    }
    var three := BatchTurn(two, c, io);
    assert BatchFrom(start, two, [c], [io]) == BatchFrom(start, three.build, [], []) by {
      assert [c][1..] == [] && [io][1..] == [];
    }
    assert BatchFrom(start, three.build, [], []) == Outcome(three.build, None);
  }

  // ----- The concrete build -----

  ghost predicate Shaped(rows: Rows) {
    (forall i :: i in rows <==> 1 <= i <= 6)
    && forall i :: i in rows ==> rows[i].path == PathOf(i) && (rows[i].isDir <==> !FileId(i))
  }

  ghost predicate Selects(sel: Selected, id: ArtifactId, target: string) {
    sel.id == id && sel.entry.path == PathOf(id) && (sel.entry.isDir <==> !FileId(id)) && sel.target == target
  }

  lemma OnlyOneFolder(q: string)
    requires q in NestedDisk() && Under(q, "g")
    ensures Below(q, "g/f")
  {
    assert q[0] == 'g' && |q| > 1;
    assert "g/f/y"[..3] == "g/f";
  }

  lemma NestedPlaces(rows: Rows, a: Selected, s: Selected, c: Selected)
    requires Shaped(rows) && Selects(a, 1, "f") && Selects(s, 3, "g") && Selects(c, 2, "y")
    ensures Places(Build(rows, NestedDisk()), a, s, c)
  {
    var disk := NestedDisk();
    forall q | q in disk && Under(q, "g") ensures Below(q, "g/f") { OnlyOneFolder(q); }
    assert "f" !in disk && "y" !in disk && "g" in disk && disk["g"].Dir?;
    assert Under("g/f", "g");
  }

  lemma NestedInner(rows: Rows, a: Selected, s: Selected, c: Selected)
    requires Shaped(rows) && Selects(a, 1, "f") && Selects(s, 3, "g") && Selects(c, 2, "y")
    ensures Inner(rows, a, s, c, 5, 6)
  {
    assert PathOf(5) == "q/g/f/y" && PathOf(6) == "q/g/f/y/z" && PathOf(3) == "q/g";
    assert "q/g/f/y"[..3] == "q/g" && "q/g/f/y/z"[..3] == "q/g" && "q/g/f/y/z"[..7] == "q/g/f/y";
    assert "g" + "q/g/f/y"[3..] == "g/f/y";
  }

  lemma NameOf(dir: string, name: string)
    requires NoSlash(name)
    ensures Name(dir + "/" + name) == name
  {
    SplitConcat(dir, name);
    SplitPlain(name);
  }

  lemma JoinedToRoot(name: string)
    requires Plain(name)
    ensures JoinTargetDir("", name) == Ok(name)
  {
    SplitPlain(name);
    NormalIsFixed(name);
  }

  lemma ResolvesNext(rows: Rows, id: ArtifactId, rest: seq<ArtifactId>)
    requires id in rows && Plain(rows[id].name) && MoveRefusal(rows[id], rows[id].name).None?
    requires ResolvedBatch(rows, rest, "").Ok?
    ensures ResolvedBatch(rows, [id] + rest, "")
      == Ok([Selected(id, rows[id], rows[id].name)] + ResolvedBatch(rows, rest, "").value)
  {
    JoinedToRoot(rows[id].name);
    assert ([id] + rest)[1..] == rest;
  }

  lemma MovableToRoot(row: Artifact, dir: string, name: string)
    requires row.path == dir + "/" + name && row.name == Name(row.path) && Plain(name)
    ensures row.name == name && MoveRefusal(row, name).None?
  {
    NameOf(dir, name);
  }

  /** The entry `id` is picked, and would go to the root under its own name. */
  ghost predicate Movable(rows: Rows, id: ArtifactId, dir: string, name: string) {
    id in rows && rows[id].path == dir + "/" + name && rows[id].name == Name(rows[id].path) && Plain(name)
  }

  /** Entries that go to the root, each under its own name. */
  function ToRoot(rows: Rows, ids: seq<ArtifactId>, names: seq<string>): seq<Selected>
    requires |ids| == |names| && forall k :: 0 <= k < |ids| ==> ids[k] in rows
  {
    seq(|ids|, k requires 0 <= k < |ids| => Selected(ids[k], rows[ids[k]], names[k]))
  }

  lemma ToRootCons(rows: Rows, ids: seq<ArtifactId>, names: seq<string>)
    requires |ids| == |names| && ids != [] && forall k :: 0 <= k < |ids| ==> ids[k] in rows
    ensures ToRoot(rows, ids, names) == [Selected(ids[0], rows[ids[0]], names[0])] + ToRoot(rows, ids[1..], names[1..])
  {
  }

  lemma {:induction false} ResolvesToRoot(rows: Rows, ids: seq<ArtifactId>, dirs: seq<string>, names: seq<string>)
    requires |ids| == |dirs| == |names|
    requires forall k :: 0 <= k < |ids| ==> ids[k] in rows && Movable(rows, ids[k], dirs[k], names[k])
    ensures ResolvedBatch(rows, ids, "") == Ok(ToRoot(rows, ids, names))
    decreases |ids|
  {
    if ids == [] {
      assert ToRoot(rows, ids, names) == [];
    } else {
      var id, rest := ids[0], ids[1..];
      MovableToRoot(rows[id], dirs[0], names[0]);
      assert ResolvedBatch(rows, rest, "") == Ok(ToRoot(rows, rest, names[1..])) by {
        ResolvesToRoot(rows, rest, dirs[1..], names[1..]);
      }
      assert ResolvedBatch(rows, [id] + rest, "") == Ok([Selected(id, rows[id], names[0])] + ToRoot(rows, rest, names[1..])) by {
        ResolvesNext(rows, id, rest);
      }
      assert [id] + rest == ids;
      ToRootCons(rows, ids, names);
    }
  }

  lemma NestedMovable(rows: Rows)
    requires Shaped(rows) && forall id :: id in rows ==> rows[id].name == Name(rows[id].path)
    ensures Movable(rows, 1, "g", "f") && Movable(rows, 3, "q", "g") && Movable(rows, 2, "g/f", "y")
  {
    assert PathOf(1) == "g" + "/" + "f" && PathOf(3) == "q" + "/" + "g" && PathOf(2) == "g/f" + "/" + "y";
  }

  lemma ShapedHere()
    ensures Shaped(NestedRows()) && forall id :: id in NestedRows() ==> NestedRows()[id].name == Name(NestedRows()[id].path)
  {
  }

  lemma MovesThree(b: Build, a: Selected, s: Selected, c: Selected, ids: seq<ArtifactId>, ios: seq<Io>)
    requires |ids| == |ios| == 3 && ResolvedBatch(b.rows, ids, "") == Ok([a, s, c])
    ensures MoveFiles(b, ids, "", ios) == BatchFrom(b.rows, b, [a, s, c], ios)
    ensures Resolved(b.rows, [a, s, c])
  {
    ResolvedBatchIs(b.rows, ids, "");
  }

  lemma NestedResolves(rows: Rows)
    requires Shaped(rows) && Movable(rows, 1, "g", "f") && Movable(rows, 3, "q", "g") && Movable(rows, 2, "g/f", "y")
    ensures var a, s, c := Selected(1, rows[1], "f"), Selected(3, rows[3], "g"), Selected(2, rows[2], "y");
      ResolvedBatch(rows, [1, 3, 2], "") == Ok([a, s, c]) && ResolvedBatch(rows, [1, 2], "") == Ok([a, c])
  {
    var a, s, c := Selected(1, rows[1], "f"), Selected(3, rows[3], "g"), Selected(2, rows[2], "y");
    ResolvesToRoot(rows, [1, 3, 2], ["g", "q", "g/f"], ["f", "g", "y"]);
    ResolvesToRoot(rows, [1, 2], ["g", "g/f"], ["f", "y"]);
    assert ToRoot(rows, [1, 3, 2], ["f", "g", "y"]) == [a, s, c] && ToRoot(rows, [1, 2], ["f", "y"]) == [a, c];
  }

  lemma NestedHere(b: Build, a: Selected, s: Selected, c: Selected)
    requires Aligned(b) && Shaped(b.rows) && b.disk == NestedDisk() && Resolved(b.rows, [a, s, c])
    requires Selects(a, 1, "f") && Selects(s, 3, "g") && Selects(c, 2, "y")
    ensures Nested(b, a, s, c, 5, 6)
  {
    assert Places(b, a, s, c) by { NestedPlaces(b.rows, a, s, c); }
    assert Inner(b.rows, a, s, c, 5, 6) by { NestedInner(b.rows, a, s, c); }
  }

  lemma NestedMisaligns(b: Build, ids: seq<ArtifactId>, a: Selected, s: Selected, c: Selected, io: Io)
    requires |ids| == 3 && ResolvedBatch(b.rows, ids, "") == Ok([a, s, c]) && Nested(b, a, s, c, 5, 6) && io.renamed
    ensures MoveFiles(b, ids, "", [io, io, io]).error.None?
    ensures !Aligned(MoveFiles(b, ids, "", [io, io, io]).build)
  {
    MovesThree(b, a, s, c, ids, [io, io, io]);
    NestedBatchMisaligns(b, a, s, c, 5, 6, io);
  }

  /** A batch that completes can leave a row with no file: on this build, moving entries 1, 3
      and 2 to the root in this order does, though no call fails. */
  lemma CompletedBatchCanMisalign(io: Io)
    requires io.renamed
    ensures var b, ids, ios := Build(NestedRows(), NestedDisk()), [1, 3, 2], [io, io, io];
      Aligned(b) && MoveFiles(b, ids, "", ios).error.None? && !Aligned(MoveFiles(b, ids, "", ios).build)
  {
    AlignedHere();
    ShapedHere();
    var rows := NestedRows();
    NestedMovable(rows);
    NestedResolves(rows);
    var a, s, c := Selected(1, rows[1], "f"), Selected(3, rows[3], "g"), Selected(2, rows[2], "y");
    MovesThree(Build(rows, NestedDisk()), a, s, c, [1, 3, 2], [io, io, io]);
    NestedHere(Build(rows, NestedDisk()), a, s, c);
    NestedMisaligns(Build(rows, NestedDisk()), [1, 3, 2], a, s, c, io);
  }

  // ----- A folder, then a file that was in it -----

  lemma GoneWithTheFolder(rows: Rows, a: Selected, path: string)
    requires a.id in rows && rows[a.id] == a.entry && a.entry.isDir && Under(path, a.entry.path) && a.target != ""
    requires forall id :: id in rows ==> rows[id].path != "" && rows[id].path[0] != a.target[0]
    ensures !ExistsAt(RowsMoved(rows, a.id, a.entry.path, a.target, true), path)
  {
    assert path[0] == a.entry.path[0];
  }

  /** The first turn takes the file along; the second finds no row where it was, and the folder's
      row rolls back to a path the folder has left. */
  lemma FolderThenItsFile(b: Build, a: Selected, c: Selected, io: Io)
    requires Aligned(b) && Resolved(b.rows, [a, c]) && a.entry.isDir && Under(c.entry.path, a.entry.path) && io.renamed
    requires a.target != "" && NoSlash(a.target) && NoSlash(c.target) && a.target !in b.disk
    requires forall id :: id in b.rows ==> b.rows[id].path != "" && b.rows[id].path[0] != a.target[0]
    ensures BatchFrom(b.rows, b, [a, c], [io, io]).error.Some?
    ensures !Aligned(BatchFrom(b.rows, b, [a, c], [io, io]).build)
  {
    assert [a, c][0] == a && [a, c][1] == c;
    var one := MovedToRoot(b, a.id, a);
    assert BatchTurn(b, a, io) == Outcome(one, None) by {
      assert Resolved(b.rows, [a]);
      FreshRootTurn(b, a, io);
    }
    GoneWithTheFolder(b.rows, a, c.entry.path);
    assert BatchTurn(one, c, io).error.Some?;
    assert BatchFrom(b.rows, b, [a, c], [io, io]) == BatchFrom(b.rows, one, [c], [io]) by {
      assert [a, c][1..] == [c] && [io, io][1..] == [io];
    }
    assert RowOk(b, a.id) && RowOk(b, c.id);
    ParentOf("", a.target);
    ParentOf("", c.target);
    FailedFromMisaligned(b.rows, b, [a, c], [io, io]);
  }

  lemma MovesTwo(b: Build, a: Selected, c: Selected, ids: seq<ArtifactId>, ios: seq<Io>)
    requires |ids| == |ios| == 2 && ResolvedBatch(b.rows, ids, "") == Ok([a, c])
    ensures MoveFiles(b, ids, "", ios) == BatchFrom(b.rows, b, [a, c], ios)
    ensures Resolved(b.rows, [a, c])
  {
    ResolvedBatchIs(b.rows, ids, "");
  }

  lemma NestedPair(rows: Rows, a: Selected, c: Selected)
    requires Shaped(rows) && Selects(a, 1, "f") && Selects(c, 2, "y")
    ensures a.entry.isDir && Under(c.entry.path, a.entry.path) && a.target != "" && NoSlash(a.target) && NoSlash(c.target)
    ensures a.target !in NestedDisk()
    ensures forall id :: id in rows ==> rows[id].path != "" && rows[id].path[0] != a.target[0]
  {
    assert "g/f/y"[..3] == "g/f";
  }

  lemma FailsOnNested(b: Build, ids: seq<ArtifactId>, a: Selected, c: Selected, io: Io)
    requires Aligned(b) && Shaped(b.rows) && b.disk == NestedDisk() && io.renamed && |ids| == 2
    requires Selects(a, 1, "f") && Selects(c, 2, "y") && ResolvedBatch(b.rows, ids, "") == Ok([a, c])
    ensures MoveFiles(b, ids, "", [io, io]).error.Some?
    ensures !Aligned(MoveFiles(b, ids, "", [io, io]).build)
  {
    MovesTwo(b, a, c, ids, [io, io]);
    NestedPair(b.rows, a, c);
    FolderThenItsFile(b, a, c, io);
  }

  /** A batch can fail after a rename though no call fails: on this build, moving folder 1 and
      then file 2 in it to the root does, and leaves folder 1's row without its node. */
  lemma FailedBatchCanMisalign(io: Io)
    requires io.renamed
    ensures var b, ids, ios := Build(NestedRows(), NestedDisk()), [1, 2], [io, io];
      Aligned(b) && MoveFiles(b, ids, "", ios).error.Some? && !Aligned(MoveFiles(b, ids, "", ios).build)
  {
    AlignedHere();
    ShapedHere();
    var rows := NestedRows();
    NestedMovable(rows);
    NestedResolves(rows);
    var a, c := Selected(1, rows[1], "f"), Selected(2, rows[2], "y");
    FailsOnNested(Build(rows, NestedDisk()), [1, 2], a, c, io);
  }
}
