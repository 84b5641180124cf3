/** The directory walk, the chunked upsert of what it found, and what a re-ingest makes of the
    rows that were there. */
module BundleScan {
  import opened Wrappers
  import opened Paths
  import opened BundleTree
  import opened BundleAlignment
  import opened BundleBatches
  import opened BundleSteps
  import opened BundleContents
  import opened BundleIngest

  // ----- The walk -----

  /** `q` lies somewhere inside `dir`; "" is the files root. */
  predicate Inside(q: string, dir: string) {
    if dir == "" then q != "" else Under(q, dir)
  }

  /** The walk of `dir` gets to `q`: no folder on the way is one that cannot be listed. */
  ghost predicate Visible(disk: Disk, closed: set<string>, dir: string, q: string) {
    && q in disk && Inside(q, dir) && dir !in closed
    && forall d :: d in closed && Inside(d, dir) ==> !Under(q, d)
  }

  /** What the walk records of a path; separators are made uniform first. */
  function ScanRow(disk: Disk, q: string): Artifact
    requires q in disk
  {
    match disk[q]
    case Dir => Fresh(Unified(q), 0, None, true)
    case File(size, sha256) => Fresh(Unified(q), size, Some(sha256), false)
  }

  function Children(disk: Disk, dir: string): set<string> {
    set q | q in disk && q != "" && Parent(q) == dir
  }

  /** The paths the walk has been to, one for each entry it has put out. */
  ghost predicate Records(disk: Disk, out: seq<Artifact>, from: seq<string>) {
    && |out| == |from|
    && (forall i :: 0 <= i < |from| ==> from[i] in disk && out[i] == ScanRow(disk, from[i]))
    && (forall i, j :: 0 <= i < j < |from| ==> from[i] != from[j])
  }

  lemma ChildIsInside(disk: Disk, dir: string, c: string)
    requires c in Children(disk, dir)
    ensures Inside(c, dir)
  {
    if dir != "" { ParentIsAbove(c); }
  }

  /** Everything inside a folder is one of its children or inside one. */
  lemma {:induction false} ChildAbove(disk: Disk, dir: string, q: string) returns (c: string)
    requires DiskOk(disk) && q in disk && Inside(q, dir) && "" !in disk
    ensures c in Children(disk, dir) && Below(q, c)
    decreases |q|
  {
    c := q;
    var p := Parent(q);
    if p != dir {
      ParentOrRoot(q, dir);
      ParentIsAbove(q);
      assert p in disk && Inside(p, dir);
      c := ChildAbove(disk, dir, p);
      UnderTrans(q, p, c);
    }
  }

  lemma ParentOrRoot(q: string, dir: string)
    requires Inside(q, dir)
    ensures Parent(q) == dir || (Parent(q) != "" && Inside(Parent(q), dir))
  {
    if dir != "" {
      ParentIsLongest(q, dir);
    }
  }

  /** Two children of a folder share nothing. */
  lemma ChildrenAreApart(disk: Disk, dir: string, c: string, d: string, q: string)
    requires c in Children(disk, dir) && d in Children(disk, dir) && Below(q, c) && Below(q, d)
    ensures c == d
  {
    UnderTotal(q, c, d);
    if Under(c, d) { SiblingsApart(c, d); }
    if Under(d, c) { SiblingsApart(d, c); }
  }

  /** The walk of a folder sees a child, if it can list the folder, and what the walk of the
      child sees. */
  lemma VisibleThroughChild(disk: Disk, closed: set<string>, dir: string, c: string, q: string)
    requires DiskOk(disk) && c in Children(disk, dir) && dir !in closed && Below(q, c) && q in disk
    ensures Visible(disk, closed, dir, q) <==> q == c || Visible(disk, closed, c, q)
  {
    ChildIsInside(disk, dir, c);
    InsideTrans(q, c, dir);
    forall d | d in closed && Inside(d, dir) && Under(q, d) ensures d == c || Under(d, c) {
      UnderTotal(q, c, d);
      if Under(c, d) {
        ParentIsLongest(c, d);
        ParentShorter(c);
        assert d == dir || Under(dir, d);
        assert Inside(d, dir);
      }
    }
    if q != c && Visible(disk, closed, dir, q) {
      forall d | d in closed && Inside(d, c) ensures !Under(q, d) { InsideTrans(d, c, dir); }
      assert c !in closed;
    }
  }

  lemma InsideTrans(q: string, c: string, dir: string)
    requires Below(q, c) && Inside(c, dir)
    ensures Inside(q, dir)
  {
    if dir != "" && q != c { UnderTrans(q, c, dir); }
  }

  function InsideOf(disk: Disk, dir: string): set<string> {
    set q | q in disk && Inside(q, dir)
  }

  /** How much there is to walk. */
  function SizeOf(disk: Disk, dir: string): nat { |InsideOf(disk, dir)| }

  lemma FewerMembers(a: set<string>, b: set<string>)
    requires a < b
    ensures |a| < |b|
  {
    assert b == a + (b - a) && b - a != {};
  }

  lemma InsideShrinks(disk: Disk, dir: string, c: string)
    requires c in Children(disk, dir)
    ensures SizeOf(disk, c) < SizeOf(disk, dir)
  {
    ChildIsInside(disk, dir, c);
    forall q | q in InsideOf(disk, c) ensures q in InsideOf(disk, dir) { InsideTrans(q, c, dir); }
    assert c in InsideOf(disk, dir) && c !in InsideOf(disk, c);
    FewerMembers(InsideOf(disk, c), InsideOf(disk, dir));
  }

  /** The paths that the walk of `dir` sees under the children in `done`. */
  ghost predicate Reached(disk: Disk, closed: set<string>, dir: string, done: set<string>, q: string) {
    Visible(disk, closed, dir, q) && exists c :: c in done && Below(q, c)
  }

  /** Walking one more child reaches the child and what its own walk sees. */
  lemma ReachedNext(disk: Disk, closed: set<string>, dir: string, done: set<string>, c: string, q: string)
    requires DiskOk(disk) && "" !in disk && c in Children(disk, dir) && c !in done && done <= Children(disk, dir)
    requires dir !in closed
    ensures Reached(disk, closed, dir, done + {c}, q) <==>
      Reached(disk, closed, dir, done, q) || q == c || Visible(disk, closed, c, q)
    ensures !(Reached(disk, closed, dir, done, q) && (q == c || Visible(disk, closed, c, q)))
  {
    if Visible(disk, closed, c, q) || q == c || (q in disk && Below(q, c)) {
      VisibleThroughChild(disk, closed, dir, c, q);
      assert c in done + {c} && Below(q, c);
      forall d | d in done ensures !Below(q, d) {
        if Below(q, d) { ChildrenAreApart(disk, dir, c, d, q); }
      }
    }
    if Reached(disk, closed, dir, done + {c}, q) {
      var d :| d in done + {c} && Below(q, d);
      assert d in done ==> Reached(disk, closed, dir, done, q);
    }
    if Reached(disk, closed, dir, done, q) {
      var d :| d in done && Below(q, d);
      assert d in done + {c};
    }
  }

  /** All the children done is the whole folder. */
  lemma ReachedAll(disk: Disk, closed: set<string>, dir: string, q: string)
    requires DiskOk(disk) && "" !in disk
    ensures Reached(disk, closed, dir, Children(disk, dir), q) <==> Visible(disk, closed, dir, q)
  {
    if Visible(disk, closed, dir, q) {
      var c := ChildAbove(disk, dir, q);
      assert c in Children(disk, dir);
    }
  }

  ghost function VisibleIn(disk: Disk, closed: set<string>, dir: string): set<string> {
    set q | q in disk && Visible(disk, closed, dir, q)
  }

  ghost function ReachedIn(disk: Disk, closed: set<string>, dir: string, done: set<string>): set<string> {
    set q | q in disk && Reached(disk, closed, dir, done, q)
  }

  lemma ReachedInNext(disk: Disk, closed: set<string>, dir: string, done: set<string>, c: string)
    requires DiskOk(disk) && "" !in disk && c in Children(disk, dir) && c !in done && done <= Children(disk, dir)
    requires dir !in closed
    ensures ReachedIn(disk, closed, dir, done + {c}) == ReachedIn(disk, closed, dir, done) + ({c} + VisibleIn(disk, closed, c))
    ensures ReachedIn(disk, closed, dir, done) !! {c} + VisibleIn(disk, closed, c)
    ensures {c} + VisibleIn(disk, closed, c) <= VisibleIn(disk, closed, dir)
  {
    forall q | q in disk
      ensures q in ReachedIn(disk, closed, dir, done + {c}) <==>
        q in ReachedIn(disk, closed, dir, done) || q == c || q in VisibleIn(disk, closed, c)
      ensures q == c || q in VisibleIn(disk, closed, c) ==> q !in ReachedIn(disk, closed, dir, done) && q in VisibleIn(disk, closed, dir)
    {
      ReachedNext(disk, closed, dir, done, c, q);
    }
  }

  lemma ReachedInAll(disk: Disk, closed: set<string>, dir: string)
    requires DiskOk(disk) && "" !in disk
    ensures ReachedIn(disk, closed, dir, Children(disk, dir)) == VisibleIn(disk, closed, dir)
    ensures ReachedIn(disk, closed, dir, {}) == {}
  {
    forall q | q in disk
      ensures q in ReachedIn(disk, closed, dir, Children(disk, dir)) <==> q in VisibleIn(disk, closed, dir)
    {
      ReachedAll(disk, closed, dir, q);
    }
  }

  lemma NothingInAFile(disk: Disk, closed: set<string>, c: string)
    requires DiskOk(disk) && c in disk && c != "" && disk[c].File?
    ensures VisibleIn(disk, closed, c) == {}
  {
  }

  ghost function Elems(from: seq<string>): set<string> { set q | q in from }

  /** One entry of a listing: its own record, and for a folder the walk of it. */
  method Visit(disk: Disk, closed: set<string>, broken: set<string>, path: string,
               before: seq<Artifact>, ghost fromBefore: seq<string>)
    returns (out: seq<Artifact>, ok: bool, ghost from: seq<string>)
    requires DiskOk(disk) && "" !in disk && path in disk && Records(disk, before, fromBefore)
    requires {path} + VisibleIn(disk, closed, path) !! Elems(fromBefore)
    ensures Records(disk, out, from)
    ensures ok ==> Elems(from) == Elems(fromBefore) + ({path} + VisibleIn(disk, closed, path))
    ensures ok <==> {path} + VisibleIn(disk, closed, path) !! broken
    decreases SizeOf(disk, path), 1
  {
    out, ok, from := before, true, fromBefore;
    if path in broken { return out, false, from; }
    assert path !in fromBefore by { assert path !in Elems(fromBefore); }
    out, from := out + [ScanRow(disk, path)], from + [path];
    assert Elems(from) == Elems(fromBefore) + {path};
    if disk[path].Dir? {
      assert path !in VisibleIn(disk, closed, path);
      out, ok, from := Walk(disk, closed, broken, path, out, from);
    } else {
      NothingInAFile(disk, closed, path);
    }
  }

  /** What the loop of `walk` has done: the children in `done` and all it sees in them. */
  ghost predicate Walked(disk: Disk, closed: set<string>, broken: set<string>, dir: string, done: set<string>,
                         before: set<string>, seen: set<string>) {
    && done <= Children(disk, dir) && ReachedIn(disk, closed, dir, done) !! broken
    && seen == before + ReachedIn(disk, closed, dir, done)
  }

  lemma MayVisit(disk: Disk, closed: set<string>, broken: set<string>, dir: string, done: set<string>,
                 before: set<string>, seen: set<string>, path: string)
    requires DiskOk(disk) && "" !in disk && dir !in closed && VisibleIn(disk, closed, dir) !! before
    requires Walked(disk, closed, broken, dir, done, before, seen) && path in Children(disk, dir) - done
    ensures path in disk && {path} + VisibleIn(disk, closed, path) !! seen
    ensures {path} + VisibleIn(disk, closed, path) <= VisibleIn(disk, closed, dir)
    ensures SizeOf(disk, path) < SizeOf(disk, dir)
    ensures {path} + VisibleIn(disk, closed, path) !! broken ==>
      Walked(disk, closed, broken, dir, done + {path}, before, seen + ({path} + VisibleIn(disk, closed, path)))
    ensures Children(disk, dir) - done - {path} == Children(disk, dir) - (done + {path})
  {
    ReachedInNext(disk, closed, dir, done, path);
    InsideShrinks(disk, dir, path);
  }

  lemma ClosedShowsNothing(disk: Disk, closed: set<string>, dir: string)
    requires dir in closed
    ensures VisibleIn(disk, closed, dir) == {}
  {
  }

  lemma WalkStarts(disk: Disk, closed: set<string>, broken: set<string>, dir: string, before: set<string>)
    ensures Walked(disk, closed, broken, dir, {}, before, before)
  {
  }

  lemma WalkEnds(disk: Disk, closed: set<string>, broken: set<string>, dir: string, done: set<string>,
                 before: set<string>, seen: set<string>)
    requires DiskOk(disk) && "" !in disk && Walked(disk, closed, broken, dir, done, before, seen)
    requires Children(disk, dir) - done == {}
    ensures seen == before + VisibleIn(disk, closed, dir) && VisibleIn(disk, closed, dir) !! broken
  {
    assert done + (Children(disk, dir) - done) == Children(disk, dir);
    ReachedInAll(disk, closed, dir);
  }

  /** `walk`: adds to `out` an entry for each path it sees inside `dir`, once. A folder that
      cannot be listed is passed over; a path that cannot be read ends the walk. */
  method Walk(disk: Disk, closed: set<string>, broken: set<string>, dir: string,
              before: seq<Artifact>, ghost fromBefore: seq<string>)
    returns (out: seq<Artifact>, ok: bool, ghost from: seq<string>)
    requires DiskOk(disk) && "" !in disk && Records(disk, before, fromBefore)
    requires VisibleIn(disk, closed, dir) !! Elems(fromBefore)
    ensures Records(disk, out, from)
    ensures ok ==> Elems(from) == Elems(fromBefore) + VisibleIn(disk, closed, dir)
    ensures ok <==> VisibleIn(disk, closed, dir) !! broken
    decreases SizeOf(disk, dir), 0
  {
    out, ok, from := before, true, fromBefore;
    if dir in closed {
      ClosedShowsNothing(disk, closed, dir);
      assert Elems(from) == Elems(fromBefore) + {};
      return;
    }
    var entries := Children(disk, dir);
    ghost var done: set<string> := {};
    WalkStarts(disk, closed, broken, dir, Elems(from));
    while entries != {}
      invariant entries == Children(disk, dir) - done && Records(disk, out, from) && ok
      invariant Walked(disk, closed, broken, dir, done, Elems(fromBefore), Elems(from))
      decreases |entries|
    {
      var path :| path in entries;
      MayVisit(disk, closed, broken, dir, done, Elems(fromBefore), Elems(from), path);
      out, ok, from := Visit(disk, closed, broken, path, out, from);
      if !ok { return; }
      entries, done := entries - {path}, done + {path};
    }
    WalkEnds(disk, closed, broken, dir, done, Elems(fromBefore), Elems(from));
  }

  method ScanDirectory(disk: Disk, closed: set<string>, broken: set<string>)
    returns (scan: Result<seq<Artifact>, Error>, ghost from: seq<string>)
    requires DiskOk(disk) && "" !in disk
    ensures scan.Ok? <==> VisibleIn(disk, closed, "") !! broken
    ensures scan.Ok? ==> Records(disk, scan.value, from) && Elems(from) == VisibleIn(disk, closed, "")
    ensures scan.Err? ==> scan.error == Error.Io
  {
    var out: seq<Artifact>, ok;
    assert Elems([]) == {};
    out, ok, from := Walk(disk, closed, broken, "", [], []);
    scan := if ok then Ok(out) else Err(Error.Io);
  }

  ghost predicate DistinctPaths(scan: seq<Artifact>) {
    forall i, j :: 0 <= i < j < |scan| ==> scan[i].path != scan[j].path
  }

  /** Exactly when a scan names no path twice, which the chunked upsert needs: when no two of
      the names on disk differ only in `\\` against `/`. */
  lemma ScanIsDistinctExactly(disk: Disk, scan: seq<Artifact>, from: seq<string>)
    requires Records(disk, scan, from)
    ensures DistinctPaths(scan) <==> forall p, q :: p in Elems(from) && q in Elems(from) && p != q ==> Unified(p) != Unified(q)
  {
    assert forall i :: 0 <= i < |scan| ==> scan[i].path == Unified(from[i]) && from[i] in Elems(from);
    if DistinctPaths(scan) {
      forall p, q | p in Elems(from) && q in Elems(from) && p != q ensures Unified(p) != Unified(q) {
        var i :| 0 <= i < |from| && from[i] == p;
        var j :| 0 <= j < |from| && from[j] == q;
        assert scan[i].path != scan[j].path by { assert i < j || j < i; }
      }
    }
  }

  /** A folder with a file in it, beside a file whose name spells that path with a backslash. */
  function Backslashed(node: Node): Disk { map["a" := Dir, "a/b" := node, "a\\b" := node] }

  lemma BackslashedOk(node: Node)
    requires node.File?
    ensures DiskOk(Backslashed(node))
    ensures Unified("a/b") == Unified("a\\b")
  {
    var disk := Backslashed(node);
    forall p, q | p in disk && Under(p, q) && q != "" ensures q in disk && disk[q].Dir? {
      assert q == p[..|q|] && p[|q|] == '/' && "a/b"[..1] == "a";
    }
  }

  /** There is such a tree: whatever order its walk takes, the scan names a path twice. */
  lemma BackslashIsScannedTwice(node: Node, scan: seq<Artifact>, from: seq<string>)
    requires node.File? && Records(Backslashed(node), scan, from)
    requires Elems(from) == VisibleIn(Backslashed(node), {}, "")
    ensures DiskOk(Backslashed(node)) && !DistinctPaths(scan)
  {
    BackslashedOk(node);
    ScanIsDistinctExactly(Backslashed(node), scan, from);
    assert {"a/b", "a\\b"} <= VisibleIn(Backslashed(node), {}, "");
  }

  /** Nothing extraction writes has a backslash, so a scan of it names each path once, as it
      is on disk. */
  lemma NormalScanIsDistinct(disk: Disk, scan: seq<Artifact>, from: seq<string>)
    requires NormalDisk(disk) && Records(disk, scan, from)
    ensures DistinctPaths(scan) && forall i :: 0 <= i < |scan| ==> scan[i].path == from[i]
  {
    forall i | 0 <= i < |scan| ensures scan[i].path == from[i] {
      NormalHasNoBackslash(from[i]);
      UnifiedStable(from[i]);
    }
  }

  lemma NormalHasNoBackslash(path: string)
    requires Normal(path)
    ensures '\\' !in path
  {
    JoinSplit(path);
    JoinPlainChars(Split(path));
  }
}
