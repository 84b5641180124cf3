/** The admin file browser: the tree built once for a whole build, against the flat listing of
    one folder at a time. */
module FileTree {
  import opened Wrappers
  import opened Paths
  import opened BundleTree
  import opened BundleAlignment
  import opened BundleSteps

  /** What is shown for one path; no artifact when the folder is only implied. */
  datatype TreeEntry = TreeEntry(path: string, name: string, isDir: bool, artifact: Option<Artifact>)

  function Segments(path: string): seq<string> { NonEmpty(Split(path)) }

  function NonEmpty(parts: seq<string>): seq<string> {
    if parts == [] then [] else (if parts[0] == "" then [] else [parts[0]]) + NonEmpty(parts[1..])
  }

  function JoinPath(base: string, segment: string): string { if base == "" then segment else base + "/" + segment }

  // ----- What there is to show -----

  ghost predicate NormalArtifacts(artifacts: seq<Artifact>) {
    && (forall i :: 0 <= i < |artifacts| ==> Normal(artifacts[i].path))
    && (forall i, j :: 0 <= i < j < |artifacts| ==> artifacts[i].path != artifacts[j].path)
  }

  /** The path of an artifact, or of a folder on the way to one. */
  predicate Shown(artifacts: seq<Artifact>, p: string) {
    exists i :: 0 <= i < |artifacts| && p in Chain(artifacts[i].path)
  }

  /** The artifact at exactly this path. */
  function ArtifactAt(artifacts: seq<Artifact>, p: string): Option<Artifact> {
    if artifacts == [] then None
    else
      var n := |artifacts| - 1;
      if artifacts[n].path == p then Some(artifacts[n]) else ArtifactAt(artifacts[..n], p)
  }

  /** An explicit row wins over a folder only implied by a deeper one. */
  function EntryAt(artifacts: seq<Artifact>, p: string): TreeEntry {
    var artifact := ArtifactAt(artifacts, p);
    TreeEntry(p, Name(p), artifact.None? || artifact.value.isDir, artifact)
  }

  /** The entries of one folder; "" is the root. */
  ghost predicate IsListing(artifacts: seq<Artifact>, folder: string, entries: map<string, TreeEntry>) {
    && (forall p :: p in entries <==> Shown(artifacts, p) && Parent(p) == folder)
    && (forall p :: p in entries ==> entries[p] == EntryAt(artifacts, p))
  }

  lemma {:induction false} ArtifactAtIs(artifacts: seq<Artifact>, i: nat)
    requires NormalArtifacts(artifacts) && i < |artifacts|
    ensures ArtifactAt(artifacts, artifacts[i].path) == Some(artifacts[i])
    decreases |artifacts|
  {
    if i < |artifacts| - 1 { ArtifactAtIs(artifacts[..|artifacts| - 1], i); }
  }

  lemma {:induction false} NoArtifactAt(artifacts: seq<Artifact>, p: string)
    requires forall i :: 0 <= i < |artifacts| ==> artifacts[i].path != p
    ensures ArtifactAt(artifacts, p) == None
    decreases |artifacts|
  {
    if artifacts != [] { NoArtifactAt(artifacts[..|artifacts| - 1], p); }
  }

  // ----- childrenOf -----

  lemma {:induction false} NonEmptyAll(parts: seq<string>)
    requires forall i :: 0 <= i < |parts| ==> parts[i] != ""
    ensures NonEmpty(parts) == parts
  {
    if parts != [] { NonEmptyAll(parts[1..]); }
  }

  lemma SegmentsOfNormal(path: string)
    requires Normal(path)
    ensures Segments(path) == Split(path) && Segments("") == []
  {
    assert forall i :: 0 <= i < |Split(path)| ==> Plain(Split(path)[i]);
    NonEmptyAll(Split(path));
    assert Split("") == [""] && NonEmpty([""]) == NonEmpty([""][1..]);
  }

  /** The child of `folder` on the way to a path inside it. */
  lemma ChildOnTheWay(folder: string, path: string)
    requires Normal(path) && (folder == "" || (Normal(folder) && Under(path, folder)))
    ensures var parts, depth := Segments(path), |Segments(folder)|;
      && depth < |parts| && Parent(JoinPath(folder, parts[depth])) == folder
      && JoinPath(folder, parts[depth]) in Chain(path) && Name(JoinPath(folder, parts[depth])) == parts[depth]
      && (|parts| == depth + 1 <==> JoinPath(folder, parts[depth]) == path)
      && forall p :: p in Chain(path) && Parent(p) == folder ==> p == JoinPath(folder, parts[depth])
  {
    var parts := Split(path);
    SegmentsOfNormal(path);
    var depth := if folder == "" then 0 else |Split(folder)|;
    if folder != "" {
      SegmentsOfNormal(folder);
      UnderIsSegmentPrefix(path, folder);
    }
    var name := parts[depth];
    var child := JoinPath(folder, name);
    assert Plain(name);
    ParentOf(folder, name);
    NameOfChild(folder, name);
    ChildInChain(folder, path, depth);
    forall p | p in Chain(path) && Parent(p) == folder ensures p == child { OneChild(path, p, child); }
  }

  lemma NameOfChild(dir: string, name: string)
    requires Plain(name)
    ensures Name(JoinPath(dir, name)) == name
  {
    SplitPlain(name);
    if dir != "" { SplitConcat(dir, name); }
  }

  /** The child's segments are the first ones of the path. */
  lemma ChildSegments(folder: string, path: string, depth: nat)
    requires Normal(path) && depth < |Split(path)|
    requires (folder == "" && depth == 0) || (folder != "" && depth == |Split(folder)| && Under(path, folder))
    ensures Split(JoinPath(folder, Split(path)[depth])) == Split(path)[..depth + 1]
  {
    var parts := Split(path);
    SplitPartsHaveNoSlash(path);
    SplitPlain(parts[depth]);
    if folder != "" {
      SplitConcat(folder, parts[depth]);
      UnderHasPrefix(path, folder);
      assert parts[..depth] + [parts[depth]] == parts[..depth + 1];
    }
  }

  lemma ChildInChain(folder: string, path: string, depth: nat)
    requires Normal(path) && depth < |Split(path)|
    requires (folder == "" && depth == 0) || (folder != "" && depth == |Split(folder)| && Under(path, folder))
    ensures var child := JoinPath(folder, Split(path)[depth]);
      child in Chain(path) && (|Split(path)| == depth + 1 <==> child == path)
  {
    var parts := Split(path);
    var child := JoinPath(folder, parts[depth]);
    ChildSegments(folder, path, depth);
    assert Plain(parts[depth]);
    if |parts| == depth + 1 {
      JoinSplit(path);
      JoinSplit(child);
      assert parts[..depth + 1] == parts;
    } else {
      PrefixIsUnder(path, child);
    }
    ChainIs(path, child);
  }

  /** Of the folders on one way, a folder holds one. */
  lemma OneChild(path: string, p: string, q: string)
    requires p in Chain(path) && q in Chain(path) && Parent(p) == Parent(q)
    ensures p == q
  {
    ChainIs(path, p);
    ChainIs(path, q);
    UnderTotal(path, p, q);
    if Under(p, q) { SiblingsApart(p, q); }
    if Under(q, p) { SiblingsApart(q, p); }
  }

  /** Nothing on the way to a path outside the folder lies in the folder. */
  lemma NotOnTheWay(folder: string, path: string, p: string)
    requires folder != "" && !Under(path, folder) && p in Chain(path)
    ensures Parent(p) != folder
  {
    ChainIs(path, p);
    if Parent(p) == folder {
      ParentIsAbove(p);
      if p != path { UnderTrans(path, p, folder); }
    }
  }

  /** Some artifact of the first `k` is at the path. */
  ghost predicate At(artifacts: seq<Artifact>, k: nat, p: string)
    requires k <= |artifacts|
  {
    exists i :: 0 <= i < k && artifacts[i].path == p
  }

  /** Some artifact of the first `k` lies below the path. */
  ghost predicate Implied(artifacts: seq<Artifact>, k: nat, p: string)
    requires k <= |artifacts|
  {
    exists i :: 0 <= i < k && artifacts[i].path != p && p in Chain(artifacts[i].path)
  }

  /** What the two maps of `childrenOf` hold after `k` artifacts: the rows right in the folder,
      and the folders in it that deeper rows imply. */
  ghost predicate ExplicitOk(artifacts: seq<Artifact>, folder: string, k: nat, explicit: map<string, TreeEntry>)
    requires k <= |artifacts|
  {
    && (forall p :: p in explicit <==> At(artifacts, k, p) && Parent(p) == folder)
    && (forall p :: p in explicit ==> explicit[p] == EntryAt(artifacts, p))
  }

  ghost predicate ImpliedOk(artifacts: seq<Artifact>, folder: string, k: nat, implied: map<string, TreeEntry>)
    requires k <= |artifacts|
  {
    && (forall p :: p in implied <==> Implied(artifacts, k, p) && Parent(p) == folder)
    && (forall p :: p in implied ==> implied[p] == TreeEntry(p, Name(p), true, None))
  }

  ghost predicate Sorted(artifacts: seq<Artifact>, folder: string, k: nat, explicit: map<string, TreeEntry>, implied: map<string, TreeEntry>)
    requires k <= |artifacts|
  {
    ExplicitOk(artifacts, folder, k, explicit) && ImpliedOk(artifacts, folder, k, implied)
  }

  /** One artifact of the listing loop. */
  function Place(artifact: Artifact, folder: string, depth: nat, maps: (map<string, TreeEntry>, map<string, TreeEntry>))
    : (map<string, TreeEntry>, map<string, TreeEntry>)
  {
    var (explicit, implied) := maps;
    if folder != "" && !(folder + "/" <= artifact.path) then maps
    else if artifact.path == folder then maps
    else
      var parts := Segments(artifact.path);
      if |parts| <= depth then maps
      else
        var childPath := JoinPath(folder, parts[depth]);
        if |parts| == depth + 1 then
          (explicit[childPath := TreeEntry(childPath, parts[depth], artifact.isDir, Some(artifact))], implied)
        else if childPath !in implied then (explicit, implied[childPath := TreeEntry(childPath, parts[depth], true, None)])
        else maps
  }

  /** `childrenOf`. */
  method ChildrenOf(artifacts: seq<Artifact>, folder: string) returns (entries: map<string, TreeEntry>)
    requires NormalArtifacts(artifacts) && (folder == "" || Normal(folder))
    ensures IsListing(artifacts, folder, entries)
  {
    var depth := |Segments(folder)|;
    var maps: (map<string, TreeEntry>, map<string, TreeEntry>) := (map[], map[]);
    for k := 0 to |artifacts|
      invariant Sorted(artifacts, folder, k, maps.0, maps.1)
    {
      PlaceSorts(artifacts, folder, k, depth, maps);
      maps := Place(artifacts[k], folder, depth, maps);
    }
    entries := maps.1 + maps.0;
    Merged(artifacts, folder, maps.0, maps.1);
  }

  lemma PlaceSorts(artifacts: seq<Artifact>, folder: string, k: nat, depth: nat, maps: (map<string, TreeEntry>, map<string, TreeEntry>))
    requires NormalArtifacts(artifacts) && (folder == "" || Normal(folder)) && depth == |Segments(folder)|
    requires k < |artifacts| && Sorted(artifacts, folder, k, maps.0, maps.1)
    ensures var next := Place(artifacts[k], folder, depth, maps); Sorted(artifacts, folder, k + 1, next.0, next.1)
  {
    var path := artifacts[k].path;
    UnderIsPrefix(path, folder);
    NormalIsNonempty(path);
    ChainIs(path, path);
    if folder != "" && !Under(path, folder) {
      forall p | p in Chain(path) ensures Parent(p) != folder { NotOnTheWay(folder, path, p); }
      ExplicitSame(artifacts, folder, k, maps.0);
      ImpliedSame(artifacts, folder, k, maps.1);
    } else {
      ChildOnTheWay(folder, path);
      var child := JoinPath(folder, Segments(path)[depth]);
      if child == path {
        ExplicitAdded(artifacts, folder, k, maps.0);
        ImpliedSame(artifacts, folder, k, maps.1);
      } else {
        ExplicitSame(artifacts, folder, k, maps.0);
        ImpliedAdded(artifacts, folder, k, maps.1, child);
      }
    }
  }

  lemma AtNext(artifacts: seq<Artifact>, k: nat, p: string)
    requires k < |artifacts|
    ensures At(artifacts, k + 1, p) <==> At(artifacts, k, p) || p == artifacts[k].path
  {
  }

  lemma ImpliedNext(artifacts: seq<Artifact>, k: nat, p: string)
    requires k < |artifacts|
    ensures Implied(artifacts, k + 1, p) <==>
      Implied(artifacts, k, p) || (p != artifacts[k].path && p in Chain(artifacts[k].path))
  {
  }

  lemma ExplicitSame(artifacts: seq<Artifact>, folder: string, k: nat, explicit: map<string, TreeEntry>)
    requires k < |artifacts| && ExplicitOk(artifacts, folder, k, explicit) && Parent(artifacts[k].path) != folder
    ensures ExplicitOk(artifacts, folder, k + 1, explicit)
  {
    forall p ensures At(artifacts, k + 1, p) && Parent(p) == folder <==> At(artifacts, k, p) && Parent(p) == folder {
      AtNext(artifacts, k, p);
    }
  }

  lemma ExplicitAdded(artifacts: seq<Artifact>, folder: string, k: nat, explicit: map<string, TreeEntry>)
    requires NormalArtifacts(artifacts) && k < |artifacts| && ExplicitOk(artifacts, folder, k, explicit)
    requires Parent(artifacts[k].path) == folder
    ensures var path := artifacts[k].path;
      ExplicitOk(artifacts, folder, k + 1, explicit[path := TreeEntry(path, Name(path), artifacts[k].isDir, Some(artifacts[k]))])
  {
    ArtifactAtIs(artifacts, k);
    forall p ensures At(artifacts, k + 1, p) <==> At(artifacts, k, p) || p == artifacts[k].path { AtNext(artifacts, k, p); }
  }

  lemma ImpliedSame(artifacts: seq<Artifact>, folder: string, k: nat, implied: map<string, TreeEntry>)
    requires k < |artifacts| && ImpliedOk(artifacts, folder, k, implied)
    requires forall p :: p in Chain(artifacts[k].path) && Parent(p) == folder ==> p == artifacts[k].path
    ensures ImpliedOk(artifacts, folder, k + 1, implied)
  {
    forall p ensures Implied(artifacts, k + 1, p) && Parent(p) == folder <==> Implied(artifacts, k, p) && Parent(p) == folder {
      ImpliedNext(artifacts, k, p);
    }
  }

  lemma ImpliedAdded(artifacts: seq<Artifact>, folder: string, k: nat, implied: map<string, TreeEntry>, child: string)
    requires k < |artifacts| && ImpliedOk(artifacts, folder, k, implied)
    requires child in Chain(artifacts[k].path) && Parent(child) == folder && child != artifacts[k].path
    requires forall p :: p in Chain(artifacts[k].path) && Parent(p) == folder ==> p == child
    ensures ImpliedOk(artifacts, folder, k + 1, if child in implied then implied else implied[child := TreeEntry(child, Name(child), true, None)])
  {
    forall p
      ensures Implied(artifacts, k + 1, p) && Parent(p) == folder <==> (Implied(artifacts, k, p) && Parent(p) == folder) || p == child
    {
      ImpliedNext(artifacts, k, p);
    }
  }

  lemma Merged(artifacts: seq<Artifact>, folder: string, explicit: map<string, TreeEntry>, implied: map<string, TreeEntry>)
    requires NormalArtifacts(artifacts) && Sorted(artifacts, folder, |artifacts|, explicit, implied)
    ensures IsListing(artifacts, folder, implied + explicit)
  {
    forall i | 0 <= i < |artifacts| ensures artifacts[i].path in Chain(artifacts[i].path) {
      NormalIsNonempty(artifacts[i].path);
      ChainIs(artifacts[i].path, artifacts[i].path);
    }
    forall p ensures Shown(artifacts, p) <==> At(artifacts, |artifacts|, p) || Implied(artifacts, |artifacts|, p) {
      if Shown(artifacts, p) {
        var i :| 0 <= i < |artifacts| && p in Chain(artifacts[i].path);
        assert artifacts[i].path == p ==> At(artifacts, |artifacts|, p);
        assert artifacts[i].path != p ==> Implied(artifacts, |artifacts|, p);
      }
    }
    forall p | p in implied && p !in explicit ensures implied[p] == EntryAt(artifacts, p) {
      assert !At(artifacts, |artifacts|, p);
      NoArtifactAt(artifacts, p);
    }
  }

  // ----- buildTree -----

  /** A node of the tree; its children are named by their paths, which key the nodes. */
  datatype TreeNode = TreeNode(name: string, isDir: bool, artifact: Option<Artifact>, children: seq<string>)

  type Nodes = map<string, TreeNode>

  function NodeName(path: string): string {
    if Segments(path) == [] then path else Segments(path)[|Segments(path)| - 1]
  }

  /** `ensure`: the node at the path, made with its missing ancestors if it is not there. */
  function Ensured(nodes: Nodes, path: string, isDir: bool): (more: Nodes)
    ensures path in more && forall p :: p in nodes ==> p in more
    decreases |path|
  {
    if path in nodes then nodes
    else
      var placed := nodes[path := TreeNode(NodeName(path), isDir, None, [])];
      if Parent(path) == "" then placed
      else
        ParentShorter(path);
        var more := Ensured(placed, Parent(path), true);
        more[Parent(path) := more[Parent(path)].(children := more[Parent(path)].children + [path])]
  }

  ghost predicate NoRepeat(children: seq<string>) {
    forall i, j :: 0 <= i < j < |children| ==> children[i] != children[j]
  }

  /** Every node but the pending ones is among its parent's children. */
  ghost predicate HeldUp(nodes: Nodes, pending: set<string>) {
    forall p :: p in nodes && p !in pending && Parent(p) != "" ==> Parent(p) in nodes && p in nodes[Parent(p)].children
  }

  /** Children are nodes, under their parent and there once; none of them is pending. */
  ghost predicate HoldsOwn(nodes: Nodes, pending: set<string>) {
    && (forall p :: p in nodes ==> NoRepeat(nodes[p].children))
    && (forall p, c :: p in nodes && c in nodes[p].children ==> c in nodes && Parent(c) == p && c !in pending)
  }

  /** Every node but the pending ones hangs under its parent, once; the pending ones nowhere. */
  ghost predicate Hanging(nodes: Nodes, pending: set<string>) {
    pending <= nodes.Keys && "" !in nodes && HeldUp(nodes, pending) && HoldsOwn(nodes, pending)
  }

  lemma PlacedHangs(nodes: Nodes, path: string, node: TreeNode, pending: set<string>)
    requires Hanging(nodes, pending) && path != "" && path !in nodes && node.children == []
    ensures Hanging(nodes[path := node], pending + {path})
    ensures Parent(path) == "" ==> Hanging(nodes[path := node], pending)
  {
    var placed := nodes[path := node];
    assert HoldsOwn(placed, pending + {path}) && HoldsOwn(placed, pending) by {
      forall p, c | p in placed && c in placed[p].children ensures c in nodes && Parent(c) == p && c !in pending && c != path {
        assert p in nodes;
      }
    }
    assert HeldUp(placed, pending + {path}) && (Parent(path) == "" ==> HeldUp(placed, pending)) by {
      forall p | p in placed && p != path && p !in pending && Parent(p) != ""
        ensures Parent(p) in nodes && p in nodes[Parent(p)].children
      {
        assert p in nodes;
      }
    }
  }

  lemma {:induction false} EnsuredHangs(nodes: Nodes, path: string, isDir: bool, pending: set<string>)
    requires Hanging(nodes, pending) && path != ""
    ensures Hanging(Ensured(nodes, path, isDir), pending)
    decreases |path|
  {
    if path !in nodes {
      var node := TreeNode(NodeName(path), isDir, None, []);
      PlacedHangs(nodes, path, node, pending);
      if Parent(path) != "" {
        ParentShorter(path);
        EnsuredHangs(nodes[path := node], Parent(path), true, pending + {path});
        ChildHung(Ensured(nodes[path := node], Parent(path), true), path, pending);
      }
    }
  }

  lemma ChildHung(nodes: Nodes, path: string, pending: set<string>)
    requires path !in pending && Hanging(nodes, pending + {path}) && Parent(path) in nodes
    ensures Hanging(nodes[Parent(path) := nodes[Parent(path)].(children := nodes[Parent(path)].children + [path])], pending)
  {
    var parent := Parent(path);
    var more := nodes[parent := nodes[parent].(children := nodes[parent].children + [path])];
    assert HeldUp(more, pending) by {
      forall p | p in more && p !in pending && Parent(p) != "" ensures Parent(p) in more && p in more[Parent(p)].children {
        if p == path { assert more[parent].children[|nodes[parent].children|] == path; }
      }
    }
    assert HoldsOwn(more, pending) by {
      assert path !in nodes[parent].children;
      forall p, c | p in more && c in more[p].children ensures c in more && Parent(c) == p && c !in pending {
        assert c == path || c in nodes[p].children;
      }
    }
    assert pending <= more.Keys;
  }

  /** Ensuring a path adds it and folders above it, and touches what nodes say of nothing. */
  lemma {:induction false} EnsuredAdds(nodes: Nodes, path: string, isDir: bool)
    requires path != ""
    ensures var more := Ensured(nodes, path, isDir);
      && (forall p :: p in nodes ==> more[p] == nodes[p].(children := more[p].children))
      && (forall p :: p in more && p !in nodes ==>
            p in Chain(path) && more[p] == TreeNode(NodeName(p), if p == path then isDir else true, None, more[p].children))
    decreases |path|
  {
    ChainIs(path, path);
    if path !in nodes && Parent(path) != "" {
      ParentShorter(path);
      var placed := nodes[path := TreeNode(NodeName(path), isDir, None, [])];
      EnsuredAdds(placed, Parent(path), true);
      forall p | p in Chain(Parent(path)) ensures p in Chain(path) && p != path { ParentsChain(path, p); }
    }
  }

  lemma ParentsChain(path: string, p: string)
    requires p in Chain(Parent(path)) && path != ""
    ensures p in Chain(path) && p != path
  {
    ChainIs(Parent(path), p);
    ParentIsAbove(path);
    if p != Parent(path) { UnderTrans(path, Parent(path), p); }
    ChainIs(path, p);
  }

  /** Nodes that hang hold every folder above them. */
  lemma {:induction false} HangingIsClosed(nodes: Nodes, p: string, q: string)
    requires Hanging(nodes, {}) && p in nodes && q in Chain(p)
    ensures q in nodes
    decreases |p|
  {
    ChainIs(p, q);
    if q != p {
      ParentIsLongest(p, q);
      ParentChain(p, q);
      assert Parent(p) != "" by { ChainIs(Parent(p), q); }
      ParentShorter(p);
      HangingIsClosed(nodes, Parent(p), q);
    }
  }

  // ----- The finished tree -----

  function EntryOf(p: string, node: TreeNode): TreeEntry { TreeEntry(p, node.name, node.isDir, node.artifact) }

  /** The tree of the artifacts: the shown paths, each with its entry, under its parent. */
  ghost predicate IsForest(artifacts: seq<Artifact>, nodes: Nodes, roots: set<string>) {
    && (forall p :: p in nodes <==> Shown(artifacts, p))
    && (forall p :: p in nodes ==> EntryOf(p, nodes[p]) == EntryAt(artifacts, p))
    && Hanging(nodes, {}) && roots == set p | p in nodes && Parent(p) == ""
  }

  /** The node tells of its path what these artifacts do. */
  ghost predicate Says(artifacts: seq<Artifact>, p: string, node: TreeNode) {
    && node.name == NodeName(p) && node.artifact == ArtifactAt(artifacts, p)
    && node.isDir == (node.artifact.None? || node.artifact.value.isDir)
  }

  ghost predicate Covered(artifacts: seq<Artifact>, k: nat, nodes: Nodes)
    requires k <= |artifacts|
  {
    (forall p :: p in nodes ==> Shown(artifacts, p)) && forall i :: 0 <= i < k ==> artifacts[i].path in nodes
  }

  /** The tree once the first `k` artifacts have been entered. */
  ghost predicate Entered(artifacts: seq<Artifact>, k: nat, nodes: Nodes)
    requires k <= |artifacts|
  {
    Hanging(nodes, {}) && Covered(artifacts, k, nodes) && forall p :: p in nodes ==> Says(artifacts[..k], p, nodes[p])
  }

  class TreeBuilder {
    var nodes: Nodes

    constructor ()
      ensures nodes == map[]
    {
      nodes := map[];
    }

    method Ensure(path: string, isDir: bool)
      requires path != ""
      modifies this
      ensures nodes == Ensured(old(nodes), path, isDir)
      decreases |path|
    {
      if path in nodes { return; }
      nodes := nodes[path := TreeNode(NodeName(path), isDir, None, [])];
      var parent := Parent(path);
      if parent != "" {
        ParentShorter(path);
        Ensure(parent, true);
        nodes := nodes[parent := nodes[parent].(children := nodes[parent].children + [path])];
      }
    }

    /** `buildTree`, up to the order of siblings. */
    method BuildTree(artifacts: seq<Artifact>) returns (roots: set<string>)
      requires nodes == map[] && NormalArtifacts(artifacts)
      modifies this
      ensures IsForest(artifacts, nodes, roots)
    {
      for k := 0 to |artifacts|
        invariant Entered(artifacts, 0, nodes)
      {
        var parent := Parent(artifacts[k].path);
        if parent != "" {
          AncestorEntered(artifacts, k, nodes);
          Ensure(parent, true);
        }
      }
      for k := 0 to |artifacts|
        invariant Entered(artifacts, k, nodes)
      {
        var artifact := artifacts[k];
        ArtifactEntered(artifacts, k, nodes);
        NormalIsNonempty(artifact.path);
        Ensure(artifact.path, artifact.isDir);
        nodes := nodes[artifact.path := nodes[artifact.path].(isDir := artifact.isDir, artifact := Some(artifact))];
      }
      AllEntered(artifacts, nodes);
      roots := set p | p in nodes && Parent(p) == "";
    }
  }

  lemma EnsuredCovers(artifacts: seq<Artifact>, k: nat, nodes: Nodes, path: string, isDir: bool)
    requires k <= |artifacts| && Covered(artifacts, k, nodes) && path != ""
    requires forall p :: p in Chain(path) ==> Shown(artifacts, p)
    ensures Covered(artifacts, k, Ensured(nodes, path, isDir))
  {
    EnsuredAdds(nodes, path, isDir);
  }

  /** A new node other than the path itself is a folder nobody has said anything of. */
  lemma EnsuredSays(artifacts: seq<Artifact>, nodes: Nodes, path: string, isDir: bool)
    requires path != "" && forall p :: p in nodes ==> Says(artifacts, p, nodes[p])
    requires forall i :: 0 <= i < |artifacts| ==> artifacts[i].path in nodes
    ensures var more := Ensured(nodes, path, isDir);
      more[path].name == NodeName(path) && forall p :: p in more && (p != path || isDir) ==> Says(artifacts, p, more[p])
  {
    EnsuredAdds(nodes, path, isDir);
    var more := Ensured(nodes, path, isDir);
    assert path in nodes ==> Says(artifacts, path, nodes[path]);
    forall p | p in more && (p != path || isDir) ensures Says(artifacts, p, more[p]) {
      if p in nodes { assert Says(artifacts, p, nodes[p]); } else { NoArtifactAt(artifacts, p); }
    }
  }

  lemma ChainShown(artifacts: seq<Artifact>, k: nat)
    requires k < |artifacts| && artifacts[k].path != ""
    ensures forall p :: p in Chain(artifacts[k].path) || p in Chain(Parent(artifacts[k].path)) ==> Shown(artifacts, p)
  {
    forall p | p in Chain(Parent(artifacts[k].path)) ensures p in Chain(artifacts[k].path) { ParentsChain(artifacts[k].path, p); }
  }

  lemma AncestorEntered(artifacts: seq<Artifact>, k: nat, nodes: Nodes)
    requires NormalArtifacts(artifacts) && k < |artifacts| && Entered(artifacts, 0, nodes) && Parent(artifacts[k].path) != ""
    ensures Entered(artifacts, 0, Ensured(nodes, Parent(artifacts[k].path), true))
  {
    NormalIsNonempty(artifacts[k].path);
    ChainShown(artifacts, k);
    EnsuredHangs(nodes, Parent(artifacts[k].path), true, {});
    EnsuredCovers(artifacts, 0, nodes, Parent(artifacts[k].path), true);
    EnsuredSays(artifacts[..0], nodes, Parent(artifacts[k].path), true);
  }

  lemma ArtifactEntered(artifacts: seq<Artifact>, k: nat, nodes: Nodes)
    requires NormalArtifacts(artifacts) && k < |artifacts| && Entered(artifacts, k, nodes)
    ensures var path, more := artifacts[k].path, Ensured(nodes, artifacts[k].path, artifacts[k].isDir);
      Entered(artifacts, k + 1, more[path := more[path].(isDir := artifacts[k].isDir, artifact := Some(artifacts[k]))])
  {
    var path, isDir := artifacts[k].path, artifacts[k].isDir;
    var more := Ensured(nodes, path, isDir);
    NormalIsNonempty(path);
    ChainShown(artifacts, k);
    EnsuredHangs(nodes, path, isDir, {});
    EnsuredCovers(artifacts, k, nodes, path, isDir);
    EnsuredSays(artifacts[..k], nodes, path, isDir);
    RowEntered(artifacts, k, more);
  }

  /** Writing an artifact into its node. */
  lemma RowEntered(artifacts: seq<Artifact>, k: nat, more: Nodes)
    requires k < |artifacts| && artifacts[k].path in more && more[artifacts[k].path].name == NodeName(artifacts[k].path)
    requires Hanging(more, {}) && Covered(artifacts, k, more)
    requires forall p :: p in more && p != artifacts[k].path ==> Says(artifacts[..k], p, more[p])
    ensures var path := artifacts[k].path;
      Entered(artifacts, k + 1, more[path := more[path].(isDir := artifacts[k].isDir, artifact := Some(artifacts[k]))])
  {
    var path := artifacts[k].path;
    var after := more[path := more[path].(isDir := artifacts[k].isDir, artifact := Some(artifacts[k]))];
    assert Hanging(after, {}) by { SameChildrenHang(more, after); }
    assert Covered(artifacts, k + 1, after) by { CoveredNext(artifacts, k, more, after); }
    forall p | p in after ensures Says(artifacts[..k + 1], p, after[p]) {
      assert p != path ==> Says(artifacts[..k], p, more[p]);
      OneMoreSaid(artifacts, k, p);
    }
  }

  lemma CoveredNext(artifacts: seq<Artifact>, k: nat, nodes: Nodes, after: Nodes)
    requires k < |artifacts| && Covered(artifacts, k, nodes) && after.Keys == nodes.Keys && artifacts[k].path in nodes
    ensures Covered(artifacts, k + 1, after)
  {
  }

  lemma OneMoreSaid(artifacts: seq<Artifact>, k: nat, p: string)
    requires k < |artifacts|
    ensures ArtifactAt(artifacts[..k + 1], p) == if artifacts[k].path == p then Some(artifacts[k]) else ArtifactAt(artifacts[..k], p)
  {
    assert artifacts[..k + 1][..k] == artifacts[..k];
  }

  lemma SameChildrenHang(nodes: Nodes, after: Nodes)
    requires Hanging(nodes, {}) && after.Keys == nodes.Keys && forall p :: p in nodes ==> after[p].children == nodes[p].children
    ensures Hanging(after, {})
  {
  }

  lemma AllEntered(artifacts: seq<Artifact>, nodes: Nodes)
    requires NormalArtifacts(artifacts) && Entered(artifacts, |artifacts|, nodes)
    ensures IsForest(artifacts, nodes, set p | p in nodes && Parent(p) == "")
  {
    assert artifacts[..|artifacts|] == artifacts;
    AllShown(artifacts, nodes);
    AllSay(artifacts, nodes);
  }

  lemma AllShown(artifacts: seq<Artifact>, nodes: Nodes)
    requires NormalArtifacts(artifacts) && Hanging(nodes, {}) && Covered(artifacts, |artifacts|, nodes)
    ensures forall p :: p in nodes <==> Shown(artifacts, p)
    ensures forall p :: p in nodes ==> NodeName(p) == Name(p)
  {
    forall p | Shown(artifacts, p) ensures p in nodes && NodeName(p) == Name(p) { ShownEntered(artifacts, nodes, p); }
  }

  lemma AllSay(artifacts: seq<Artifact>, nodes: Nodes)
    requires forall p :: p in nodes ==> Says(artifacts, p, nodes[p]) && NodeName(p) == Name(p)
    ensures forall p :: p in nodes ==> EntryOf(p, nodes[p]) == EntryAt(artifacts, p)
  {
  }

  lemma ShownEntered(artifacts: seq<Artifact>, nodes: Nodes, p: string)
    requires NormalArtifacts(artifacts) && Hanging(nodes, {}) && Covered(artifacts, |artifacts|, nodes) && Shown(artifacts, p)
    ensures p in nodes && NodeName(p) == Name(p)
  {
    var i := ShownBy(artifacts, p);
    assert Normal(artifacts[i].path) && artifacts[i].path in nodes;
    WayEntered(nodes, artifacts[i].path, p);
  }

  lemma ShownBy(artifacts: seq<Artifact>, p: string) returns (i: nat)
    requires Shown(artifacts, p)
    ensures i < |artifacts| && p in Chain(artifacts[i].path)
  {
    i :| 0 <= i < |artifacts| && p in Chain(artifacts[i].path);
  }

  lemma WayEntered(nodes: Nodes, path: string, p: string)
    requires Normal(path) && Hanging(nodes, {}) && path in nodes && p in Chain(path)
    ensures p in nodes && NodeName(p) == Name(p)
  {
    HangingIsClosed(nodes, path, p);
    NormalChain(path, p);
    SegmentsOfNormal(p);
  }

  // ----- The two views -----

  lemma {:induction false} NoRepeatSize(children: seq<string>)
    requires NoRepeat(children)
    ensures |set c | c in children| == |children|
    decreases |children|
  {
    if children == [] {
      assert (set c | c in children) == {};
    } else {
      var n := |children| - 1;
      NoRepeatSize(children[..n]);
      assert (set c | c in children) == (set c | c in children[..n]) + {children[n]};
      assert children[n] !in children[..n];
    }
  }

  /** For every folder of the tree, and for its root, the nodes under it are the entries of the
      flat listing, with the same path, name, kind and artifact, and as many of them. */
  lemma ViewsAgree(artifacts: seq<Artifact>, nodes: Nodes, roots: set<string>, folder: string, entries: map<string, TreeEntry>)
    requires IsForest(artifacts, nodes, roots) && IsListing(artifacts, folder, entries)
    requires folder == "" || folder in nodes
    ensures var under := if folder == "" then roots else set c | c in nodes[folder].children;
      && under == entries.Keys
      && (forall c :: c in under ==> c in nodes && entries[c] == EntryOf(c, nodes[c]))
      && (folder != "" ==> |nodes[folder].children| == |entries|)
  {
    if folder != "" {
      assert NoRepeat(nodes[folder].children);
      NoRepeatSize(nodes[folder].children);
      assert (set c | c in nodes[folder].children) == entries.Keys;
    }
  }

  /** Each node that is no root stands at one place: under its parent, once. */
  lemma OccursOnce(artifacts: seq<Artifact>, nodes: Nodes, roots: set<string>, c: string, p: string, i: nat, q: string, j: nat)
    requires IsForest(artifacts, nodes, roots) && p in nodes && q in nodes
    requires i < |nodes[p].children| && nodes[p].children[i] == c && j < |nodes[q].children| && nodes[q].children[j] == c
    ensures p == q == Parent(c) && i == j && c !in roots
  {
    assert c in nodes[p].children && c in nodes[q].children && Parent(c) == p && Parent(c) == q;
    assert NoRepeat(nodes[p].children);
  }
}
