/** What the file browser shows, stated on the artifacts' paths. */
module FileTreeLaws {
  import opened Wrappers
  import opened Paths
  import opened BundleTree
  import opened BundleAlignment
  import opened BundleSteps
  import opened FileTree

  lemma NormalRow(rows: Rows, id: ArtifactId)
    requires NormalPaths(rows) && id in rows
    ensures Normal(rows[id].path)
  {
  }

  /** The views are of a build's rows, in any order, each once: over every run these have normal and
      distinct paths, which is what the views take for granted. */
  lemma RowsCanBeShown(rows: Rows, ids: seq<ArtifactId>, artifacts: seq<Artifact>)
    requires UniquePaths(rows) && NormalPaths(rows) && |ids| == |artifacts|
    requires forall i :: 0 <= i < |ids| ==> ids[i] in rows && artifacts[i] == rows[ids[i]]
    requires forall i, j :: 0 <= i < j < |ids| ==> ids[i] != ids[j]
    ensures NormalArtifacts(artifacts)
  {
    forall i | 0 <= i < |artifacts| ensures Normal(artifacts[i].path) {
      NormalRow(rows, ids[i]);
    }
    forall i, j | 0 <= i < j < |artifacts| ensures artifacts[i].path != artifacts[j].path {
      assert RowAt(rows, ids[i], artifacts[i].path) && RowAt(rows, ids[j], artifacts[j].path);
    }
  }

  /** An artifact stands at `p`, or below it. */
  ghost predicate LeadsTo(artifacts: seq<Artifact>, p: string) {
    p != "" && exists i :: 0 <= i < |artifacts| && (artifacts[i].path == p || Under(artifacts[i].path, p))
  }

  lemma ShownLeads(artifacts: seq<Artifact>, p: string)
    ensures Shown(artifacts, p) <==> LeadsTo(artifacts, p)
  {
    forall i | 0 <= i < |artifacts|
      ensures p in Chain(artifacts[i].path) <==> p != "" && (artifacts[i].path == p || Under(artifacts[i].path, p))
    {
      ChainIs(artifacts[i].path, p);
    }
  }

  /** The entry of an artifact's path is that artifact's; any other stands for a folder. */
  ghost predicate Tells(artifacts: seq<Artifact>, p: string, e: TreeEntry) {
    && e.path == p && e.name == Name(p)
    && (forall i :: 0 <= i < |artifacts| && artifacts[i].path == p ==> e.artifact == Some(artifacts[i]) && e.isDir == artifacts[i].isDir)
    && ((forall i :: 0 <= i < |artifacts| ==> artifacts[i].path != p) ==> e.artifact == None && e.isDir)
  }

  lemma EntryTells(artifacts: seq<Artifact>, p: string)
    requires NormalArtifacts(artifacts)
    ensures Tells(artifacts, p, EntryAt(artifacts, p))
  {
    forall i | 0 <= i < |artifacts| && artifacts[i].path == p ensures ArtifactAt(artifacts, p) == Some(artifacts[i]) {
      ArtifactAtIs(artifacts, i);
    }
    if forall i :: 0 <= i < |artifacts| ==> artifacts[i].path != p { NoArtifactAt(artifacts, p); }
  }

  /** The listing of a folder has exactly the paths in it that lead to artifacts, with their entries. */
  lemma ListingShows(artifacts: seq<Artifact>, folder: string, entries: map<string, TreeEntry>, p: string)
    requires NormalArtifacts(artifacts) && IsListing(artifacts, folder, entries)
    ensures p in entries <==> LeadsTo(artifacts, p) && Parent(p) == folder
    ensures p in entries ==> Tells(artifacts, p, entries[p])
  {
    ShownLeads(artifacts, p);
    EntryTells(artifacts, p);
  }

  /** So has the tree, in which each stands under its folder, once, or at the root. */
  lemma TreeShows(artifacts: seq<Artifact>, nodes: Nodes, roots: set<string>, p: string)
    requires NormalArtifacts(artifacts) && IsForest(artifacts, nodes, roots)
    ensures p in nodes <==> LeadsTo(artifacts, p)
    ensures p in nodes ==> Tells(artifacts, p, TreeEntry(p, nodes[p].name, nodes[p].isDir, nodes[p].artifact))
    ensures p in nodes && Parent(p) != "" ==>
      Parent(p) in nodes && exists i :: 0 <= i < |nodes[Parent(p)].children| && nodes[Parent(p)].children[i] == p
    ensures p in roots <==> p in nodes && Parent(p) == ""
  {
    ShownLeads(artifacts, p);
    EntryTells(artifacts, p);
  }

  /** And under a node there is nothing else, and nothing twice. */
  lemma ChildrenAre(artifacts: seq<Artifact>, nodes: Nodes, roots: set<string>, p: string)
    requires NormalArtifacts(artifacts) && IsForest(artifacts, nodes, roots) && p in nodes
    ensures forall i, j :: 0 <= i < j < |nodes[p].children| ==> nodes[p].children[i] != nodes[p].children[j]
    ensures forall i :: 0 <= i < |nodes[p].children| ==> nodes[p].children[i] in nodes && Parent(nodes[p].children[i]) == p
  {
    assert NoRepeat(nodes[p].children);
  }
}
