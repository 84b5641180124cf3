/** Over every run of client and bundle operations a link that is set names an existing bundle
    by its slug, and updates destroy only what nobody refers to. */
module CatalogLinkRuns {
  import opened Texts
  import opened Wrappers
  import opened CatalogLinks

  ghost predicate LinkOk(c: Catalog, client: Client) {
    client.bundleId.Some? ==>
      && client.bundleId.value in c.bundles
      && client.bundleSlug == Some(c.bundles[client.bundleId.value].slug)
  }

  ghost predicate OneBundlePerSlug(bundles: map<BundleId, Bundle>) {
    forall i, j :: i in bundles && j in bundles && bundles[i].slug == bundles[j].slug ==> i == j
  }

  /** A link that is set names an existing bundle, with its slug beside it. */
  ghost predicate LinksOk(c: Catalog) {
    OneBundlePerSlug(c.bundles) && forall id :: id in c.clients ==> LinkOk(c, c.clients[id])
  }

  // ----- Each operation -----

  lemma PointedOk(c: Catalog, id: ClientId, bundle: BundleId, slug: string)
    requires LinksOk(c) && id in c.clients && bundle in c.bundles && c.bundles[bundle].slug == slug
    ensures LinksOk(Pointed(c, id, bundle, slug))
  {
    var after := Pointed(c, id, bundle, slug);
    forall i | i in after.clients ensures LinkOk(after, after.clients[i]) {
      assert LinkOk(c, c.clients[i]);
    }
  }

  lemma ProvisionedOk(c: Catalog, slug: string, newBundle: BundleId)
    requires LinksOk(c) && newBundle !in c.bundles && !HasSlug(c.bundles, slug)
    ensures LinksOk(c.(bundles := c.bundles[newBundle := Bundle(slug, 0)]))
  {
    var after := c.(bundles := c.bundles[newBundle := Bundle(slug, 0)]);
    forall i | i in after.clients ensures LinkOk(after, after.clients[i]) {
      assert LinkOk(c, c.clients[i]);
    }
  }

  lemma WithoutBundleOk(c: Catalog, bundle: BundleId)
    requires LinksOk(c)
    ensures LinksOk(WithoutBundle(c, bundle))
  {
    var after := WithoutBundle(c, bundle);
    forall i | i in after.clients ensures LinkOk(after, after.clients[i]) {
      assert LinkOk(c, c.clients[i]);
    }
  }

  /** A completed link: the client points at a bundle of that slug, other clients and every
      bundle there was stay as they were. */
  lemma LinkedOk(c: Catalog, id: ClientId, slug: string, newBundle: BundleId)
    requires LinksOk(c) && id in c.clients && newBundle !in c.bundles && Linked(c, id, slug, newBundle).Some?
    ensures var after := Linked(c, id, slug, newBundle).value;
      && LinksOk(after) && after.clients.Keys == c.clients.Keys
      && after.clients[id] == c.clients[id].(bundleId := after.clients[id].bundleId, bundleSlug := Some(slug))
      && after.clients[id].bundleId.Some?
      && after.clients[id].bundleId.value in after.bundles && after.bundles[after.clients[id].bundleId.value].slug == slug
      && (forall i :: i in c.clients && i != id ==> after.clients[i] == c.clients[i])
      && (forall b :: b in c.bundles ==> b in after.bundles && after.bundles[b] == c.bundles[b])
      && (forall b :: b in after.bundles && b !in c.bundles ==> b == newBundle && !HasSlug(c.bundles, slug))
  {
    if HasSlug(c.bundles, slug) {
      PointedOk(c, id, BundleAt(c.bundles, slug), slug);
    } else {
      ProvisionedOk(c, slug, newBundle);
      PointedOk(c.(bundles := c.bundles[newBundle := Bundle(slug, 0)]), id, newBundle, slug);
    }
  }

  lemma InsertedOk(c: Catalog, id: ClientId, slug: string)
    requires LinksOk(c) && id !in c.clients
    ensures LinksOk(c.(clients := c.clients[id := Client(slug, None, None)]))
  {
    var after := c.(clients := c.clients[id := Client(slug, None, None)]);
    forall i | i in after.clients ensures LinkOk(after, after.clients[i]) {
      if i != id { assert LinkOk(c, c.clients[i]); }
    }
  }

  lemma CreateKeepsLinks(c: Catalog, body: Body, id: ClientId, newBundle: BundleId)
    requires LinksOk(c) && id !in c.clients && newBundle !in c.bundles
    ensures LinksOk(CreateClient(c, body, id, newBundle).catalog)
  {
    if CreateClient(c, body, id, newBundle).error.None? {
      var inserted := c.(clients := c.clients[id := Client(body.slug, None, None)]);
      InsertedOk(c, id, body.slug);
      LinkedOk(inserted, id, if Requested(body.bundleSlug).Some? then Requested(body.bundleSlug).value else Trim(body.slug), newBundle);
    }
  }

  /** The client's row under its new slug, before it is linked again. */
  function Renamed(c: Catalog, id: ClientId, body: Body): Catalog
    requires id in c.clients
  {
    c.(clients := c.clients[id := c.clients[id].(slug := body.slug)])
  }

  lemma RenamedOk(c: Catalog, id: ClientId, body: Body)
    requires LinksOk(c) && id in c.clients
    ensures LinksOk(Renamed(c, id, body))
  {
    forall i | i in c.clients ensures LinkOk(Renamed(c, id, body), Renamed(c, id, body).clients[i]) {
      assert LinkOk(c, c.clients[i]);
    }
  }

  lemma StrandKeepsLinks(c: Catalog, previous: BundleId, deleteOrphaned: bool)
    requires LinksOk(c)
    ensures LinksOk(Strand(c, previous, deleteOrphaned).0)
  {
    WithoutBundleOk(c, previous);
  }

  lemma UpdateKeepsLinks(c: Catalog, id: ClientId, body: Body, newBundle: BundleId)
    requires LinksOk(c) && newBundle !in c.bundles
    ensures LinksOk(UpdateClient(c, id, body, newBundle).catalog)
  {
    if id in c.clients && UpdateClient(c, id, body, newBundle).error.None? {
      var current := c.clients[id].bundleId;
      RenamedOk(c, id, body);
      LinkedOk(Renamed(c, id, body), id, OwnedSlug(c, body, current), newBundle);
      var linked := Linked(Renamed(c, id, body), id, OwnedSlug(c, body, current), newBundle).value;
      if current.Some? { StrandKeepsLinks(linked, current.value, body.deleteOrphaned); }
    }
  }

  lemma DeleteKeepsLinks(c: Catalog, id: ClientId)
    requires LinksOk(c)
    ensures LinksOk(DeleteClient(c, id).catalog)
  {
    var rest := c.(clients := c.clients - {id});
    forall i | i in rest.clients ensures LinkOk(rest, rest.clients[i]) { assert LinkOk(c, c.clients[i]); }
    if id in c.clients && c.clients[id].bundleId.Some? { WithoutBundleOk(rest, c.clients[id].bundleId.value); }
  }

  // ----- What an update does -----

  /** Leaving `bundleSlug` out of an update of a linked client leaves the link as it is,
      whatever the client is renamed to, and every bundle too. */
  lemma AbsentFieldKeepsTheLink(c: Catalog, id: ClientId, body: Body, newBundle: BundleId)
    requires LinksOk(c) && newBundle !in c.bundles && id in c.clients && c.clients[id].bundleId.Some?
    requires body.bundleSlug.Absent? && UpdateClient(c, id, body, newBundle).error != Some(Conflict)
    ensures var outcome := UpdateClient(c, id, body, newBundle);
      && outcome.error.None? && outcome.stranded.Untouched?
      && outcome.catalog == c.(clients := c.clients[id := c.clients[id].(slug := body.slug)])
  {
    var bundle := c.clients[id].bundleId.value;
    assert LinkOk(c, c.clients[id]);
    assert HasSlug(c.bundles, c.bundles[bundle].slug);
    assert BundleAt(c.bundles, c.bundles[bundle].slug) == bundle;
    assert Pointed(Renamed(c, id, body), id, bundle, c.bundles[bundle].slug) == Renamed(c, id, body);
  }

  /** Someone in the catalog still points at the bundle. */
  ghost predicate Referenced(c: Catalog, bundle: BundleId) {
    exists id :: id in c.clients && References(c.clients[id], bundle)
  }

  lemma OthersStillReference(c: Catalog, linked: Catalog, id: ClientId, bundle: BundleId)
    requires id in c.clients && linked.clients.Keys == c.clients.Keys
    requires forall i :: i in c.clients && i != id ==> linked.clients[i] == c.clients[i]
    requires linked.clients[id].bundleId != Some(bundle)
    ensures Referenced(linked, bundle) <==> exists i :: i in c.clients && i != id && References(c.clients[i], bundle)
  {
    if exists i :: i in c.clients && i != id && References(c.clients[i], bundle) {
      var i :| i in c.clients && i != id && References(c.clients[i], bundle);
      assert References(linked.clients[i], bundle);
    }
  }

  /** Exactly which bundles a completed update destroys: the one the client moved away from,
      when no other client points at it and it is empty or the caller opted in. */
  ghost predicate Destroyed(c: Catalog, id: ClientId, body: Body, after: Catalog, bundle: BundleId) {
    && id in c.clients && id in after.clients
    && c.clients[id].bundleId == Some(bundle) && after.clients[id].bundleId != Some(bundle)
    && !(exists i :: i in c.clients && i != id && References(c.clients[i], bundle))
    && bundle in c.bundles && (body.deleteOrphaned || c.bundles[bundle].artifacts == 0)
  }

  lemma UpdateDestroysExactly(c: Catalog, id: ClientId, body: Body, newBundle: BundleId, bundle: BundleId)
    requires LinksOk(c) && newBundle !in c.bundles && bundle in c.bundles
    requires UpdateClient(c, id, body, newBundle).error.None?
    ensures var after := UpdateClient(c, id, body, newBundle).catalog;
      && (bundle !in after.bundles <==> Destroyed(c, id, body, after, bundle))
      && (bundle in after.bundles ==> after.bundles[bundle] == c.bundles[bundle])
  {
    var current, after := c.clients[id].bundleId, UpdateClient(c, id, body, newBundle).catalog;
    RenamedOk(c, id, body);
    LinkedOk(Renamed(c, id, body), id, OwnedSlug(c, body, current), newBundle);
    var linked := Linked(Renamed(c, id, body), id, OwnedSlug(c, body, current), newBundle).value;
    if current.Some? && current != linked.clients[id].bundleId {
      OthersStillReference(c, linked, id, current.value);
      assert after == Strand(linked, current.value, body.deleteOrphaned).0;
      assert after.clients[id].bundleId == linked.clients[id].bundleId;
    }
  }

  /** A completed update leaves the client linked to the bundle of the slug it asked for, and
      no other client changes. */
  lemma UpdateLinks(c: Catalog, id: ClientId, body: Body, newBundle: BundleId)
    requires LinksOk(c) && newBundle !in c.bundles && UpdateClient(c, id, body, newBundle).error.None?
    ensures var after := UpdateClient(c, id, body, newBundle).catalog;
      && id in c.clients && after.clients.Keys == c.clients.Keys && after.clients[id].bundleId.Some?
      && after.clients[id].slug == body.slug
      && after.clients[id].bundleSlug == Some(OwnedSlug(c, body, c.clients[id].bundleId))
      && forall i :: i in c.clients && i != id ==> after.clients[i] == c.clients[i]
  {
    var current, after := c.clients[id].bundleId, UpdateClient(c, id, body, newBundle).catalog;
    RenamedOk(c, id, body);
    LinkedOk(Renamed(c, id, body), id, OwnedSlug(c, body, current), newBundle);
    var linked := Linked(Renamed(c, id, body), id, OwnedSlug(c, body, current), newBundle).value;
    if current.Some? && current != linked.clients[id].bundleId {
      NobodyLosesALink(linked, current.value, body.deleteOrphaned);
    }
  }

  lemma NobodyLosesALink(c: Catalog, previous: BundleId, deleteOrphaned: bool)
    ensures Strand(c, previous, deleteOrphaned).0.clients == c.clients
  {
    if !Referenced(c, previous) {
      assert forall i :: i in c.clients ==> !References(c.clients[i], previous);
    }
  }

  /** The update reports a bundle as orphaned exactly when it leaves it there, with files in it
      and nobody pointing at it. */
  lemma OrphanReportedExactly(c: Catalog, id: ClientId, body: Body, newBundle: BundleId)
    requires LinksOk(c) && newBundle !in c.bundles && UpdateClient(c, id, body, newBundle).error.None?
    ensures var outcome := UpdateClient(c, id, body, newBundle);
      outcome.stranded.Kept? <==>
        c.clients[id].bundleId.Some? && outcome.catalog.clients[id].bundleId != c.clients[id].bundleId
        && !Referenced(outcome.catalog, c.clients[id].bundleId.value)
        && c.clients[id].bundleId.value in outcome.catalog.bundles
  {
    var current := c.clients[id].bundleId;
    UpdateLinks(c, id, body, newBundle);
    if current.Some? {
      assert LinkOk(c, c.clients[id]);
      RenamedOk(c, id, body);
      LinkedOk(Renamed(c, id, body), id, OwnedSlug(c, body, current), newBundle);
      var linked := Linked(Renamed(c, id, body), id, OwnedSlug(c, body, current), newBundle).value;
      NobodyLosesALink(linked, current.value, body.deleteOrphaned);
    }
  }

  // ----- Deleting a client -----

  /** Deleting a client destroys its bundle whoever else points at it: exactly the clients that
      share it lose their link, and keep its slug. */
  lemma DeleteUnlinksSharersExactly(c: Catalog, id: ClientId, other: ClientId)
    requires LinksOk(c) && id in c.clients && other in c.clients && other != id
    ensures var after := DeleteClient(c, id).catalog;
      && other in after.clients && after.clients[other].bundleSlug == c.clients[other].bundleSlug
      && (after.clients[other].bundleId != c.clients[other].bundleId <==>
            c.clients[id].bundleId.Some? && c.clients[other].bundleId == c.clients[id].bundleId)
  {
  }

  // ----- Runs -----

  datatype Op =
    | CreateClientOp(body: Body, id: ClientId, newBundle: BundleId)
    | UpdateClientOp(id: ClientId, body: Body, newBundle: BundleId)
    | DeleteClientOp(id: ClientId)
    | CreateBundleOp(slug: string, newBundle: BundleId)
    | DeleteBundleOp(bundle: BundleId)
    | UploadOp(bundle: BundleId, artifacts: nat)

  /** Ids the database hands out are new; nothing else is asked. */
  ghost predicate Enabled(c: Catalog, op: Op) {
    match op
    case CreateClientOp(_, id, newBundle) => id !in c.clients && newBundle !in c.bundles
    case UpdateClientOp(_, _, newBundle) => newBundle !in c.bundles
    case CreateBundleOp(_, newBundle) => newBundle !in c.bundles
    case _ => true
  }

  ghost function Apply(c: Catalog, op: Op): Catalog {
    match op
    case CreateClientOp(body, id, newBundle) => CreateClient(c, body, id, newBundle).catalog
    case UpdateClientOp(id, body, newBundle) => UpdateClient(c, id, body, newBundle).catalog
    case DeleteClientOp(id) => DeleteClient(c, id).catalog
    case CreateBundleOp(slug, newBundle) => CreateBundle(c, slug, newBundle).catalog
    case DeleteBundleOp(bundle) => DeleteBundle(c, bundle).catalog
    case UploadOp(bundle, artifacts) =>
      if bundle in c.bundles then c.(bundles := c.bundles[bundle := c.bundles[bundle].(artifacts := artifacts)]) else c
  }

  ghost predicate Runnable(c: Catalog, ops: seq<Op>)
    decreases |ops|
  {
    ops == [] || (Enabled(c, ops[0]) && Runnable(Apply(c, ops[0]), ops[1..]))
  }

  ghost function After(c: Catalog, ops: seq<Op>): Catalog
    decreases |ops|
  {
    if ops == [] then c else After(Apply(c, ops[0]), ops[1..])
  }

  lemma StepKeepsLinks(c: Catalog, op: Op)
    requires LinksOk(c) && Enabled(c, op)
    ensures LinksOk(Apply(c, op))
  {
    match op
    case CreateClientOp(body, id, newBundle) => CreateKeepsLinks(c, body, id, newBundle);
    case UpdateClientOp(id, body, newBundle) => UpdateKeepsLinks(c, id, body, newBundle);
    case DeleteClientOp(id) => DeleteKeepsLinks(c, id);
    case CreateBundleOp(slug, newBundle) => if !HasSlug(c.bundles, slug) { ProvisionedOk(c, slug, newBundle); }
    case DeleteBundleOp(bundle) => WithoutBundleOk(c, bundle);
    case UploadOp(bundle, artifacts) =>
      var after := Apply(c, op);
      forall i | i in after.clients ensures LinkOk(after, after.clients[i]) { assert LinkOk(c, c.clients[i]); }
  }

  /** Over every run, a link that is set names an existing bundle by its slug, and no two
      bundles share one. */
  lemma {:induction false} RunsKeepLinks(c: Catalog, ops: seq<Op>)
    requires LinksOk(c) && Runnable(c, ops)
    ensures LinksOk(After(c, ops))
    decreases |ops|
  {
    if ops != [] {
      StepKeepsLinks(c, ops[0]);
      RunsKeepLinks(Apply(c, ops[0]), ops[1..]);
    }
  }

  /** An operation in which nobody asks for a deletion; uploads only add. */
  ghost predicate Careful(c: Catalog, op: Op) {
    match op
    case UpdateClientOp(_, body, _) => !body.deleteOrphaned
    case DeleteClientOp(_) => false
    case DeleteBundleOp(_) => false
    case UploadOp(bundle, artifacts) => bundle in c.bundles ==> c.bundles[bundle].artifacts <= artifacts
    case _ => true
  }

  ghost predicate AllCareful(c: Catalog, ops: seq<Op>)
    decreases |ops|
  {
    ops == [] || (Careful(c, ops[0]) && AllCareful(Apply(c, ops[0]), ops[1..]))
  }

  ghost predicate HoldsFiles(c: Catalog, bundle: BundleId, slug: string) {
    bundle in c.bundles && c.bundles[bundle].slug == slug && c.bundles[bundle].artifacts > 0
  }

  lemma StepKeepsFiles(c: Catalog, op: Op, bundle: BundleId, slug: string)
    requires LinksOk(c) && Enabled(c, op) && Careful(c, op) && HoldsFiles(c, bundle, slug)
    ensures HoldsFiles(Apply(c, op), bundle, slug)
  {
    match op
    case CreateClientOp(body, id, newBundle) =>
    case UpdateClientOp(id, body, newBundle) =>
      if UpdateClient(c, id, body, newBundle).error.None? { UpdateDestroysExactly(c, id, body, newBundle, bundle); }
    case _ =>
  }

  /** However clients are created, renamed and linked elsewhere, a bundle with files in it
      stays, under its slug, until someone asks for a deletion. */
  lemma {:induction false} UploadsSurviveRuns(c: Catalog, ops: seq<Op>, bundle: BundleId, slug: string)
    requires LinksOk(c) && Runnable(c, ops) && AllCareful(c, ops) && HoldsFiles(c, bundle, slug)
    ensures HoldsFiles(After(c, ops), bundle, slug)
    decreases |ops|
  {
    if ops != [] {
      StepKeepsFiles(c, ops[0], bundle, slug);
      StepKeepsLinks(c, ops[0]);
      UploadsSurviveRuns(Apply(c, ops[0]), ops[1..], bundle, slug);
    }
  }

  // ----- Two clients of one bundle -----

  /** Two clients created with the same `bundleSlug`, then the first one deleted. */
  function Sharing(one: Body, other: Body): seq<Op> {
    [CreateClientOp(one, 1, 1), CreateClientOp(other, 2, 2), DeleteClientOp(1)]
  }

  lemma AfterTwo(c: Catalog, a: Op, b: Op, d: Op)
    ensures After(c, [a, b]) == Apply(Apply(c, a), b)
    ensures After(c, [a, b, d]) == Apply(Apply(Apply(c, a), b), d)
    ensures Enabled(c, a) && Enabled(Apply(c, a), b) && Enabled(Apply(Apply(c, a), b), d) ==> Runnable(c, [a, b, d])
  {
    assert [a, b, d][1..] == [b, d] && [b, d][1..] == [d] && [a, b][1..] == [b] && [b][1..] == [] && [d][1..] == [];
    assert After(Apply(c, a), [b]) == Apply(Apply(c, a), b);
    assert After(Apply(Apply(c, a), b), [d]) == Apply(Apply(Apply(c, a), b), d);
    assert Enabled(Apply(Apply(c, a), b), d) ==> Runnable(Apply(Apply(c, a), b), [d]);
  }

  lemma FirstClient(one: Body, slug: string)
    requires Requested(one.bundleSlug) == Some(slug) && ValidSlug(slug)
    ensures CreateClient(Catalog(map[], map[]), one, 1, 1).catalog
      == Catalog(map[1 := Client(one.slug, Some(1), Some(slug))], map[1 := Bundle(slug, 0)])
  {
  }

  lemma SecondClient(c: Catalog, one: Body, other: Body, slug: string)
    requires c == Catalog(map[1 := Client(one.slug, Some(1), Some(slug))], map[1 := Bundle(slug, 0)])
    requires Requested(other.bundleSlug) == Some(slug) && one.slug != other.slug
    ensures CreateClient(c, other, 2, 2).catalog == c.(clients := c.clients[2 := Client(other.slug, Some(1), Some(slug))])
  {
    assert c.bundles[1].slug == slug;
    assert BundleAt(c.bundles, slug) == 1;
  }

  /** From an empty catalog, clients of different slugs that ask for one bundle slug share the
      bundle; deleting one leaves the other without it, its slug still set. */
  lemma ClientsCanShare(one: Body, other: Body, slug: string)
    requires Requested(one.bundleSlug) == Requested(other.bundleSlug) == Some(slug) && ValidSlug(slug)
    requires one.slug != other.slug
    ensures var empty, run := Catalog(map[], map[]), Sharing(one, other);
      && Runnable(empty, run)
      && After(empty, run[..2]).clients == map[1 := Client(one.slug, Some(1), Some(slug)), 2 := Client(other.slug, Some(1), Some(slug))]
      && After(empty, run) == Catalog(map[2 := Client(other.slug, None, Some(slug))], map[])
  {
    var empty, run := Catalog(map[], map[]), Sharing(one, other);
    AfterTwo(empty, run[0], run[1], run[2]);
    FirstClient(one, slug);
    var c := Apply(empty, run[0]);
    SecondClient(c, one, other, slug);
    assert run[..2] == [run[0], run[1]];
  }
}
