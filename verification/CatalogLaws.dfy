/** What the catalog endpoints promise, stated on the request and the rows: which bundle a client
    is linked to, when a request is refused, and what else changes. */
module CatalogLaws {
  import opened Texts
  import opened Wrappers
  import opened CatalogLinks
  import opened CatalogLinkRuns

  /** Some other client has this slug. */
  predicate Clashes(c: Catalog, id: ClientId, slug: string) {
    exists other :: other in c.clients && other != id && c.clients[other].slug == slug
  }

  predicate BundleHas(c: Catalog, bundle: BundleId, slug: string) { bundle in c.bundles && c.bundles[bundle].slug == slug }

  /** One path segment that means nothing to a filesystem. */
  predicate Inert(slug: string) {
    |slug| > 0 && slug != "." && slug != ".." && forall i :: 0 <= i < |slug| ==> slug[i] != '/' && slug[i] != '\\' && slug[i] != '\0'
  }

  lemma InertIsValid(slug: string)
    ensures ValidSlug(slug) <==> Inert(slug)
  {
    if ValidSlug(slug) {
      forall i | 0 <= i < |slug| ensures slug[i] != '/' && slug[i] != '\\' && slug[i] != '\0' { assert slug[i] in slug; }
    }
  }

  /** `slug` is what the request's `bundleSlug` asks for: its text trimmed when that leaves any; when
      it is there and does not, the client's slug trimmed; when it is not there, `otherwise`. */
  predicate AsksFor(body: Body, otherwise: string, slug: string) {
    && (body.bundleSlug.Given? && Trim(body.bundleSlug.text) != "" ==> slug == Trim(body.bundleSlug.text))
    && (body.bundleSlug.Given? && Trim(body.bundleSlug.text) == "" ==> slug == Trim(body.slug))
    && (body.bundleSlug.Null? ==> slug == Trim(body.slug))
    && (body.bundleSlug.Absent? ==> slug == otherwise)
  }

  /** The client with this id points at a bundle of that slug: the one there was, or else a new and
      empty one under `newBundle`. Other bundles stay. */
  ghost predicate LinksTo(c: Catalog, after: Catalog, client: Client, slug: string, newBundle: BundleId) {
    && client.bundleSlug == Some(slug) && client.bundleId.Some?
    && (forall b :: BundleHas(c, b, slug) ==> client.bundleId == Some(b) && after.bundles == c.bundles)
    && ((forall b :: !BundleHas(c, b, slug)) ==>
          client.bundleId == Some(newBundle) && after.bundles == c.bundles[newBundle := Bundle(slug, 0)])
  }

  lemma LinkedIs(c: Catalog, id: ClientId, slug: string, newBundle: BundleId)
    requires OneBundlePerSlug(c.bundles) && id in c.clients
    ensures Linked(c, id, slug, newBundle).None? <==> (forall b :: !BundleHas(c, b, slug)) && !Inert(slug)
    ensures Linked(c, id, slug, newBundle).Some? ==>
      var after := Linked(c, id, slug, newBundle).value;
      && id in after.clients && LinksTo(c, after, after.clients[id], slug, newBundle)
      && after.clients == c.clients[id := c.clients[id].(bundleId := after.clients[id].bundleId, bundleSlug := Some(slug))]
  {
    InertIsValid(slug);
    assert HasSlug(c.bundles, slug) <==> exists b :: BundleHas(c, b, slug) by {
      if b :| BundleHas(c, b, slug) { assert b in c.bundles && c.bundles[b].slug == slug; }
      if HasSlug(c.bundles, slug) { assert BundleHas(c, BundleAt(c.bundles, slug), slug); }
    }
    if HasSlug(c.bundles, slug) {
      assert BundleHas(c, BundleAt(c.bundles, slug), slug);
      forall b | BundleHas(c, b, slug) ensures b == BundleAt(c.bundles, slug) {}
    }
  }

  /** A create is refused for a slug another client has, or for a bundle slug that is neither there
      nor inert, and changes nothing then. Otherwise it adds the client, linked to the bundle asked
      for, or to that of its own slug. */
  lemma CreatesExactly(c: Catalog, body: Body, id: ClientId, newBundle: BundleId, slug: string)
    requires LinksOk(c) && id !in c.clients && newBundle !in c.bundles && AsksFor(body, Trim(body.slug), slug)
    ensures var outcome := CreateClient(c, body, id, newBundle);
      && outcome.stranded.Untouched?
      && (if Clashes(c, id, body.slug) then outcome.error == Some(Conflict) && outcome.catalog == c
          else if (forall b :: !BundleHas(c, b, slug)) && !Inert(slug) then outcome.error == Some(BadRequest) && outcome.catalog == c
          else
            && outcome.error.None? && id in outcome.catalog.clients
            && outcome.catalog.clients == c.clients[id := outcome.catalog.clients[id]]
            && outcome.catalog.clients[id].slug == body.slug
            && LinksTo(c, outcome.catalog, outcome.catalog.clients[id], slug, newBundle))
  {
    var inserted := c.(clients := c.clients[id := Client(body.slug, None, None)]);
    assert forall b :: BundleHas(inserted, b, slug) <==> BundleHas(c, b, slug);
    assert slug == if Requested(body.bundleSlug).Some? then Requested(body.bundleSlug).value else Trim(body.slug);
    LinkedIs(inserted, id, slug, newBundle);
  }

  /** What the update does to a bundle that the client has left. */
  ghost predicate Leaves(c: Catalog, mid: Catalog, id: ClientId, left: BundleId, deleteOrphaned: bool, outcome: Outcome) {
    var shared := exists i :: i in c.clients && i != id && c.clients[i].bundleId == Some(left);
    if shared || left !in mid.bundles then outcome.catalog == mid && outcome.stranded.Untouched?
    else if deleteOrphaned || mid.bundles[left].artifacts == 0 then
      outcome.catalog == mid.(bundles := mid.bundles - {left}) && outcome.stranded == Deleted(mid.bundles[left].slug)
    else outcome.catalog == mid && outcome.stranded == Kept(mid.bundles[left].slug)
  }

  /** The client's row and its link as a completed update leaves them. */
  ghost predicate Relinked(c: Catalog, mid: Catalog, id: ClientId, body: Body, slug: string, newBundle: BundleId)
    requires id in c.clients
  {
    && id in mid.clients && mid.clients == c.clients[id := mid.clients[id]] && mid.clients[id].slug == body.slug
    && LinksTo(c, mid, mid.clients[id], slug, newBundle)
  }

  /** The slug of the bundle the client is linked to, or its own new one. */
  function Fallback(c: Catalog, id: ClientId, body: Body): string
    requires id in c.clients
  {
    var link := c.clients[id].bundleId;
    if link.Some? && link.value in c.bundles then c.bundles[link.value].slug else Trim(body.slug)
  }

  /** An update is refused for an unknown client, a slug another client has, or a bundle slug that is
      neither there nor inert, and changes nothing then. Otherwise the client has its new slug and
      is linked to the bundle asked for, or stays with its own; and only a bundle it has left is
      touched: deleted when nobody else points at it and it is empty or the caller opted in. */
  lemma UpdatesExactly(c: Catalog, id: ClientId, body: Body, newBundle: BundleId, slug: string)
    requires LinksOk(c) && newBundle !in c.bundles
    requires id in c.clients ==> AsksFor(body, Fallback(c, id, body), slug)
    ensures var outcome := UpdateClient(c, id, body, newBundle);
      if id !in c.clients then outcome == Outcome(c, Some(NotFound), Untouched)
      else if Clashes(c, id, body.slug) then outcome == Outcome(c, Some(Conflict), Untouched)
      else if (forall b :: !BundleHas(c, b, slug)) && !Inert(slug) then outcome == Outcome(c, Some(BadRequest), Untouched)
      else
        && outcome.error.None?
        && exists mid :: Relinked(c, mid, id, body, slug, newBundle)
             && (if c.clients[id].bundleId.Some? && c.clients[id].bundleId != mid.clients[id].bundleId
                 then Leaves(c, mid, id, c.clients[id].bundleId.value, body.deleteOrphaned, outcome)
                 else outcome.catalog == mid && outcome.stranded.Untouched?)
  {
    if id in c.clients && !Clashes(c, id, body.slug) {
      var current, renamed := c.clients[id].bundleId, Renamed(c, id, body);
      assert forall b :: BundleHas(renamed, b, slug) <==> BundleHas(c, b, slug);
      assert slug == OwnedSlug(c, body, current);
      LinkedIs(renamed, id, slug, newBundle);
      if Linked(renamed, id, slug, newBundle).Some? {
        var mid := Linked(renamed, id, slug, newBundle).value;
        assert LinksTo(c, mid, mid.clients[id], slug, newBundle);
        assert Relinked(c, mid, id, body, slug, newBundle);
        if current.Some? && current != mid.clients[id].bundleId { StrandLeaves(c, mid, id, current.value, body.deleteOrphaned); }
      }
    }
  }

  lemma StrandLeaves(c: Catalog, mid: Catalog, id: ClientId, left: BundleId, deleteOrphaned: bool)
    requires id in c.clients && id in mid.clients && mid.clients == c.clients[id := mid.clients[id]]
    requires mid.clients[id].bundleId != Some(left)
    ensures var (after, stranded) := Strand(mid, left, deleteOrphaned); Leaves(c, mid, id, left, deleteOrphaned, Outcome(after, None, stranded))
  {
    OthersStillReference(c, mid, id, left);
    NobodyLosesALink(mid, left, deleteOrphaned);
  }

  /** Deleting a client deletes its bundle too, and clears the link of whoever shares it. */
  lemma DeletesExactly(c: Catalog, id: ClientId, other: ClientId)
    ensures var outcome := DeleteClient(c, id);
      && outcome.stranded.Untouched?
      && (if id !in c.clients then outcome.error == Some(NotFound) && outcome.catalog == c
          else
            var link := c.clients[id].bundleId;
            && outcome.error.None? && outcome.catalog.clients.Keys == c.clients.Keys - {id}
            && outcome.catalog.bundles == (if link.Some? then c.bundles - {link.value} else c.bundles)
            && (other in c.clients && other != id ==>
                  outcome.catalog.clients[other] ==
                    if link.Some? && c.clients[other].bundleId == link then c.clients[other].(bundleId := None) else c.clients[other]))
  {
  }

  /** A bundle is created exactly for an inert slug that no bundle has. */
  lemma CreatesBundleExactly(c: Catalog, slug: string, newBundle: BundleId)
    ensures CreateBundle(c, slug, newBundle) ==
      if !Inert(slug) then Outcome(c, Some(BadRequest), Untouched)
      else if exists b :: BundleHas(c, b, slug) then Outcome(c, Some(Conflict), Untouched)
      else Outcome(c.(bundles := c.bundles[newBundle := Bundle(slug, 0)]), None, Untouched)
  {
    InertIsValid(slug);
    if HasSlug(c.bundles, slug) { assert BundleHas(c, BundleAt(c.bundles, slug), slug); }
  }

  /** Deleting a bundle clears the links to it and nothing else. */
  lemma DeletesBundleExactly(c: Catalog, bundle: BundleId, client: ClientId)
    ensures var outcome := DeleteBundle(c, bundle);
      if bundle !in c.bundles then outcome == Outcome(c, Some(NotFound), Untouched)
      else
        && outcome.error.None? && outcome.catalog.bundles == c.bundles - {bundle} && outcome.stranded.Untouched?
        && outcome.catalog.clients.Keys == c.clients.Keys
        && (client in c.clients ==>
              outcome.catalog.clients[client] ==
                if c.clients[client].bundleId == Some(bundle) then c.clients[client].(bundleId := None) else c.clients[client])
  {
  }
}
