/** Catalog clients and the bundle each one owns: what creating, updating and deleting make of
    the two tables. */
module CatalogLinks {
  import opened Texts
  import opened Wrappers

  type ClientId = int
  type BundleId = int

  datatype Client = Client(slug: string, bundleId: Option<BundleId>, bundleSlug: Option<string>)

  datatype Bundle = Bundle(slug: string, artifacts: nat)

  datatype Catalog = Catalog(clients: map<ClientId, Client>, bundles: map<BundleId, Bundle>)

  datatype Error = NotFound | BadRequest | Conflict

  /** The `bundleSlug` of a request: not there, null, or a text. */
  datatype SlugField = Absent | Null | Given(text: string)

  datatype Body = Body(slug: string, bundleSlug: SlugField, deleteOrphaned: bool)

  /** What became of the bundle an update moved away from. */
  datatype Stranded = Deleted(slug: string) | Kept(slug: string) | Untouched

  datatype Outcome = Outcome(catalog: Catalog, error: Option<Error>, stranded: Stranded)

  // ----- Slugs -----

  /** `validate_slug`: one inert path segment. */
  predicate ValidSlug(slug: string) {
    slug != "" && slug != "." && slug != ".." && '/' !in slug && '\\' !in slug && '\0' !in slug
  }

  /** `requested_bundle_slug`: an absent, null or blank field asks for nothing. */
  function Requested(field: SlugField): Option<string> {
    if field.Given? && Trim(field.text) != "" then Some(Trim(field.text)) else None
  }

  predicate HasSlug(bundles: map<BundleId, Bundle>, slug: string) {
    exists id :: id in bundles && bundles[id].slug == slug
  }

  /** The bundle at a slug; the unique index allows one. */
  ghost function BundleAt(bundles: map<BundleId, Bundle>, slug: string): BundleId
    requires HasSlug(bundles, slug)
  {
    var id :| id in bundles && bundles[id].slug == slug;
    id
  }

  /** The unique index on client slugs refuses the row. */
  predicate SlugTaken(clients: map<ClientId, Client>, id: ClientId, slug: string) {
    exists other :: other in clients && other != id && clients[other].slug == slug
  }

  predicate References(client: Client, bundle: BundleId) { client.bundleId == Some(bundle) }

  // ----- Linking -----

  /** `link_owned_bundle`: find or provision the bundle at the slug, and point the client at
      it; `None` when the slug cannot be provisioned. */
  ghost function Linked(c: Catalog, id: ClientId, slug: string, newBundle: BundleId): Option<Catalog>
    requires id in c.clients
  {
    if HasSlug(c.bundles, slug) then Some(Pointed(c, id, BundleAt(c.bundles, slug), slug))
    else if ValidSlug(slug) then Some(Pointed(c.(bundles := c.bundles[newBundle := Bundle(slug, 0)]), id, newBundle, slug))
    else None
  }

  function Pointed(c: Catalog, id: ClientId, bundle: BundleId, slug: string): Catalog
    requires id in c.clients
  {
    c.(clients := c.clients[id := c.clients[id].(bundleId := Some(bundle), bundleSlug := Some(slug))])
  }

  ghost function CreateClient(c: Catalog, body: Body, id: ClientId, newBundle: BundleId): Outcome {
    if SlugTaken(c.clients, id, body.slug) then Outcome(c, Some(Conflict), Untouched)
    else
      var inserted := c.(clients := c.clients[id := Client(body.slug, None, None)]);
      var slug := if Requested(body.bundleSlug).Some? then Requested(body.bundleSlug).value else Trim(body.slug);
      match Linked(inserted, id, slug, newBundle)
      case None => Outcome(c, Some(BadRequest), Untouched)
      case Some(linked) => Outcome(linked, None, Untouched)
  }

  /** `resolve_owned_bundle_slug`. */
  function OwnedSlug(c: Catalog, body: Body, current: Option<BundleId>): string {
    if Requested(body.bundleSlug).Some? then Requested(body.bundleSlug).value
    else if !body.bundleSlug.Absent? then Trim(body.slug)
    else if current.Some? && current.value in c.bundles then c.bundles[current.value].slug
    else Trim(body.slug)
  }

  /** `strand_old_bundle`. */
  function Strand(c: Catalog, previous: BundleId, deleteOrphaned: bool): (Catalog, Stranded) {
    if (exists id :: id in c.clients && References(c.clients[id], previous)) || previous !in c.bundles then (c, Untouched)
    else if deleteOrphaned || c.bundles[previous].artifacts == 0 then (WithoutBundle(c, previous), Deleted(c.bundles[previous].slug))
    else (c, Kept(c.bundles[previous].slug))
  }

  /** Deleting a bundle row sets the references to it to null. */
  function WithoutBundle(c: Catalog, bundle: BundleId): Catalog {
    Catalog(map id | id in c.clients :: if References(c.clients[id], bundle) then c.clients[id].(bundleId := None) else c.clients[id],
            c.bundles - {bundle})
  }

  ghost function UpdateClient(c: Catalog, id: ClientId, body: Body, newBundle: BundleId): Outcome {
    if id !in c.clients then Outcome(c, Some(NotFound), Untouched)
    else if SlugTaken(c.clients, id, body.slug) then Outcome(c, Some(Conflict), Untouched)
    else
      var current := c.clients[id].bundleId;
      var renamed := c.(clients := c.clients[id := c.clients[id].(slug := body.slug)]);
      match Linked(renamed, id, OwnedSlug(c, body, current), newBundle)
      case None => Outcome(c, Some(BadRequest), Untouched)
      case Some(linked) =>
        if current.Some? && current != linked.clients[id].bundleId then
          var (after, stranded) := Strand(linked, current.value, body.deleteOrphaned);
          Outcome(after, None, stranded)
        else Outcome(linked, None, Untouched)
  }

  function DeleteClient(c: Catalog, id: ClientId): Outcome {
    if id !in c.clients then Outcome(c, Some(NotFound), Untouched)
    else
      var rest := c.(clients := c.clients - {id});
      match c.clients[id].bundleId
      case None => Outcome(rest, None, Untouched)
      case Some(bundle) => Outcome(WithoutBundle(rest, bundle), None, Untouched)
  }

  function CreateBundle(c: Catalog, slug: string, newBundle: BundleId): Outcome {
    if !ValidSlug(slug) then Outcome(c, Some(BadRequest), Untouched)
    else if HasSlug(c.bundles, slug) then Outcome(c, Some(Conflict), Untouched)
    else Outcome(c.(bundles := c.bundles[newBundle := Bundle(slug, 0)]), None, Untouched)
  }

  function DeleteBundle(c: Catalog, bundle: BundleId): Outcome {
    if bundle !in c.bundles then Outcome(c, Some(NotFound), Untouched)
    else Outcome(WithoutBundle(c, bundle), None, Untouched)
  }
}
