/** The catalog handlers as they run: each a transaction of statements over the client and
    bundle rows, rolled back on an error. */
module CatalogStores {
  import opened Texts
  import opened Wrappers
  import opened CatalogLinks
  import opened CatalogLinkRuns

  class CatalogStore {
    var clients: map<ClientId, Client>
    var bundles: map<BundleId, Bundle>

    ghost function Rows(): (c: Catalog)
      reads this
    {
      Catalog(clients, bundles)
    }

    ghost predicate Valid()
      reads this
    {
      LinksOk(Rows())
    }

    constructor ()
      ensures Valid() && Rows() == Catalog(map[], map[])
    {
      clients, bundles := map[], map[];
    }

    method FindBundle(slug: string) returns (found: Option<BundleId>)
      ensures found.Some? ==> found.value in bundles && bundles[found.value].slug == slug
      ensures found.None? ==> !HasSlug(bundles, slug)
    {
      var ids := bundles.Keys;
      while ids != {}
        invariant ids <= bundles.Keys
        invariant forall b :: b in bundles && bundles[b].slug == slug ==> b in ids
        decreases |ids|
      {
        NonemptyHasMember(ids);
        var id :| id in ids;
        if bundles[id].slug == slug { return Some(id); }
        ids := ids - {id};
      }
      return None;
    }

    method IsSlugTaken(id: ClientId, slug: string) returns (taken: bool)
      ensures taken == SlugTaken(clients, id, slug)
    {
      taken := exists other :: other in clients && other != id && clients[other].slug == slug;
    }

    /** `link_owned_bundle`. */
    method LinkOwnedBundle(id: ClientId, slug: string, newBundle: BundleId) returns (error: Option<Error>)
      requires Valid() && id in clients && newBundle !in bundles
      modifies this
      ensures error.Some? ==> error == Some(BadRequest) && Rows() == old(Rows())
      ensures error.None? ==> Linked(old(Rows()), id, slug, newBundle) == Some(Rows())
      ensures error.Some? <==> Linked(old(Rows()), id, slug, newBundle).None?
    {
      var found := FindBundle(slug);
      var bundle := newBundle;
      if found.Some? {
        bundle := found.value;
        assert BundleAt(bundles, slug) == bundle;
      } else {
        if !ValidSlug(slug) { return Some(BadRequest); }
        bundles := bundles[newBundle := Bundle(slug, 0)];
      }
      clients := clients[id := clients[id].(bundleId := Some(bundle), bundleSlug := Some(slug))];
      return None;
    }

    method Create(body: Body, id: ClientId, newBundle: BundleId) returns (error: Option<Error>)
      requires Valid() && id !in clients && newBundle !in bundles
      modifies this
      ensures Valid() && Outcome(Rows(), error, Untouched) == CreateClient(old(Rows()), body, id, newBundle)
    {
      CreateKeepsLinks(Rows(), body, id, newBundle);
      var taken := IsSlugTaken(id, body.slug);
      if taken { return Some(Conflict); }
      var before := clients;
      clients := clients[id := Client(body.slug, None, None)];
      var requested := Requested(body.bundleSlug);
      var slug := if requested.Some? then requested.value else Trim(body.slug);
      assert Valid() by { InsertedOk(old(Rows()), id, body.slug); }
      error := LinkOwnedBundle(id, slug, newBundle);
      if error.Some? { clients := before; }
    }

    /** `strand_old_bundle`. */
    method StrandOldBundle(previous: BundleId, deleteOrphaned: bool) returns (stranded: Stranded)
      requires Valid()
      modifies this
      ensures (Rows(), stranded) == Strand(old(Rows()), previous, deleteOrphaned)
    {
      var referenced := exists id :: id in clients && References(clients[id], previous);
      if referenced || previous !in bundles { return Untouched; }
      var slug := bundles[previous].slug;
      if deleteOrphaned || bundles[previous].artifacts == 0 {
        DeleteBundleRow(previous);
        return Deleted(slug);
      }
      return Kept(slug);
    }

    /** The foreign key clears the references to the row that goes. */
    method DeleteBundleRow(bundle: BundleId)
      modifies this
      ensures Rows() == WithoutBundle(old(Rows()), bundle)
    {
      bundles := bundles - {bundle};
      clients := map id | id in clients ::
        if References(clients[id], bundle) then clients[id].(bundleId := None) else clients[id];
    }

    method Update(id: ClientId, body: Body, newBundle: BundleId) returns (error: Option<Error>, stranded: Stranded)
      requires Valid() && newBundle !in bundles
      modifies this
      ensures Valid() && Outcome(Rows(), error, stranded) == UpdateClient(old(Rows()), id, body, newBundle)
    {
      UpdateKeepsLinks(Rows(), id, body, newBundle);
      stranded := Untouched;
      if id !in clients { return Some(NotFound), Untouched; }
      var current := clients[id].bundleId;
      var taken := IsSlugTaken(id, body.slug);
      if taken { return Some(Conflict), Untouched; }
      var before := clients;
      clients := clients[id := clients[id].(slug := body.slug)];
      assert Rows() == Renamed(old(Rows()), id, body);
      RenamedOk(old(Rows()), id, body);
      var requested := Requested(body.bundleSlug);
      var slug := if requested.Some? then requested.value
                  else if body.bundleSlug.Absent? && current.Some? && current.value in bundles then bundles[current.value].slug
                  else Trim(body.slug);
      assert slug == OwnedSlug(old(Rows()), body, current);
      ghost var renamed := Rows();
      error := LinkOwnedBundle(id, slug, newBundle);
      if error.Some? {
        clients := before;
        return;
      }
      assert Valid() by { LinkedOk(renamed, id, slug, newBundle); }
      if current.Some? && current != clients[id].bundleId {
        stranded := StrandOldBundle(current.value, body.deleteOrphaned);
      }
    }

    method Delete(id: ClientId) returns (error: Option<Error>)
      requires Valid()
      modifies this
      ensures Valid() && Outcome(Rows(), error, Untouched) == DeleteClient(old(Rows()), id)
    {
      DeleteKeepsLinks(Rows(), id);
      if id !in clients { return Some(NotFound); }
      var bundle := clients[id].bundleId;
      clients := clients - {id};
      if bundle.Some? { DeleteBundleRow(bundle.value); }
      return None;
    }
  }

  lemma NonemptyHasMember(ids: set<BundleId>)
    requires ids != {}
    ensures exists id :: id in ids
  {
    assert (forall id :: id !in ids) ==> ids == {};
  }
}
