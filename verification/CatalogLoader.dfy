/** The catalog's relation loader: one read per relation for a whole list of clients, grouped in
    memory and consumed client by client, against what one client alone would get. */
module CatalogLoader {
  import opened Wrappers

  const DEFAULT_LOCALE: string := "en"

  type Id = int

  datatype LocaleText = LocaleText(title: string, description: Option<string>, shortDescription: Option<string>)

  datatype Media = Media(url: string, width: Option<int>, height: Option<int>)

  datatype MediaRow = MediaRow(role: string, media: Media)

  datatype Server = Server(id: Id, name: Option<string>, address: string)

  datatype Keyword = Keyword(id: Id, title: string)

  datatype BundleRow = BundleRow(slug: string, version: Option<string>, status: string, filesCount: int)

  datatype BundleSummary = BundleSummary(slug: string, version: Option<string>, status: string, filesCount: int, manifestUrl: string)

  datatype ClientRow = ClientRow(
    id: Id, slug: string, available: bool, minecraft: Option<string>, forge: Option<string>,
    fabric: Option<string>, runtime: Option<string>, bundleId: Option<Id>)

  /** A row of a relation, with the key it is grouped by. */
  datatype Keyed<T> = Keyed(key: Id, value: T)

  /** The tables the loader reads, each in the order its query returns; keyword and server
      links are those of published rows. */
  datatype Tables = Tables(
    locales: seq<Keyed<(string, LocaleText)>>, media: seq<Keyed<MediaRow>>, keywords: seq<Keyed<Id>>,
    keywordLocales: seq<Keyed<(string, string)>>, servers: seq<Keyed<Server>>, bundles: map<Id, BundleRow>)

  datatype ClientDto = ClientDto(
    id: Id, slug: string, title: string, description: string, shortDescription: string, available: bool,
    minecraft: Option<string>, forge: Option<string>, fabric: Option<string>, runtime: Option<string>,
    bundleSlug: Option<string>, background: Option<Media>, poster: Option<Media>, titleImage: Option<Media>,
    screenshots: seq<Media>, keywords: seq<Keyword>, servers: seq<Server>, bundle: Option<BundleSummary>)

  // ----- What one client gets -----

  /** The values with this key, in order. */
  function Of<T>(rows: seq<Keyed<T>>, key: Id): seq<T> {
    if rows == [] then []
    else
      var n := |rows| - 1;
      Of(rows[..n], key) + (if rows[n].key == key then [rows[n].value] else [])
  }

  /** The first row in this locale. */
  function FirstIn<T>(rows: seq<(string, T)>, locale: string): Option<T> {
    if rows == [] then None else if rows[0].0 == locale then Some(rows[0].1) else FirstIn(rows[1..], locale)
  }

  /** The requested locale, else the default one, else whatever comes first. */
  function Picked<T>(rows: seq<(string, T)>, requested: string): Option<T> {
    if FirstIn(rows, requested).Some? then FirstIn(rows, requested)
    else if FirstIn(rows, DEFAULT_LOCALE).Some? then FirstIn(rows, DEFAULT_LOCALE)
    else if rows != [] then Some(rows[0].1)
    else None
  }

  function OrEmpty(text: Option<string>): string { if text.Some? then text.value else "" }

  function TitleOf(t: Tables, keyword: Id, requested: string): string {
    OrEmpty(Picked(Of(t.keywordLocales, keyword), requested))
  }

  function Titled(t: Tables, ids: seq<Id>, requested: string): seq<Keyword> {
    seq(|ids|, i requires 0 <= i < |ids| => Keyword(ids[i], TitleOf(t, ids[i], requested)))
  }

  function WithRole(rows: seq<MediaRow>, role: string): seq<Media> {
    if rows == [] then []
    else
      var n := |rows| - 1;
      WithRole(rows[..n], role) + (if rows[n].role == role then [rows[n].media] else [])
  }

  function FirstOf<T>(values: seq<T>): Option<T> { if values == [] then None else Some(values[0]) }

  function Summary(b: BundleRow): BundleSummary {
    BundleSummary(b.slug, b.version, b.status, b.filesCount, "/api/bundle-registry/builds/" + b.slug + "/manifest")
  }

  function BundleOf(t: Tables, row: ClientRow): Option<BundleSummary> {
    if row.bundleId.Some? && row.bundleId.value in t.bundles then Some(Summary(t.bundles[row.bundleId.value])) else None
  }

  /** A DTO put together from the client's row and its share of each relation. */
  function Assembled(row: ClientRow, text: Option<LocaleText>, media: seq<MediaRow>, keywords: seq<Keyword>,
                     servers: seq<Server>, bundle: Option<BundleSummary>): ClientDto
  {
    ClientDto(
      row.id, row.slug,
      if text.Some? then text.value.title else "",
      if text.Some? then OrEmpty(text.value.description) else "",
      if text.Some? then OrEmpty(text.value.shortDescription) else "",
      row.available, row.minecraft, row.forge, row.fabric, row.runtime,
      if bundle.Some? then Some(bundle.value.slug) else None,
      FirstOf(WithRole(media, "background")), FirstOf(WithRole(media, "poster")), FirstOf(WithRole(media, "titleImage")),
      WithRole(media, "screenshot"), keywords, servers, bundle)
  }

  /** The DTO of one client, straight from the tables. */
  function DtoOf(t: Tables, row: ClientRow, locale: string): ClientDto {
    Assembled(row, Picked(Of(t.locales, row.id), locale), Of(t.media, row.id),
              Titled(t, Of(t.keywords, row.id), locale), Of(t.servers, row.id), BundleOf(t, row))
  }

  // ----- Grouping -----

  /** `WHERE key = ANY(keys)`. */
  function Where<T>(rows: seq<Keyed<T>>, keys: set<Id>): seq<Keyed<T>> {
    if rows == [] then []
    else
      var n := |rows| - 1;
      Where(rows[..n], keys) + (if rows[n].key in keys then [rows[n]] else [])
  }

  function Grouped<T>(groups: map<Id, seq<T>>, key: Id): seq<T> { if key in groups then groups[key] else [] }

  lemma {:induction false} OfWhere<T>(rows: seq<Keyed<T>>, keys: set<Id>, key: Id)
    ensures Of(Where(rows, keys), key) == if key in keys then Of(rows, key) else []
    decreases |rows|
  {
    if rows != [] {
      var n := |rows| - 1;
      OfWhere(rows[..n], keys, key);
      var before := Where(rows[..n], keys);
      if rows[n].key in keys { assert (before + [rows[n]])[..|before|] == before; } else { assert before + [] == before; }
    }
  }

  /** Rows pushed one by one into the group of their key. */
  method GroupByKey<T>(rows: seq<Keyed<T>>) returns (groups: map<Id, seq<T>>)
    ensures forall key :: Grouped(groups, key) == Of(rows, key)
  {
    groups := map[];
    for i := 0 to |rows|
      invariant forall key :: Grouped(groups, key) == Of(rows[..i], key)
    {
      assert rows[..i + 1][..i] == rows[..i];
      groups := groups[rows[i].key := Grouped(groups, rows[i].key) + [rows[i].value]];
    }
    assert rows[..|rows|] == rows;
  }

  method FindIn<T>(rows: seq<(string, T)>, locale: string) returns (found: Option<T>)
    ensures found == FirstIn(rows, locale)
  {
    for i := 0 to |rows|
      invariant FirstIn(rows, locale) == FirstIn(rows[i..], locale)
    {
      if rows[i].0 == locale { return Some(rows[i].1); }
      assert rows[i..][1..] == rows[i + 1..];
    }
    return None;
  }

  method PickLocale<T>(rows: seq<(string, T)>, requested: string) returns (picked: Option<T>)
    ensures picked == Picked(rows, requested)
  {
    picked := FindIn(rows, requested);
    if picked.None? { picked := FindIn(rows, DEFAULT_LOCALE); }
    if picked.None? && rows != [] { picked := Some(rows[0].1); }
  }

  method LoadKeywordTitles(t: Tables, ids: seq<Id>, requested: string) returns (titles: map<Id, string>)
    ensures forall id :: id in ids ==> id in titles
    ensures forall id :: id in titles ==> id in ids && titles[id] == TitleOf(t, id, requested)
  {
    titles := map[];
    var distinct := set id | id in ids;
    var grouped := GroupByKey(Where(t.keywordLocales, distinct));
    for i := 0 to |ids|
      invariant forall k :: 0 <= k < i ==> ids[k] in titles
      invariant forall id :: id in titles ==> id in ids && titles[id] == TitleOf(t, id, requested)
    {
      assert Grouped(grouped, ids[i]) == Of(t.keywordLocales, ids[i]) by { OfWhere(t.keywordLocales, distinct, ids[i]); }
      var picked := PickLocale(Grouped(grouped, ids[i]), requested);
      titles := titles[ids[i] := OrEmpty(picked)];
    }
  }

  /** The summary that the links give a client. */
  function Resolved(t: Tables, links: seq<Keyed<Id>>, client: Id): Option<BundleSummary> {
    if links == [] then None
    else
      var last := links[|links| - 1];
      if last.key == client && last.value in t.bundles then Some(Summary(t.bundles[last.value]))
      else Resolved(t, links[..|links| - 1], client)
  }

  function At<T>(entries: map<Id, T>, key: Id): Option<T> { if key in entries then Some(entries[key]) else None }

  method LoadBundles(t: Tables, links: seq<Keyed<Id>>) returns (bundles: map<Id, BundleSummary>)
    ensures forall c :: At(bundles, c) == Resolved(t, links, c)
  {
    bundles := map[];
    for i := 0 to |links|
      invariant forall c :: At(bundles, c) == Resolved(t, links[..i], c)
    {
      assert links[..i + 1][..i] == links[..i];
      if links[i].value in t.bundles { bundles := bundles[links[i].key := Summary(t.bundles[links[i].value])]; }
    }
    assert links[..|links|] == links;
  }

  method AssembleMedia(rows: seq<MediaRow>)
    returns (background: Option<Media>, poster: Option<Media>, titleImage: Option<Media>, screenshots: seq<Media>)
    ensures background == FirstOf(WithRole(rows, "background")) && poster == FirstOf(WithRole(rows, "poster"))
    ensures titleImage == FirstOf(WithRole(rows, "titleImage")) && screenshots == WithRole(rows, "screenshot")
  {
    background, poster, titleImage, screenshots := None, None, None, [];
    for i := 0 to |rows|
      invariant background == FirstOf(WithRole(rows[..i], "background")) && poster == FirstOf(WithRole(rows[..i], "poster"))
      invariant titleImage == FirstOf(WithRole(rows[..i], "titleImage")) && screenshots == WithRole(rows[..i], "screenshot")
    {
      assert rows[..i + 1][..i] == rows[..i];
      var row := rows[i];
      if row.role == "background" && background.None? {
        background := Some(row.media);
      } else if row.role == "poster" && poster.None? {
        poster := Some(row.media);
      } else if row.role == "titleImage" && titleImage.None? {
        titleImage := Some(row.media);
      } else if row.role == "screenshot" {
        screenshots := screenshots + [row.media];
      }
    }
    assert rows[..|rows|] == rows;
  }

  // ----- The batch loader -----

  /** Keyword links with their titles. */
  function TitledRows(t: Tables, rows: seq<Keyed<Id>>, requested: string): seq<Keyed<Keyword>> {
    if rows == [] then []
    else
      var n := |rows| - 1;
      TitledRows(t, rows[..n], requested) + [Keyed(rows[n].key, Keyword(rows[n].value, TitleOf(t, rows[n].value, requested)))]
  }

  lemma {:induction false} OfTitledRows(t: Tables, rows: seq<Keyed<Id>>, requested: string, key: Id)
    ensures Of(TitledRows(t, rows, requested), key) == Titled(t, Of(rows, key), requested)
    decreases |rows|
  {
    if rows != [] {
      var n := |rows| - 1;
      OfTitledRows(t, rows[..n], requested, key);
      var before := TitledRows(t, rows[..n], requested);
      assert TitledRows(t, rows, requested)[..n] == before by { TitledRowsLength(t, rows[..n], requested); }
    }
  }

  lemma {:induction false} TitledRowsLength(t: Tables, rows: seq<Keyed<Id>>, requested: string)
    ensures |TitledRows(t, rows, requested)| == |rows|
    decreases |rows|
  {
    if rows != [] { TitledRowsLength(t, rows[..|rows| - 1], requested); }
  }

  function IdsOf(rows: seq<ClientRow>): set<Id> { set i | 0 <= i < |rows| :: rows[i].id }

  /** Primary keys: no two rows are of one client. */
  ghost predicate DistinctClients(rows: seq<ClientRow>) {
    forall i, j :: 0 <= i < j < |rows| ==> rows[i].id != rows[j].id
  }

  /** The clients that have a bundle, with it. */
  function BundleLinks(rows: seq<ClientRow>): seq<Keyed<Id>> {
    if rows == [] then []
    else
      var n := |rows| - 1;
      BundleLinks(rows[..n]) + (if rows[n].bundleId.Some? then [Keyed(rows[n].id, rows[n].bundleId.value)] else [])
  }

  lemma {:induction false} NoLinkNoBundle(t: Tables, rows: seq<ClientRow>, client: Id)
    requires forall i :: 0 <= i < |rows| ==> rows[i].id != client
    ensures Resolved(t, BundleLinks(rows), client) == None
    decreases |rows|
  {
    if rows != [] {
      var n := |rows| - 1;
      NoLinkNoBundle(t, rows[..n], client);
      var links := BundleLinks(rows);
      if rows[n].bundleId.Some? { assert links[..|links| - 1] == BundleLinks(rows[..n]); } else { assert links == BundleLinks(rows[..n]); }
    }
  }

  lemma {:induction false} LinkedBundle(t: Tables, rows: seq<ClientRow>, i: nat)
    requires DistinctClients(rows) && i < |rows|
    ensures Resolved(t, BundleLinks(rows), rows[i].id) == BundleOf(t, rows[i])
    decreases |rows|
  {
    var n := |rows| - 1;
    var links := BundleLinks(rows);
    if rows[n].bundleId.Some? { assert links[..|links| - 1] == BundleLinks(rows[..n]); } else { assert links == BundleLinks(rows[..n]); }
    if i < n { LinkedBundle(t, rows[..n], i); } else { NoLinkNoBundle(t, rows[..n], rows[n].id); }
  }

  datatype Preloaded = Preloaded(
    locales: map<Id, seq<(string, LocaleText)>>, media: map<Id, seq<MediaRow>>, keywords: map<Id, seq<Keyword>>,
    servers: map<Id, seq<Server>>, bundles: map<Id, BundleSummary>)

  /** Everything of this client is there, as the tables have it. */
  ghost predicate Serves(loaded: Preloaded, t: Tables, row: ClientRow, locale: string) {
    && Grouped(loaded.locales, row.id) == Of(t.locales, row.id)
    && Grouped(loaded.media, row.id) == Of(t.media, row.id)
    && Grouped(loaded.keywords, row.id) == Titled(t, Of(t.keywords, row.id), locale)
    && Grouped(loaded.servers, row.id) == Of(t.servers, row.id)
    && At(loaded.bundles, row.id) == BundleOf(t, row)
  }

  /** What is left once a client's share has been handed out. */
  ghost function Without(loaded: Preloaded, id: Id): Preloaded {
    Preloaded(loaded.locales - {id}, loaded.media - {id}, loaded.keywords - {id}, loaded.servers - {id}, loaded.bundles - {id})
  }

  lemma OthersServed(loaded: Preloaded, t: Tables, row: ClientRow, locale: string, id: Id)
    requires Serves(loaded, t, row, locale) && row.id != id
    ensures Serves(Without(loaded, id), t, row, locale)
  {
  }

  /** `ClientRelations`: what was preloaded, less what has been handed out. */
  class Relations {
    var locales: map<Id, seq<(string, LocaleText)>>
    var media: map<Id, seq<MediaRow>>
    var keywords: map<Id, seq<Keyword>>
    var servers: map<Id, seq<Server>>
    var bundles: map<Id, BundleSummary>

    ghost function Contents(): Preloaded
      reads this
    {
      Preloaded(locales, media, keywords, servers, bundles)
    }

    constructor Empty()
      ensures locales == map[] && media == map[] && keywords == map[] && servers == map[] && bundles == map[]
    {
      locales, media, keywords, servers, bundles := map[], map[], map[], map[], map[];
    }

    /** `load_client_relations`: one read per relation for the whole list. */
    method Load(t: Tables, rows: seq<ClientRow>, locale: string)
      requires DistinctClients(rows)
      modifies this
      ensures forall i :: 0 <= i < |rows| ==> Serves(Contents(), t, rows[i], locale)
    {
      var ids := IdsOf(rows);
      locales := GroupByKey(Where(t.locales, ids));
      media := GroupByKey(Where(t.media, ids));
      keywords := LoadKeywords(t, Where(t.keywords, ids), locale);
      servers := GroupByKey(Where(t.servers, ids));
      bundles := LoadBundles(t, BundleLinks(rows));
      forall i | 0 <= i < |rows| ensures Serves(Contents(), t, rows[i], locale) {
        AllOfOurs(t, rows, i);
        LinkedBundle(t, rows, i);
      }
    }

    /** `assemble_client_dto`: takes the client's share out of the relations. */
    method Assemble(ghost t: Tables, row: ClientRow, locale: string) returns (dto: ClientDto)
      requires Serves(Contents(), t, row, locale)
      modifies this
      ensures dto == DtoOf(t, row, locale) && Contents() == Without(old(Contents()), row.id)
    {
      var text := PickLocale(Grouped(locales, row.id), locale);
      locales := locales - {row.id};
      var background, poster, titleImage, screenshots := AssembleMedia(Grouped(media, row.id));
      media := media - {row.id};
      var theirKeywords := Grouped(keywords, row.id);
      keywords := keywords - {row.id};
      var theirServers := Grouped(servers, row.id);
      servers := servers - {row.id};
      var bundle := At(bundles, row.id);
      bundles := bundles - {row.id};
      dto := ClientDto(
        row.id, row.slug,
        if text.Some? then text.value.title else "",
        if text.Some? then OrEmpty(text.value.description) else "",
        if text.Some? then OrEmpty(text.value.shortDescription) else "",
        row.available, row.minecraft, row.forge, row.fabric, row.runtime,
        if bundle.Some? then Some(bundle.value.slug) else None,
        background, poster, titleImage, screenshots, theirKeywords, theirServers, bundle);
    }
  }

  lemma AllOfOurs(t: Tables, rows: seq<ClientRow>, i: nat)
    requires i < |rows|
    ensures var ids, id := IdsOf(rows), rows[i].id;
      && Of(Where(t.locales, ids), id) == Of(t.locales, id) && Of(Where(t.media, ids), id) == Of(t.media, id)
      && Of(Where(t.keywords, ids), id) == Of(t.keywords, id) && Of(Where(t.servers, ids), id) == Of(t.servers, id)
  {
    var ids, id := IdsOf(rows), rows[i].id;
    assert id in ids;
    OfWhere(t.locales, ids, id);
    OfWhere(t.media, ids, id);
    OfWhere(t.keywords, ids, id);
    OfWhere(t.servers, ids, id);
  }

  method LoadKeywords(t: Tables, links: seq<Keyed<Id>>, locale: string) returns (keywords: map<Id, seq<Keyword>>)
    ensures forall key :: Grouped(keywords, key) == Titled(t, Of(links, key), locale)
  {
    var ids := seq(|links|, i requires 0 <= i < |links| => links[i].value);
    var titles := LoadKeywordTitles(t, ids, locale);
    var titled: seq<Keyed<Keyword>> := [];
    for i := 0 to |links|
      invariant titled == TitledRows(t, links[..i], locale)
    {
      assert ids[i] in titles && ids[i] == links[i].value && links[..i + 1][..i] == links[..i];
      titled := titled + [Keyed(links[i].key, Keyword(links[i].value, titles[links[i].value]))];
    }
    assert links[..|links|] == links;
    keywords := GroupByKey(titled);
    forall key ensures Grouped(keywords, key) == Titled(t, Of(links, key), locale) { OfTitledRows(t, links, locale, key); }
  }

  /** `list_clients`: each client of the list gets what it would get alone. */
  method ListClients(t: Tables, rows: seq<ClientRow>, locale: string) returns (dtos: seq<ClientDto>)
    requires DistinctClients(rows)
    ensures |dtos| == |rows| && forall i :: 0 <= i < |rows| ==> dtos[i] == DtoOf(t, rows[i], locale)
  {
    var relations := new Relations.Empty();
    if rows != [] { relations.Load(t, rows, locale); }
    dtos := [];
    for i := 0 to |rows|
      invariant |dtos| == i && forall k :: 0 <= k < i ==> dtos[k] == DtoOf(t, rows[k], locale)
      invariant forall k :: i <= k < |rows| ==> Serves(relations.Contents(), t, rows[k], locale)
    {
      ghost var loaded := relations.Contents();
      forall k | i < k < |rows| ensures Serves(Without(loaded, rows[i].id), t, rows[k], locale) {
        OthersServed(loaded, t, rows[k], locale, rows[i].id);
      }
      var dto := relations.Assemble(t, rows[i], locale);
      dtos := dtos + [dto];
    }
  }

  /** `load_client`: the same loader, over a list of one. */
  method LoadClient(t: Tables, row: ClientRow, locale: string) returns (dto: ClientDto)
    ensures dto == DtoOf(t, row, locale)
  {
    var relations := new Relations.Empty();
    relations.Load(t, [row], locale);
    assert Serves(relations.Contents(), t, [row][0], locale);
    dto := relations.Assemble(t, row, locale);
  }

  // ----- What the fallback means -----

  /** The `k`-th row is the first in this locale. */
  ghost predicate IsFirst<T>(rows: seq<(string, T)>, locale: string, k: nat) {
    k < |rows| && rows[k].0 == locale && forall j :: 0 <= j < k ==> rows[j].0 != locale
  }

  lemma {:induction false} FirstInIs<T>(rows: seq<(string, T)>, locale: string, k: nat)
    requires IsFirst(rows, locale, k)
    ensures FirstIn(rows, locale) == Some(rows[k].1)
    decreases |rows|
  {
    if k > 0 {
      assert rows[0].0 != locale;
      assert IsFirst(rows[1..], locale, k - 1);
      FirstInIs(rows[1..], locale, k - 1);
    }
  }

  lemma {:induction false} NoneIn<T>(rows: seq<(string, T)>, locale: string)
    requires forall k :: 0 <= k < |rows| ==> rows[k].0 != locale
    ensures FirstIn(rows, locale) == None
  {
    if rows != [] { NoneIn(rows[1..], locale); }
  }

  /** The fallback, by position: the first row of the requested locale; with none, the first of
      the default locale; with none, the first row. */
  lemma PickedIs<T>(rows: seq<(string, T)>, requested: string, k: nat)
    requires IsFirst(rows, requested, k)
      || ((forall j :: 0 <= j < |rows| ==> rows[j].0 != requested) && IsFirst(rows, DEFAULT_LOCALE, k))
      || ((forall j :: 0 <= j < |rows| ==> rows[j].0 != requested && rows[j].0 != DEFAULT_LOCALE) && k == 0 < |rows|)
    ensures Picked(rows, requested) == Some(rows[k].1)
  {
    if IsFirst(rows, requested, k) {
      FirstInIs(rows, requested, k);
    } else {
      NoneIn(rows, requested);
      if IsFirst(rows, DEFAULT_LOCALE, k) { FirstInIs(rows, DEFAULT_LOCALE, k); } else { NoneIn(rows, DEFAULT_LOCALE); }
    }
  }
}
