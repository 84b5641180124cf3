/** What a catalog DTO holds, stated by position in the tables' rows. */
module LoaderLaws {
  import opened Wrappers
  import opened CatalogLoader

  /** `got` are the values of the rows `at`, which are all the rows with this key, in order. */
  ghost predicate ListsAt<T>(rows: seq<Keyed<T>>, key: Id, got: seq<T>, at: seq<nat>) {
    && |at| == |got|
    && (forall i, j :: 0 <= i < j < |at| ==> at[i] < at[j])
    && (forall i :: 0 <= i < |at| ==> at[i] < |rows| && rows[at[i]].key == key && rows[at[i]].value == got[i])
    && (forall k :: 0 <= k < |rows| && rows[k].key == key ==> k in at)
  }

  ghost predicate Lists<T>(rows: seq<Keyed<T>>, key: Id, got: seq<T>) {
    exists at :: ListsAt(rows, key, got, at)
  }

  lemma {:induction false} OfLists<T>(rows: seq<Keyed<T>>, key: Id) returns (at: seq<nat>)
    ensures ListsAt(rows, key, Of(rows, key), at)
    decreases |rows|
  {
    at := [];
    if rows != [] {
      var n := |rows| - 1;
      at := OfLists(rows[..n], key);
      if rows[n].key == key { at := at + [n]; }
    }
  }

  /** The first of the client's media rows with this role. */
  ghost predicate FirstWithRole(media: seq<MediaRow>, role: string, got: Option<Media>) {
    match got
    case None => forall k :: 0 <= k < |media| ==> media[k].role != role
    case Some(m) => exists k :: 0 <= k < |media| && FirstAt(media, role, k) && media[k].media == m
  }

  ghost predicate FirstAt(media: seq<MediaRow>, role: string, k: nat) {
    k < |media| && media[k].role == role && forall j :: 0 <= j < k ==> media[j].role != role
  }

  /** `got` are media rows with this role, in order. */
  ghost predicate InOrder(media: seq<MediaRow>, role: string, got: seq<Media>, at: seq<nat>) {
    && |at| == |got|
    && (forall i, j :: 0 <= i < j < |at| ==> at[i] < at[j])
    && (forall i :: 0 <= i < |at| ==> at[i] < |media| && media[at[i]].role == role && media[at[i]].media == got[i])
  }

  ghost predicate NoneLeftOut(media: seq<MediaRow>, role: string, at: seq<nat>) {
    forall k :: 0 <= k < |media| && media[k].role == role ==> k in at
  }

  /** All of them, in order. */
  ghost predicate AllWithRole(media: seq<MediaRow>, role: string, got: seq<Media>, at: seq<nat>) {
    InOrder(media, role, got, at) && NoneLeftOut(media, role, at)
  }

  lemma InOrderNext(media: seq<MediaRow>, role: string, got: seq<Media>, at: seq<nat>, last: MediaRow)
    requires InOrder(media, role, got, at)
    ensures InOrder(media + [last], role, got, at)
    ensures last.role == role ==> InOrder(media + [last], role, got + [last.media], at + [|media|])
  {
  }

  lemma NoneLeftOutNext(media: seq<MediaRow>, role: string, at: seq<nat>, last: MediaRow)
    requires NoneLeftOut(media, role, at)
    ensures NoneLeftOut(media + [last], role, if last.role == role then at + [|media|] else at)
  {
    var all, more := media + [last], if last.role == role then at + [|media|] else at;
    forall k | 0 <= k < |all| && all[k].role == role ensures k in more {
      if k < |media| { assert media[k] == all[k]; } else { assert more[|at|] == k; }
    }
  }

  lemma {:induction false} RoleLists(media: seq<MediaRow>, role: string) returns (at: seq<nat>)
    ensures AllWithRole(media, role, WithRole(media, role), at)
    decreases |media|
  {
    at := [];
    if media != [] {
      var n := |media| - 1;
      at := RoleLists(media[..n], role);
      InOrderNext(media[..n], role, WithRole(media[..n], role), at, media[n]);
      NoneLeftOutNext(media[..n], role, at, media[n]);
      if media[n].role == role { at := at + [n]; }
      assert media[..n] + [media[n]] == media;
    }
  }

  lemma FirstRole(media: seq<MediaRow>, role: string)
    ensures FirstWithRole(media, role, FirstOf(WithRole(media, role)))
  {
    var at := RoleLists(media, role);
    if at != [] {
      forall j | 0 <= j < at[0] ensures media[j].role != role {
        assert media[j].role == role ==> j in at;
      }
      assert FirstAt(media, role, at[0]);
    }
  }

  /** Row `k` is the one the locale fallback chooses: the first of the requested locale, else the
      first in English, else the first. */
  ghost predicate Chosen<T>(rows: seq<(string, T)>, requested: string, k: nat) {
    || IsFirst(rows, requested, k)
    || ((forall j :: 0 <= j < |rows| ==> rows[j].0 != requested) && IsFirst(rows, "en", k))
    || ((forall j :: 0 <= j < |rows| ==> rows[j].0 != requested && rows[j].0 != "en") && k == 0 < |rows|)
  }

  lemma {:induction false} FirstOrNone<T>(rows: seq<(string, T)>, locale: string, n: nat) returns (k: nat)
    requires n <= |rows| && forall j :: 0 <= j < n ==> rows[j].0 != locale
    ensures IsFirst(rows, locale, k) || forall j :: 0 <= j < |rows| ==> rows[j].0 != locale
    decreases |rows| - n
  {
    if n == |rows| { k := 0; } else if rows[n].0 == locale { k := n; } else { k := FirstOrNone(rows, locale, n + 1); }
  }

  lemma PickedIsChosen<T>(rows: seq<(string, T)>, requested: string) returns (k: nat)
    requires rows != []
    ensures Chosen(rows, requested, k) && k < |rows| && Picked(rows, requested) == Some(rows[k].1)
  {
    k := FirstOrNone(rows, requested, 0);
    if !IsFirst(rows, requested, k) {
      k := FirstOrNone(rows, "en", 0);
      if !IsFirst(rows, "en", k) { k := 0; }
    }
    PickedIs(rows, requested, k);
  }

  /** The texts of the chosen row, or empty ones. */
  ghost predicate TextsOf(rows: seq<(string, LocaleText)>, requested: string, title: string, description: string, short: string) {
    if rows == [] then title == description == short == ""
    else exists k :: 0 <= k < |rows| && Chosen(rows, requested, k) && HasTexts(rows[k].1, title, description, short)
  }

  predicate HasTexts(text: LocaleText, title: string, description: string, short: string) {
    && title == text.title
    && (match text.description case Some(d) => description == d case None => description == "")
    && (match text.shortDescription case Some(d) => short == d case None => short == "")
  }

  ghost predicate TitleIs(rows: seq<(string, string)>, requested: string, title: string) {
    if rows == [] then title == "" else exists k :: 0 <= k < |rows| && Chosen(rows, requested, k) && rows[k].1 == title
  }

  /** A DTO takes its plain fields from the client's row. */
  lemma DtoKeepsTheRow(t: Tables, row: ClientRow, locale: string)
    ensures var dto := DtoOf(t, row, locale);
      && dto.id == row.id && dto.slug == row.slug && dto.available == row.available && dto.minecraft == row.minecraft
      && dto.forge == row.forge && dto.fabric == row.fabric && dto.runtime == row.runtime
  {
  }

  /** Its texts are those of the locale fallback among the client's own rows. */
  lemma DtoTexts(t: Tables, row: ClientRow, locale: string) returns (texts: seq<(string, LocaleText)>)
    ensures Lists(t.locales, row.id, texts)
    ensures var dto := DtoOf(t, row, locale); TextsOf(texts, locale, dto.title, dto.description, dto.shortDescription)
  {
    texts := Of(t.locales, row.id);
    assert Lists(t.locales, row.id, texts) by { var at := OfLists(t.locales, row.id); }
    var dto := DtoOf(t, row, locale);
    TextsAre(texts, locale, dto.title, dto.description, dto.shortDescription);
  }

  lemma TextsAre(texts: seq<(string, LocaleText)>, locale: string, title: string, description: string, short: string)
    requires match Picked(texts, locale)
      case None => title == description == short == ""
      case Some(text) => title == text.title && description == OrEmpty(text.description) && short == OrEmpty(text.shortDescription)
    ensures TextsOf(texts, locale, title, description, short)
  {
    if texts != [] {
      var k := PickedIsChosen(texts, locale);
      assert HasTexts(texts[k].1, title, description, short);
    }
  }

  /** Its pictures are the first of each role among the client's own rows, its screenshots all of
      theirs, in order. */
  lemma DtoMedia(t: Tables, row: ClientRow, locale: string) returns (media: seq<MediaRow>, at: seq<nat>)
    ensures Lists(t.media, row.id, media)
    ensures var dto := DtoOf(t, row, locale);
      && FirstWithRole(media, "background", dto.background) && FirstWithRole(media, "poster", dto.poster)
      && FirstWithRole(media, "titleImage", dto.titleImage) && AllWithRole(media, "screenshot", dto.screenshots, at)
  {
    media := Of(t.media, row.id);
    var rows := OfLists(t.media, row.id);
    FirstRole(media, "background");
    FirstRole(media, "poster");
    FirstRole(media, "titleImage");
    at := RoleLists(media, "screenshot");
  }

  /** Its keywords are the client's own, in order, each with the title of the locale fallback, and
      its servers the client's own. */
  lemma DtoLinks(t: Tables, row: ClientRow, locale: string) returns (ids: seq<Id>)
    ensures Lists(t.keywords, row.id, ids) && Lists(t.servers, row.id, DtoOf(t, row, locale).servers)
    ensures var keywords := DtoOf(t, row, locale).keywords;
      |keywords| == |ids| && forall i :: 0 <= i < |ids| ==>
        keywords[i].id == ids[i] && exists titles :: Lists(t.keywordLocales, ids[i], titles) && TitleIs(titles, locale, keywords[i].title)
  {
    ids := Of(t.keywords, row.id);
    var at := OfLists(t.keywords, row.id);
    var servers := OfLists(t.servers, row.id);
    var keywords := DtoOf(t, row, locale).keywords;
    forall i | 0 <= i < |ids|
      ensures exists titles :: Lists(t.keywordLocales, ids[i], titles) && TitleIs(titles, locale, keywords[i].title)
    {
      KeywordTitle(t, ids[i], locale);
    }
  }

  lemma KeywordTitle(t: Tables, id: Id, locale: string)
    ensures Lists(t.keywordLocales, id, Of(t.keywordLocales, id))
    ensures TitleIs(Of(t.keywordLocales, id), locale, TitleOf(t, id, locale))
  {
    var titles := Of(t.keywordLocales, id);
    var rows := OfLists(t.keywordLocales, id);
    if titles != [] { var k := PickedIsChosen(titles, locale); }
  }

  /** Its bundle is the one the row links to, if that is there, with the address of its manifest. */
  lemma DtoBundle(t: Tables, row: ClientRow, locale: string)
    ensures var dto := DtoOf(t, row, locale);
      if row.bundleId.Some? && row.bundleId.value in t.bundles then
        var b := t.bundles[row.bundleId.value];
        && dto.bundleSlug == Some(b.slug)
        && dto.bundle == Some(BundleSummary(b.slug, b.version, b.status, b.filesCount, "/api/bundle-registry/builds/" + b.slug + "/manifest"))
      else dto.bundleSlug.None? && dto.bundle.None?
  {
  }
}
