/** The normaliser from the catalog's raw record to the application's title record. */
module DataHelpers {
  import opened Optional
  import opened AnimeTypes

  /** `field ?? undefined`: both a missing and a `null` field become unset; a present value is kept. */
  function Coalesce<T>(f: Field<T>): (r: Option<T>)
    ensures r.None? <==> (f.Missing? || f.Null?)
    ensures r.Some? ==> f == Present(r.value)
  {
    match f
    case Present(v) => Some(v)
    case _ => None
  }

  /** `refs.map(ref => ref.name)`. */
  function Names(refs: seq<MalRef>): (r: seq<string>)
    ensures |r| == |refs|
    ensures forall i :: 0 <= i < |refs| ==> r[i] == refs[i].name
  {
    if refs == [] then [] else [refs[0].name] + Names(refs[1..])
  }

  /** `transformJikanToAnime`: a total, field-by-field mapping with no failure path. */
  function TransformJikanToAnime(j: JikanAnime): (a: Anime)
    ensures a.id == j.malId && a.title == j.title
    ensures a.coverImage == j.images.jpg.imageUrl && a.largeCoverImage == j.images.jpg.largeImageUrl
    ensures a.kind == j.kind && a.airingStatus == j.status
    ensures |a.genres| == |j.genres| && forall i :: 0 <= i < |j.genres| ==> a.genres[i] == j.genres[i].name
    ensures |a.studios| == |j.studios| && forall i :: 0 <= i < |j.studios| ==> a.studios[i] == j.studios[i].name
  {
    Anime(
      id := j.malId,
      title := j.title,
      englishTitle := Coalesce(j.titleEnglish),
      japaneseTitle := Coalesce(j.titleJapanese),
      coverImage := j.images.jpg.imageUrl,
      largeCoverImage := j.images.jpg.largeImageUrl,
      synopsis := Coalesce(j.synopsis),
      kind := j.kind,
      totalEpisodes := Coalesce(j.episodes),
      airingStatus := j.status,
      averageScore := Coalesce(j.score),
      popularity := Coalesce(j.popularity),
      genres := Names(j.genres),
      studios := Names(j.studios),
      year := Coalesce(j.year),
      season := Coalesce(j.season),
      duration := Coalesce(j.duration),
      rating := Coalesce(j.rating))
  }

  /**
    Unknown stays distinguishable from zero: a title's episode total (and each
    other optional field) is unset exactly when the raw field is missing or null,
    and otherwise is the raw value unchanged.
  */
  lemma TransformKeepsUnknown(j: JikanAnime)
    ensures var a := TransformJikanToAnime(j);
      && (a.totalEpisodes.None? <==> !j.episodes.Present?)
      && (j.episodes.Present? ==> a.totalEpisodes == Some(j.episodes.value))
      && (a.englishTitle.None? <==> !j.titleEnglish.Present?)
      && (j.titleEnglish.Present? ==> a.englishTitle == Some(j.titleEnglish.value))
      && (a.japaneseTitle.None? <==> !j.titleJapanese.Present?)
      && (j.titleJapanese.Present? ==> a.japaneseTitle == Some(j.titleJapanese.value))
      && (a.synopsis.None? <==> !j.synopsis.Present?)
      && (j.synopsis.Present? ==> a.synopsis == Some(j.synopsis.value))
      && (a.averageScore.None? <==> !j.score.Present?)
      && (j.score.Present? ==> a.averageScore == Some(j.score.value))
      && (a.popularity.None? <==> !j.popularity.Present?)
      && (j.popularity.Present? ==> a.popularity == Some(j.popularity.value))
      && (a.year.None? <==> !j.year.Present?)
      && (j.year.Present? ==> a.year == Some(j.year.value))
      && (a.season.None? <==> !j.season.Present?)
      && (j.season.Present? ==> a.season == Some(j.season.value))
      && (a.duration.None? <==> !j.duration.Present?)
      && (j.duration.Present? ==> a.duration == Some(j.duration.value))
      && (a.rating.None? <==> !j.rating.Present?)
      && (j.rating.Present? ==> a.rating == Some(j.rating.value))
  {
  }

  /**
    The parts of a raw record the normaliser does not read: the webp images,
    the small jpg image, `scored_by`, `rank`, `aired`, and the ids, kinds and
    urls of genre and studio references.
  */
  predicate SameUsedFields(j: JikanAnime, k: JikanAnime) {
    && j.malId == k.malId && j.title == k.title
    && j.titleEnglish == k.titleEnglish && j.titleJapanese == k.titleJapanese
    && j.images.jpg.imageUrl == k.images.jpg.imageUrl
    && j.images.jpg.largeImageUrl == k.images.jpg.largeImageUrl
    && j.synopsis == k.synopsis && j.kind == k.kind && j.episodes == k.episodes
    && j.status == k.status && j.score == k.score && j.popularity == k.popularity
    && |j.genres| == |k.genres| && (forall i :: 0 <= i < |j.genres| ==> j.genres[i].name == k.genres[i].name)
    && |j.studios| == |k.studios| && (forall i :: 0 <= i < |j.studios| ==> j.studios[i].name == k.studios[i].name)
    && j.year == k.year && j.season == k.season && j.duration == k.duration && j.rating == k.rating
  }

  /** Records that differ only in fields the normaliser does not read normalise alike. */
  lemma TransformIgnoresUnusedFields(j: JikanAnime, k: JikanAnime)
    requires SameUsedFields(j, k)
    ensures TransformJikanToAnime(j) == TransformJikanToAnime(k)
  {
    var a, b := TransformJikanToAnime(j), TransformJikanToAnime(k);
    assert a.genres == b.genres;
    assert a.studios == b.studios;
  }

  /** Unset becomes `null` again. */
  function Uncoalesce<T>(o: Option<T>): Field<T> {
    match o
    case Some(v) => Present(v)
    case None => Null
  }

  /** A reference carrying only a name. */
  function NamedRefs(names: seq<string>): (r: seq<MalRef>)
    ensures |r| == |names|
    ensures forall i :: 0 <= i < |names| ==> r[i].name == names[i]
  {
    if names == [] then [] else [MalRef(0, "", names[0], "")] + NamedRefs(names[1..])
  }

  /** A raw record that normalises to `a`: `null` for every unset field, empty text for the unread ones. */
  function Denormalize(a: Anime): JikanAnime {
    var jpg := ImageUrls(a.coverImage, "", a.largeCoverImage);
    JikanAnime(
      malId := a.id, title := a.title,
      titleEnglish := Uncoalesce(a.englishTitle), titleJapanese := Uncoalesce(a.japaneseTitle),
      images := Images(jpg, ImageUrls("", "", "")),
      synopsis := Uncoalesce(a.synopsis), kind := a.kind, episodes := Uncoalesce(a.totalEpisodes),
      status := a.airingStatus, score := Uncoalesce(a.averageScore), scoredBy := Null, rank := Null,
      popularity := Uncoalesce(a.popularity), genres := NamedRefs(a.genres), studios := NamedRefs(a.studios),
      year := Uncoalesce(a.year), season := Uncoalesce(a.season), aired := Aired(Null, Null, ""),
      rating := Uncoalesce(a.rating), duration := Uncoalesce(a.duration))
  }

  /** Every title record is the normal form of some raw record: the normaliser loses no expressible title. */
  lemma TransformDenormalize(a: Anime)
    ensures TransformJikanToAnime(Denormalize(a)) == a
  {
    var b := TransformJikanToAnime(Denormalize(a));
    assert b.genres == a.genres;
    assert b.studios == a.studios;
  }
}
