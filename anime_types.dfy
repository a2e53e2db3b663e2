/**
  The records of the catalog (Jikan) and of the user's list, and the watch
  statuses with their status options.
*/
module AnimeTypes {
  import opened Optional
  import Seqs

  /**
    A field of a raw catalog record: left out of the JSON, `null`, or present.
    The normaliser treats the first two alike.
  */
  datatype Field<+T> = Missing | Null | Present(value: T)

  datatype ImageUrls = ImageUrls(imageUrl: string, smallImageUrl: string, largeImageUrl: string)

  datatype Images = Images(jpg: ImageUrls, webp: ImageUrls)

  /** A genre or studio reference of a raw record. */
  datatype MalRef = MalRef(malId: int, kind: string, name: string, url: string)

  datatype Aired = Aired(from: Field<string>, to: Field<string>, text: string)

  /** The raw record the catalog returns for one title. */
  datatype JikanAnime = JikanAnime(
    malId: int,
    title: string,
    titleEnglish: Field<string>,
    titleJapanese: Field<string>,
    images: Images,
    synopsis: Field<string>,
    kind: string,
    episodes: Field<int>,
    status: string,
    score: Field<real>,
    scoredBy: Field<int>,
    rank: Field<int>,
    popularity: Field<int>,
    genres: seq<MalRef>,
    studios: seq<MalRef>,
    year: Field<int>,
    season: Field<string>,
    aired: Aired,
    rating: Field<string>,
    duration: Field<string>)

  /** The application's own title record; `None` is the source's `undefined`. */
  datatype Anime = Anime(
    id: int,
    title: string,
    englishTitle: Option<string>,
    japaneseTitle: Option<string>,
    coverImage: string,
    largeCoverImage: string,
    synopsis: Option<string>,
    kind: string,
    totalEpisodes: Option<int>,
    airingStatus: string,
    averageScore: Option<real>,
    popularity: Option<int>,
    genres: seq<string>,
    studios: seq<string>,
    year: Option<int>,
    season: Option<string>,
    duration: Option<string>,
    rating: Option<string>)

  /** The airing statuses the catalog reports. */
  const FinishedAiring := "Finished Airing"
  const CurrentlyAiring := "Currently Airing"
  const NotYetAired := "Not yet aired"

  datatype WatchStatus = Watching | Completed | PlanToWatch | Dropped | OnHold

  /** The string each status is stored as (the `WATCH_STATUS` table). */
  function StatusLiteral(s: WatchStatus): string {
    match s
    case Watching => "watching"
    case Completed => "completed"
    case PlanToWatch => "plan-to-watch"
    case Dropped => "dropped"
    case OnHold => "on-hold"
  }

  /** The status a stored string denotes, if any. */
  function ParseStatus(text: string): (r: Option<WatchStatus>)
    ensures r.Some? ==> StatusLiteral(r.value) == text
  {
    if text == "watching" then Some(Watching)
    else if text == "completed" then Some(Completed)
    else if text == "plan-to-watch" then Some(PlanToWatch)
    else if text == "dropped" then Some(Dropped)
    else if text == "on-hold" then Some(OnHold)
    else None
  }

  /** Every status survives being written as its literal and read back. */
  lemma ParseStatusLiteral(s: WatchStatus)
    ensures ParseStatus(StatusLiteral(s)) == Some(s)
  {
    match s
    case Watching =>
    case Completed =>
    case PlanToWatch =>
    case Dropped =>
    case OnHold =>
  }

  /** One user's tracking record for one title; `None` is the source's `null`. */
  datatype Entry = Entry(
    animeId: int,
    anime: Anime,
    status: WatchStatus,
    episodesWatched: int,
    userRating: Option<int>,
    notes: Option<string>,
    startDate: Option<string>,
    finishDate: Option<string>,
    dateAdded: string,
    lastUpdated: string,
    isFavorite: Option<bool>,
    rewatchCount: Option<int>)

  /** One choice of a status picker. */
  datatype StatusOption = StatusOption(value: WatchStatus, labelText: string, color: string, icon: Option<string>)

  /** `statusOptions.find(option => option.value === status)`. */
  function FindOption(options: seq<StatusOption>, status: WatchStatus): Option<StatusOption> {
    Seqs.Find(options, (o: StatusOption) => o.value == status)
  }

  /** The option found for a status is the first one that carries it. */
  lemma FindOptionFirst(options: seq<StatusOption>, status: WatchStatus, i: int)
    requires 0 <= i < |options| && options[i].value == status
    requires forall j :: 0 <= j < i ==> options[j].value != status
    ensures FindOption(options, status) == Some(options[i])
  {
    Seqs.FindFirst(options, (o: StatusOption) => o.value == status, i);
  }

  /** No option is found for a status that no option carries. */
  lemma FindOptionNone(options: seq<StatusOption>, status: WatchStatus)
    requires forall j :: 0 <= j < |options| ==> options[j].value != status
    ensures FindOption(options, status) == None
  {
  }

  /** No two options carry the same status. */
  ghost predicate DistinctValues(options: seq<StatusOption>) {
    forall i, j :: 0 <= i < j < |options| ==> options[i].value != options[j].value
  }

  /** No two entries of the list track the same title id. */
  ghost predicate UniqueIds(list: seq<Entry>) {
    forall i, j :: 0 <= i < j < |list| ==> list[i].animeId != list[j].animeId
  }

  /** Every entry's key is the id of the title it embeds. */
  ghost predicate KeysMatch(list: seq<Entry>) {
    forall i :: 0 <= i < |list| ==> list[i].animeId == list[i].anime.id
  }

  /** The list's numeric invariant: never negative, and at most the total when it is known. */
  predicate EpisodesInRange(watched: int, total: Option<int>) {
    0 <= watched && (total.Some? ==> watched <= total.value)
  }
}
