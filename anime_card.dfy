/** One search-result card: cover, score, type, title, episode count, airing status, genres and a button. */
module AnimeCard {
  import opened Optional
  import opened AnimeTypes
  import NumberText

  /** `formatEpisodes`: unknown for an unset or zero total, else the count with "episode" or "episodes". */
  function FormatEpisodes(total: Option<int>): (r: string)
    ensures (total.None? || total.value == 0) ==> r == "Unknown episodes"
    ensures total == Some(1) ==> r == "1 episode"
    ensures total.Some? && total.value != 0 && total.value != 1 ==> r == NumberText.IntToString(total.value) + " episodes"
  {
    if total.None? || total.value == 0 then "Unknown episodes"
    else NumberText.IntToString(total.value) + " episode" + (if total.value == 1 then "" else "s")
  }

  /** The count can be read back from the text: `parseInt` of the label gives the total. */
  lemma FormatEpisodesReadsBack(n: int)
    requires n != 0
    ensures NumberText.ParseInt(FormatEpisodes(Some(n))) == Some(n)
  {
    var suffix := " episode" + (if n == 1 then "" else "s");
    assert FormatEpisodes(Some(n)) == NumberText.IntToString(n) + suffix;
    NumberText.ParseIntOfTextThen(n, suffix);
  }

  /** `getStatusColor`: green, blue or yellow for the three airing statuses, gray for any other text. */
  function StatusColor(airingStatus: string): (c: string)
    ensures airingStatus == CurrentlyAiring ==> c == "text-green-400"
    ensures airingStatus == FinishedAiring ==> c == "text-blue-400"
    ensures airingStatus == NotYetAired ==> c == "text-yellow-400"
    ensures airingStatus !in {CurrentlyAiring, FinishedAiring, NotYetAired} ==> c == "text-gray-400"
  {
    if airingStatus == CurrentlyAiring then "text-green-400"
    else if airingStatus == FinishedAiring then "text-blue-400"
    else if airingStatus == NotYetAired then "text-yellow-400"
    else "text-gray-400"
  }

  /** The genre block is rendered only for a title with at least one genre. */
  predicate ShowsGenres(anime: Anime) {
    |anime.genres| > 0
  }

  /** `genres.slice(0, 3)`. */
  function VisibleGenres(genres: seq<string>): seq<string> {
    if |genres| <= 3 then genres else genres[..3]
  }

  /** The "+k more" badge, shown only when more than three genres exist. */
  function MoreGenresLabel(genres: seq<string>): Option<string> {
    if |genres| > 3 then Some("+" + NumberText.IntToString(|genres| - 3) + " more") else None
  }

  /**
    The card shows at most three genres, the first ones in order, and the badge
    counts exactly the ones left out.
  */
  lemma GenresShownAndCounted(genres: seq<string>)
    ensures var shown := VisibleGenres(genres);
      && |shown| == (if |genres| < 3 then |genres| else 3)
      && shown == genres[..|shown|]
      && (MoreGenresLabel(genres).Some? <==> |shown| < |genres|)
      && (MoreGenresLabel(genres).Some? ==>
            MoreGenresLabel(genres).value == "+" + NumberText.IntToString(|genres| - |shown|) + " more")
      && (MoreGenresLabel(genres).Some? ==>
            NumberText.ParseInt(MoreGenresLabel(genres).value[1..]) == Some(|genres| - |shown|))
  {
    if |genres| > 3 {
      var badge := "+" + NumberText.IntToString(|genres| - 3) + " more";
      assert badge[1..] == NumberText.IntToString(|genres| - 3) + " more";
      NumberText.ParseIntOfTextThen(|genres| - 3, " more");
    }
  }

  /** The English subtitle is shown when it is set, non-empty and not the same as the main title. */
  predicate ShowsEnglishSubtitle(anime: Anime) {
    anime.englishTitle.Some? && anime.englishTitle.value != "" && anime.englishTitle.value != anime.title
  }

  datatype CardButton = AddButton | RemoveButton

  /** `showAddButton` defaults to true (only when not given) and picks "Add to List" over "Remove". */
  function ButtonShown(showAddButton: Option<bool>): (b: CardButton)
    ensures b == AddButton <==> showAddButton != Some(false)
  {
    if showAddButton.GetOr(true) then AddButton else RemoveButton
  }

  /** A call of the parent's `onAddToList(anime)` or `onRemoveFromList(anime)`. */
  datatype CardCall = AddCall(anime: Anime) | RemoveCall(anime: Anime)

  /** Clicking the shown button calls its callback, and only if the parent gave one. */
  function ClickButton(anime: Anime, showAddButton: Option<bool>, hasOnAdd: bool, hasOnRemove: bool): (call: Option<CardCall>)
    ensures call.Some? <==> (if ButtonShown(showAddButton) == AddButton then hasOnAdd else hasOnRemove)
    ensures call.Some? ==> call.value.anime == anime
    ensures call.Some? ==> (call.value.AddCall? <==> ButtonShown(showAddButton) == AddButton)
  {
    match ButtonShown(showAddButton)
    case AddButton => if hasOnAdd then Some(AddCall(anime)) else None
    case RemoveButton => if hasOnRemove then Some(RemoveCall(anime)) else None
  }
}
