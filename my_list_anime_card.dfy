/** One card of the user's list: cover, status badge with a change-status dropdown, title and progress. */
module MyListAnimeCard {
  import opened Optional
  import opened AnimeTypes
  import Seqs

  /** `getWatchStatusColor`: the first matching option's colour, else `'bg-gray-600'`. */
  function WatchStatusColor(options: seq<StatusOption>, status: WatchStatus): string {
    match FindOption(options, status)
    case Some(o) => o.color
    case None => "bg-gray-600"
  }

  /** `formatWatchStatus`: the first matching option's label, else `'Unknown'`. */
  function FormatWatchStatus(options: seq<StatusOption>, status: WatchStatus): string {
    match FindOption(options, status)
    case Some(o) => o.labelText
    case None => "Unknown"
  }

  /** Badge colour and text come from the same option, the first that carries the status; both fall back together. */
  lemma BadgeOfOption(options: seq<StatusOption>, status: WatchStatus)
    ensures (exists i :: 0 <= i < |options| && options[i].value == status) ==>
      exists i :: 0 <= i < |options| && options[i].value == status && (forall j :: 0 <= j < i ==> options[j].value != status)
        && WatchStatusColor(options, status) == options[i].color && FormatWatchStatus(options, status) == options[i].labelText
    ensures (forall i :: 0 <= i < |options| ==> options[i].value != status) ==>
      WatchStatusColor(options, status) == "bg-gray-600" && FormatWatchStatus(options, status) == "Unknown"
  {
    if FindOption(options, status).None? {
      FindOptionNone(options, status);
    }
  }

  /** The dropdown's choices: every option except those carrying the current status. */
  function DropdownChoices(options: seq<StatusOption>, status: WatchStatus): seq<StatusOption> {
    Seqs.Filter(options, (o: StatusOption) => o.value != status)
  }

  /** The choices are exactly the options with another status, each as often as it is listed, in their original order. */
  lemma DropdownChoicesExcludeCurrent(options: seq<StatusOption>, status: WatchStatus)
    ensures forall o :: o in DropdownChoices(options, status) <==> o in options && o.value != status
    ensures forall o :: multiset(DropdownChoices(options, status))[o] == if o.value != status then multiset(options)[o] else 0
    ensures Seqs.IsSubsequence(DropdownChoices(options, status), options)
  {
    var keep := (o: StatusOption) => o.value != status;
    forall o ensures multiset(DropdownChoices(options, status))[o] == if o.value != status then multiset(options)[o] else 0 {
      Seqs.FilterCounts(options, keep, o);
    }
    Seqs.FilterIsSubsequence(options, keep);
  }

  /** With distinct option statuses, one of which is the current one, the dropdown offers one choice fewer. */
  lemma {:induction false} DropdownChoicesCount(options: seq<StatusOption>, status: WatchStatus, k: int)
    requires DistinctValues(options)
    requires 0 <= k < |options| && options[k].value == status
    ensures |DropdownChoices(options, status)| == |options| - 1
  {
    var keep := (o: StatusOption) => o.value != status;
    var rest := options[1..];
    assert DistinctValues(rest) by {
      forall i, j | 0 <= i < j < |rest| ensures rest[i].value != rest[j].value {
        assert rest[i] == options[i + 1] && rest[j] == options[j + 1];
      }
    }
    if k == 0 {
      forall i | 0 <= i < |rest| ensures keep(rest[i]) {
        assert rest[i] == options[i + 1];
      }
      Seqs.FilterAllKept(rest, keep);
    } else {
      assert rest[k - 1] == options[k];
      DropdownChoicesCount(rest, status, k - 1);
      assert options[0].value != options[k].value;
    }
  }

  /** The card's title: the English title when set (even if empty), else the main title. */
  function DisplayTitle(anime: Anime): (t: string)
    ensures anime.englishTitle.Some? ==> t == anime.englishTitle.value
    ensures anime.englishTitle.None? ==> t == anime.title
  {
    anime.englishTitle.GetOr(anime.title)
  }

  /** The "Episodes watched" row is shown only while watching. */
  predicate ShowsEpisodesWatched(entry: Entry) {
    entry.status == Watching
  }

  /** One call `onStatusChange(animeId, status)`. */
  datatype StatusChangeCall = StatusChangeCall(animeId: int, status: WatchStatus)

  class MyListCard {
    /** The id of the `anime` prop. */
    const animeId: int
    var isDropdownOpen: bool

    constructor (animeId: int)
      ensures this.animeId == animeId && !isDropdownOpen
    {
      this.animeId := animeId;
      isDropdownOpen := false;
    }

    /** The badge flips the dropdown. */
    method ToggleDropdown()
      modifies this`isDropdownOpen
      ensures isDropdownOpen == !old(isDropdownOpen)
    {
      isDropdownOpen := !isDropdownOpen;
    }

    /**
      Choosing a dropdown option: `onStatusChange?.(anime.id, option.value)`
      (nothing when the parent gave no callback), then close.
    */
    method ChooseOption(option: StatusOption, hasCallback: bool) returns (call: Option<StatusChangeCall>)
      modifies this`isDropdownOpen
      ensures call == if hasCallback then Some(StatusChangeCall(animeId, option.value)) else None
      ensures !isDropdownOpen
    {
      call := None;
      if hasCallback {
        call := Some(StatusChangeCall(animeId, option.value));
      }
      isDropdownOpen := false;
    }
  }
}
