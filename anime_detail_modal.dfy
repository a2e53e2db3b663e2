/**
  The detail overlay for one title of the list: it looks the entry up once,
  and its status picker and episode controls edit that entry.
*/
module AnimeDetailModal {
  import opened Optional
  import opened AnimeTypes
  import Seqs
  import LocalStorage
  import EpisodeCounter
  import NumberText

  /** The fields one call of `updateAnimeEntry` sets. */
  datatype Patch = StatusPatch(status: WatchStatus) | EpisodesPatch(episodesWatched: int)

  /**
    One call `updateAnimeEntry(animeId, patch)`. That store operation is not
    part of this model; the overlay records the calls it makes.
  */
  datatype UpdateCall = UpdateCall(animeId: int, patch: Patch)

  /** `list.find(entry => entry.anime.id === animeId)`. */
  function FindEntryForAnime(list: seq<Entry>, animeId: int): Option<Entry> {
    Seqs.Find(list, (e: Entry) => e.anime.id == animeId)
  }

  /**
    Looking up by the embedded title's id finds the same entry as the store's
    lookup by key, as long as every key is its title's id.
  */
  lemma FindEntryAgreesWithStore(list: seq<Entry>, animeId: int)
    requires KeysMatch(list)
    ensures FindEntryForAnime(list, animeId) == LocalStorage.FindById(list, animeId)
  {
    var byTitle := (e: Entry) => e.anime.id == animeId;
    var byKey := (e: Entry) => e.animeId == animeId;
    var r := FindEntryForAnime(list, animeId);
    if r.Some? {
      var i :| 0 <= i < |list| && list[i] == r.value && byTitle(list[i]) && forall j :: 0 <= j < i ==> !byTitle(list[j]);
      Seqs.FindFirst(list, byKey, i);
    } else {
      assert forall i :: 0 <= i < |list| ==> !byKey(list[i]);
    }
  }

  /** The status trigger's colour: the first matching option's colour, or `'bg-gray-700'` when that is missing or empty (`||`). */
  function StatusButtonColor(options: seq<StatusOption>, status: WatchStatus): string {
    match FindOption(options, status)
    case Some(o) => if o.color != "" then o.color else "bg-gray-700"
    case None => "bg-gray-700"
  }

  /** The status trigger's text: the first matching option's label, or `'Select Status'` when that is missing or empty (`||`). */
  function StatusButtonLabel(options: seq<StatusOption>, status: WatchStatus): string {
    match FindOption(options, status)
    case Some(o) => if o.labelText != "" then o.labelText else "Select Status"
    case None => "Select Status"
  }

  /** The trigger takes colour and text from the first option carrying the entry's status. */
  lemma StatusButtonOfOption(options: seq<StatusOption>, status: WatchStatus, i: int)
    requires 0 <= i < |options| && options[i].value == status
    requires forall j :: 0 <= j < i ==> options[j].value != status
    ensures StatusButtonColor(options, status) == if options[i].color != "" then options[i].color else "bg-gray-700"
    ensures StatusButtonLabel(options, status) == if options[i].labelText != "" then options[i].labelText else "Select Status"
  {
    FindOptionFirst(options, status, i);
  }

  /** With no option for the status, the trigger is gray and reads "Select Status". */
  lemma StatusButtonFallback(options: seq<StatusOption>, status: WatchStatus)
    requires forall j :: 0 <= j < |options| ==> options[j].value != status
    ensures StatusButtonColor(options, status) == "bg-gray-700"
    ensures StatusButtonLabel(options, status) == "Select Status"
  {
    FindOptionNone(options, status);
  }

  function Max(a: int, b: int): int { if a < b then b else a }

  function Min(a: int, b: int): int { if a < b then a else b }

  /**
    `handleEpisodeChange`'s new count: `max(0, min(cur + inc, total ?? cur + inc))`.
    It is the nearest count to `cur + inc` that is not negative and, when the
    total is known, not above the total.
  */
  function StepEpisodes(current: int, increment: int, total: Option<int>): (r: int)
    ensures r >= 0
    ensures total.Some? && total.value >= 0 ==> r <= total.value
    ensures EpisodesInRange(current + increment, total) ==> r == current + increment
    ensures current + increment < 0 ==> r == 0
    ensures total.Some? && current + increment > total.value ==> r == Max(0, total.value)
  {
    Max(0, Min(current + increment, total.GetOr(current + increment)))
  }

  /** The count after `n` presses of the plus button, starting from `current`. */
  function Increments(current: int, n: nat, total: Option<int>): int
    decreases n
  {
    if n == 0 then current else Increments(StepEpisodes(current, 1, total), n - 1, total)
  }

  /**
    From a count `start` within range, `n` increments give `min(start + n, T)`
    when the total `T` is known (so 13 presses from 0 on a 12-episode title
    stop at 12) and `start + n` when it is not.
  */
  lemma {:induction false} IncrementsStopAtTotal(start: nat, n: nat, total: Option<int>)
    requires total.Some? ==> 0 <= start <= total.value
    ensures total.Some? ==> Increments(start, n, total) == Min(start + n, total.value)
    ensures total.None? ==> Increments(start, n, total) == start + n
    decreases n
  {
    if n > 0 {
      var next := StepEpisodes(start, 1, total);
      assert next == if total.Some? then Min(start + 1, total.value) else start + 1;
      IncrementsStopAtTotal(next, n - 1, total);
    }
  }

  /** The title's episode total is unknown or not negative. */
  predicate TotalNotNegative(e: Entry) {
    e.anime.totalEpisodes.Some? ==> e.anime.totalEpisodes.value >= 0
  }

  /** Episode controls are rendered only for a title with a known, non-zero total that is being watched. */
  predicate ShowsEpisodeControls(e: Entry) {
    e.anime.totalEpisodes.Some? && e.anime.totalEpisodes.value != 0 && e.status == Watching
  }

  /** `canDecrement`: the count is positive. */
  predicate CanDecrement(e: Entry) {
    e.episodesWatched > 0
  }

  /** `canIncrement`: the count is below the known total. */
  predicate CanIncrement(e: Entry)
    requires e.anime.totalEpisodes.Some?
  {
    e.episodesWatched < e.anime.totalEpisodes.value
  }

  /**
    Within the bounds, each button is disabled exactly at its own bound, and an
    enabled button moves the count by exactly one.
  */
  lemma ButtonsMatchBounds(e: Entry)
    requires e.anime.totalEpisodes.Some?
    requires EpisodesInRange(e.episodesWatched, e.anime.totalEpisodes)
    ensures !CanDecrement(e) <==> e.episodesWatched == 0
    ensures !CanIncrement(e) <==> e.episodesWatched == e.anime.totalEpisodes.value
    ensures CanDecrement(e) ==> StepEpisodes(e.episodesWatched, -1, e.anime.totalEpisodes) == e.episodesWatched - 1
    ensures CanIncrement(e) ==> StepEpisodes(e.episodesWatched, 1, e.anime.totalEpisodes) == e.episodesWatched + 1
  {
  }

  class DetailModal {
    /** The prop: which title to show. */
    const animeId: int
    var userEntry: Option<Entry>
    var loading: bool
    var isDropdownOpen: bool
    /** Every `updateAnimeEntry` call made so far, oldest first. */
    var updates: seq<UpdateCall>

    constructor (animeId: int)
      ensures this.animeId == animeId
      ensures userEntry.None? && loading && !isDropdownOpen && updates == []
    {
      this.animeId := animeId;
      userEntry := None;
      loading := true;
      isDropdownOpen := false;
      updates := [];
    }

    /** The mount effect: read the list and keep the first entry for the title, or none. */
    method Load(store: LocalStorage.UserListStore)
      modifies this`userEntry, this`loading
      ensures userEntry == FindEntryForAnime(store.Contents(), animeId)
      ensures !loading
    {
      var list := store.GetUserAnimeList();
      userEntry := Seqs.Find(list, (e: Entry) => e.anime.id == animeId);
      loading := false;
    }

    /** The status trigger opens and closes the option list. */
    method ToggleDropdown()
      modifies this`isDropdownOpen
      ensures isDropdownOpen == !old(isDropdownOpen)
    {
      isDropdownOpen := !isDropdownOpen;
    }

    /**
      `handleStatusChange`: without an entry, nothing happens; otherwise only
      the status changes, and one status update is sent for the title.
    */
    method HandleStatusChange(newStatus: WatchStatus)
      modifies this`userEntry, this`updates
      ensures old(userEntry).None? ==> userEntry == old(userEntry) && updates == old(updates)
      ensures old(userEntry).Some? ==> var e := old(userEntry).value;
        && userEntry == Some(e.(status := newStatus))
        && updates == old(updates) + [UpdateCall(e.anime.id, StatusPatch(newStatus))]
    {
      if userEntry.None? {
        return;
      }
      var e := userEntry.value;
      updates := updates + [UpdateCall(e.anime.id, StatusPatch(newStatus))];
      userEntry := Some(e.(status := newStatus));
    }

    /** Choosing an option of the open picker changes the status, then closes the picker. */
    method ChooseStatusOption(option: StatusOption)
      modifies this`userEntry, this`updates, this`isDropdownOpen
      ensures !isDropdownOpen
      ensures old(userEntry).None? ==> userEntry == old(userEntry) && updates == old(updates)
      ensures old(userEntry).Some? ==> var e := old(userEntry).value;
        && userEntry == Some(e.(status := option.value))
        && updates == old(updates) + [UpdateCall(e.anime.id, StatusPatch(option.value))]
    {
      HandleStatusChange(option.value);
      isDropdownOpen := false;
    }

    /**
      `handleEpisodeChange`: without an entry, nothing happens; otherwise the
      count moves by `increment`, clamped, and one episode update is sent.
      The new count is in range whatever the old one was.
    */
    method HandleEpisodeChange(increment: int)
      modifies this`userEntry, this`updates
      ensures old(userEntry).None? ==> userEntry == old(userEntry) && updates == old(updates)
      ensures old(userEntry).Some? ==> var e := old(userEntry).value;
        var n := StepEpisodes(e.episodesWatched, increment, e.anime.totalEpisodes);
        && userEntry == Some(e.(episodesWatched := n))
        && updates == old(updates) + [UpdateCall(e.anime.id, EpisodesPatch(n))]
      ensures old(userEntry).Some? && TotalNotNegative(old(userEntry).value) ==>
        EpisodesInRange(userEntry.value.episodesWatched, userEntry.value.anime.totalEpisodes)
    {
      if userEntry.None? {
        return;
      }
      var e := userEntry.value;
      var n := StepEpisodes(e.episodesWatched, increment, e.anime.totalEpisodes);
      updates := updates + [UpdateCall(e.anime.id, EpisodesPatch(n))];
      userEntry := Some(e.(episodesWatched := n));
    }

    /** The counter's `onEpisodeChange`: the value is written as given, without clamping. */
    method CommitEpisodeEdit(newEpisode: int)
      requires userEntry.Some?
      modifies this`userEntry, this`updates
      ensures var e := old(userEntry).value;
        && userEntry == Some(e.(episodesWatched := newEpisode))
        && updates == old(updates) + [UpdateCall(e.anime.id, EpisodesPatch(newEpisode))]
    {
      var e := userEntry.value;
      updates := updates + [UpdateCall(e.anime.id, EpisodesPatch(newEpisode))];
      userEntry := Some(e.(episodesWatched := newEpisode));
    }

    /** The counter as this overlay renders it for the entry. */
    ghost predicate RendersCounter(c: EpisodeCounter.Counter)
      reads this, c
    {
      && userEntry.Some? && ShowsEpisodeControls(userEntry.value)
      && c.currentEpisode == userEntry.value.episodesWatched
      && c.totalEpisodes == userEntry.value.anime.totalEpisodes.value
      && c.canDecrement == CanDecrement(userEntry.value)
      && c.canIncrement == CanIncrement(userEntry.value)
    }

    /**
      A typed edit saved in the counter and written back here: the unclamped
      write still lands in `[0, total]`, because the counter only hands on
      values in that range; afterwards the counter shows the entry's count.
    */
    method SaveCounterEdit(c: EpisodeCounter.Counter)
      requires RendersCounter(c) && c.Valid()
      modifies this`userEntry, this`updates, c
      ensures RendersCounter(c) && c.Valid() && !c.isEditing
      ensures var e := old(userEntry).value;
        userEntry.Some? && userEntry.value == e.(episodesWatched := userEntry.value.episodesWatched)
      ensures old(EpisodesInRange(userEntry.value.episodesWatched, userEntry.value.anime.totalEpisodes)) ==>
        EpisodesInRange(userEntry.value.episodesWatched, userEntry.value.anime.totalEpisodes)
      ensures userEntry != old(userEntry) ==> EpisodesInRange(userEntry.value.episodesWatched, userEntry.value.anime.totalEpisodes)
      ensures var v := EpisodeCounter.ValidatedEdit(old(c.inputValue), old(c.totalEpisodes));
        var e := old(userEntry).value;
        && (v.Some? ==> userEntry == Some(e.(episodesWatched := v.value)))
        && (v.Some? ==> updates == old(updates) + [UpdateCall(e.anime.id, EpisodesPatch(v.value))])
        && (v.None? ==> userEntry == old(userEntry) && updates == old(updates))
      ensures var v := EpisodeCounter.ValidatedEdit(old(c.inputValue), old(c.totalEpisodes));
        c.inputValue ==
          if v.None? then NumberText.IntToString(old(c.currentEpisode))
          else if v.value != old(c.currentEpisode) then NumberText.IntToString(v.value)
          else old(c.inputValue)
    {
      var emitted := c.HandleSave();
      if emitted.Some? {
        CommitEpisodeEdit(emitted.value);
        var e := userEntry.value;
        c.ReceiveProps(e.episodesWatched, e.anime.totalEpisodes.value, CanDecrement(e), CanIncrement(e));
      }
    }

    /**
      The counter's minus button: an enabled press steps the count down by one,
      clamped, and the counter is rendered again with the new count, which
      resets its input to that count's text.
    */
    method PressMinus(c: EpisodeCounter.Counter)
      requires RendersCounter(c) && c.Valid()
      modifies this`userEntry, this`updates, c
      ensures RendersCounter(c) && c.Valid()
      ensures c.isEditing == old(c.isEditing)
      ensures old(userEntry.value.episodesWatched) <= 0 ==>
        userEntry == old(userEntry) && updates == old(updates) && unchanged(c)
      ensures old(userEntry.value.episodesWatched) > 0 ==> var e := old(userEntry).value;
        var n := StepEpisodes(e.episodesWatched, -1, e.anime.totalEpisodes);
        && userEntry == Some(e.(episodesWatched := n))
        && updates == old(updates) + [UpdateCall(e.anime.id, EpisodesPatch(n))]
        && c.inputValue == if n != old(c.currentEpisode) then NumberText.IntToString(n) else old(c.inputValue)
    {
      var fired := c.PressMinus();
      if fired {
        HandleEpisodeChange(-1);
        var e := userEntry.value;
        c.ReceiveProps(e.episodesWatched, e.anime.totalEpisodes.value, CanDecrement(e), CanIncrement(e));
      }
    }

    /**
      The counter's plus button: an enabled press steps the count up by one,
      clamped, and the counter is rendered again with the new count, which
      resets its input to that count's text.
    */
    method PressPlus(c: EpisodeCounter.Counter)
      requires RendersCounter(c) && c.Valid()
      modifies this`userEntry, this`updates, c
      ensures RendersCounter(c) && c.Valid()
      ensures c.isEditing == old(c.isEditing)
      ensures !CanIncrement(old(userEntry.value)) ==>
        userEntry == old(userEntry) && updates == old(updates) && unchanged(c)
      ensures CanIncrement(old(userEntry.value)) ==> var e := old(userEntry).value;
        var n := StepEpisodes(e.episodesWatched, 1, e.anime.totalEpisodes);
        && userEntry == Some(e.(episodesWatched := n))
        && updates == old(updates) + [UpdateCall(e.anime.id, EpisodesPatch(n))]
        && c.inputValue == if n != old(c.currentEpisode) then NumberText.IntToString(n) else old(c.inputValue)
    {
      var fired := c.PressPlus();
      if fired {
        HandleEpisodeChange(1);
        var e := userEntry.value;
        c.ReceiveProps(e.episodesWatched, e.anime.totalEpisodes.value, CanDecrement(e), CanIncrement(e));
      }
    }
  }
}
