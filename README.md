# Anime tracker — a Dafny model of its list store and view rules

Tsugi is a browser application for searching a public anime catalog and
keeping a personal watch list. This project models the logic underneath its
screens:

- **The persisted list.** One storage slot `userAnimeList` holds the user's
  entries. It is read whole and rewritten whole by `getUserAnimeList`,
  `saveUserAnimeList`, `addAnimeToList` and `removeAnimeFromList`.
  `LocalStorage.UserListStore` is a class whose field is the slot. The model
  lets the slot be missing, blank, unparseable or a saved list. A stored
  value that parses to something other than a list is not represented
  (see "Left out").
- **The record normaliser.** `transformJikanToAnime` turns a raw catalog
  record into the application's title record. Here it is a total function
  over datatypes. Raw nullable fields are `Field<T>` (missing, `null` or
  present), and the normalised ones are `Option<T>`.
- **Episode progress.** This covers two parts:
  - the detail overlay's clamped step and its lookup, status and episode
    handlers (`AnimeDetailModal.DetailModal`);
  - the editable counter's input state machine (`EpisodeCounter.Counter`).

  Together they keep `episodesWatched` in `[0, total]` when the total is
  known, and at least 0 otherwise.
- **Small view rules.** These are the functions the components compute:
  - status-option lookups with fallbacks;
  - the status filter's label and count;
  - the list card's dropdown choices and title;
  - the search card's episode text, colour, genre truncation and button
    choice;
  - the page title and active links of the header and tab bar;
  - the bundled sample catalog and its two helpers.

## How the model is organised

There is one module per source file:

| module | source file |
|---|---|
| `LocalStorage` | `src/services/localStorage.ts` |
| `DataHelpers` | `src/utils/dataHelpers.ts` |
| `AnimeDetailModal` | `src/components/ui/AnimeDetailModal.tsx` |
| `EpisodeCounter` | `src/components/ui/EpisodeCounter.tsx` |
| `StatusFilterDropdown` | `src/components/ui/StatusFilterDropdown.tsx` |
| `ResponsiveStatusSelector` | `src/components/ui/ResponsiveStatusSelector.tsx` |
| `MyListAnimeCard` | `src/components/anime/MyListAnimeCard.tsx` |
| `AnimeCard` | `src/components/anime/AnimeCard.tsx` |
| `Header` | `src/components/layout/Header.tsx` |
| `Navigation` | `src/components/layout/Navigation.tsx` |
| `MockData` | `src/utils/mockData.ts` |

Four modules are shared:

- `AnimeTypes` holds the types of `src/types/anime.ts`.
- `Optional` holds `Option`.
- `Seqs` holds the `filter` and `find` that several files use, with their
  lemmas.
- `NumberText` models JavaScript's integer `toString` and `parseInt` over
  decimal text.

How the source's inputs and effects appear in the model:

- **State.** What a component holds in React state is a class field.
  Handlers are methods whose `ensures` state the whole new state.
- **Callbacks.** A callback the parent supplies (`onStatusChange`,
  `onEpisodeChange`, `onAddToList`, …) is a returned value: the call that is
  made, or none.
- **Time and randomness.** The two clock reads an add makes, one for
  `dateAdded` and one for `lastUpdated`, are a parameter `now`. The random
  shuffle of `getRandomAnime` is a parameter `perm`, any permutation of the
  indices.
- **Storage writes.** Whether the storage accepts a write is a parameter
  `writeOk`. A refused write is swallowed, so the slot keeps its old state.
- **`updateAnimeEntry`.** Its body is not part of this model. The overlay
  records each call it makes (title id and patch) in its `updates` field.
- **`statusOptions`.** Its contents are not part of this model. Every lookup
  takes the option list as a parameter.

Behaviour of the code that a reader may not expect, kept as written:

- `transformJikanToAnime` (`src/utils/dataHelpers.ts:3-24`) never fails. It
  copies `title_english` as it comes: a missing or `null` English title
  stays unset rather than taking the main title.
- The dropdown fallbacks differ by operator, and the model keeps the
  difference:
  - `ResponsiveStatusSelector` and the detail overlay use `||`, so an option
    whose label is empty still shows "Select Status".
  - `StatusFilterDropdown` and `MyListAnimeCard` use `??`, so an empty label
    is shown as it is.
- `getRandomAnime` takes `slice(0, count)` literally. A negative count
  therefore drops that many titles from the end rather than returning none
  (`MockData.SliceEnd`).
- `addAnimeToList` and `removeAnimeFromList` on an unparseable slot start
  from the empty list and overwrite the slot.

## Model

| member | source | states |
|---|---|---|
| LocalStorage.ReadSlot | src/services/localStorage.ts:15-28 | a missing, blank or unparseable slot reads as the empty list; a saved list reads as itself |
| LocalStorage.UserListStore.GetUserAnimeList | src/services/localStorage.ts:15-28 | the read never fails and returns exactly what the slot denotes, `[]` for every unreadable state |
| LocalStorage.UserListStore.SaveUserAnimeList | src/services/localStorage.ts:30-36 | an accepted write replaces the slot with the whole list; a refused write is swallowed and changes nothing |
| LocalStorage.NewEntry | src/services/localStorage.ts:52-65 | a new entry has the title's id as key and embeds the title; status is the given one or plan-to-watch; 0 episodes; every nullable field null; `dateAdded` and `lastUpdated` are the two clock reads |
| LocalStorage.AddExistingReturnsIt | src/services/localStorage.ts:44-50 | about `AddToList`: adding a title already listed returns its first entry whatever status and time are given, and the list is unchanged |
| LocalStorage.AddNewAppends | src/services/localStorage.ts:52-69 | about `AddToList`: adding an unlisted title appends exactly its new entry at the end; the earlier entries stay in order |
| LocalStorage.AddFoundIffPresent | src/services/localStorage.ts:46-50 | an add returns an existing entry exactly when some entry has the title's id |
| LocalStorage.AddTwiceKeepsFirst | src/services/localStorage.ts:44-70 | a second add of the same title returns the entry the first add produced and leaves the list as the first add left it |
| LocalStorage.AddPreservesInvariants | src/services/localStorage.ts:44-70 | if keys are distinct and each key is its title's id before an add, both still hold after it |
| LocalStorage.RemoveKeepsOthers | src/services/localStorage.ts:38-42 | remove keeps exactly the entries with another key, each as often as before, as a subsequence of the old list |
| LocalStorage.RemoveAbsentUnchanged | src/services/localStorage.ts:40 | removing an id no entry has leaves the list unchanged |
| LocalStorage.RemoveIdempotent | src/services/localStorage.ts:40 | removing twice equals removing once |
| LocalStorage.RemovePreservesInvariants | src/services/localStorage.ts:38-42 | distinct keys, and keys equal to title ids, survive a remove |
| LocalStorage.RemoveUndoesAdd | src/services/localStorage.ts:38-69 | removing a title just added to a list without it gives back that list |
| LocalStorage.UserListStore.RemoveAnimeFromList | src/services/localStorage.ts:38-42 | the slot becomes the read list minus that key when the write is accepted, otherwise is unchanged; distinct keys are preserved |
| LocalStorage.UserListStore.AddAnimeToList | src/services/localStorage.ts:44-70 | returns the existing or new entry; an existing title writes nothing; a new one saves the old list plus the entry; distinct keys are preserved |
| Seqs.Filter | src/services/localStorage.ts:40 | the filtered list is no longer than the input and holds exactly the kept elements of the input |
| Seqs.FilterSnoc | src/services/localStorage.ts:67 | filtering a list with one element pushed filters the list and then keeps or drops that element |
| Seqs.Find | src/services/localStorage.ts:46 | `find` returns nothing exactly when no element matches, else the element at the first matching index |
| Seqs.FindFirst | src/services/localStorage.ts:46 | the element at the first matching index is the one found |
| DataHelpers.Coalesce | src/utils/dataHelpers.ts:7 | `?? undefined` makes missing and null unset and keeps a present value unchanged |
| DataHelpers.Names | src/utils/dataHelpers.ts:17-18 | the name list has the references' length and each reference's name at its index |
| DataHelpers.TransformJikanToAnime | src/utils/dataHelpers.ts:3-24 | id, title, both jpg images, type and airing status copied; genres and studios are the names of the raw references in order; total, no failure path |
| DataHelpers.TransformKeepsUnknown | src/utils/dataHelpers.ts:7-22 | each of the ten nullable fields is unset exactly when the raw field is missing or null, otherwise its raw value |
| DataHelpers.TransformIgnoresUnusedFields | src/utils/dataHelpers.ts:3-24 | webp and small images, scored-by, rank, aired and reference ids do not affect the result |
| DataHelpers.TransformDenormalize | src/utils/dataHelpers.ts:3-24 | every title record is the normal form of some raw record |
| AnimeTypes.ParseStatus | src/types/anime.ts:95-108 | a status read from text is the one whose literal is that text (a witness that the five literals are distinct codes) |
| AnimeTypes.ParseStatusLiteral | src/types/anime.ts:102-108 | each of the five watch statuses reads back from its literal |
| AnimeTypes.FindOptionFirst | src/components/anime/MyListAnimeCard.tsx:33 | the option found for a status is the first that carries it |
| AnimeTypes.FindOptionNone | src/components/anime/MyListAnimeCard.tsx:33 | no option is found for a status that no option carries |
| NumberText.NatToString | src/components/ui/EpisodeCounter.tsx:36 | the text of a count is non-empty decimal digits, without a leading zero unless it is 0 |
| NumberText.IntToString | src/components/ui/EpisodeCounter.tsx:36 | the text of an integer is non-empty and starts with `-` exactly for a negative number |
| NumberText.LeadingDigits | src/components/ui/EpisodeCounter.tsx:40 | the longest prefix of digits: a prefix, all digits, followed by a non-digit or nothing |
| NumberText.ParseIntToString | src/components/ui/EpisodeCounter.tsx:36-40 | `parseInt` reads back every integer's `toString` |
| NumberText.ParseIntOfTextThen | src/components/anime/AnimeCard.tsx:26 | `parseInt` of an integer's text followed by a non-digit gives that integer |
| NumberText.ParseIntOfDigits | src/components/ui/EpisodeCounter.tsx:40 | about `ParseInt`: `parseInt` of digit text is its decimal value, NaN for the empty text |
| NumberText.DigitsValueOfNatToString | src/components/ui/EpisodeCounter.tsx:36-40 | reading a count's digits back gives the count |
| EpisodeCounter.DigitsOnly | src/components/ui/EpisodeCounter.tsx:65-69 | the filtered input has only digits and is no longer than what was typed |
| EpisodeCounter.DigitsOnlyKeepsDigits | src/components/ui/EpisodeCounter.tsx:67 | every typed digit is kept as often as typed, in order; every other character is dropped |
| EpisodeCounter.DigitsOnlyIdempotent | src/components/ui/EpisodeCounter.tsx:67 | filtering filtered input changes nothing |
| EpisodeCounter.ValidatedEdit | src/components/ui/EpisodeCounter.tsx:40-43 | a value is accepted exactly when the text parses to a number in `[0, total]`, and it is that number |
| EpisodeCounter.ValidatedEditOfCurrent | src/components/ui/EpisodeCounter.tsx:39-51 | saving the untouched text of an in-range count accepts that count |
| EpisodeCounter.ValidatedEditOfTyped | src/components/ui/EpisodeCounter.tsx:39-51 | typed digits are accepted exactly when there is at least one and their value is at most the total |
| EpisodeCounter.Counter.constructor | src/components/ui/EpisodeCounter.tsx:22-23 | starts not editing, with the input holding the current count's text |
| EpisodeCounter.Counter.ReceiveProps | src/components/ui/EpisodeCounter.tsx:35-37 | a changed current count resets the input to its text; an unchanged one leaves the input alone |
| EpisodeCounter.Counter.StartEditing | src/components/ui/EpisodeCounter.tsx:96 | a click on the count enters editing without touching the input |
| EpisodeCounter.Counter.HandleInputChange | src/components/ui/EpisodeCounter.tsx:65-69 | the input becomes the typed text's digits, so it holds only digits |
| EpisodeCounter.Counter.HandleSave | src/components/ui/EpisodeCounter.tsx:39-53 | hands on the value exactly when it is valid, and it lies in `[0, total]`; otherwise resets the input to the count's text; always leaves editing |
| EpisodeCounter.Counter.HandleKeyDown | src/components/ui/EpisodeCounter.tsx:55-63 | Enter saves; Escape resets the input and leaves editing with no callback; any other key changes nothing |
| EpisodeCounter.Counter.PressMinus | src/components/ui/EpisodeCounter.tsx:74-76 | the minus callback runs exactly when the button is enabled |
| EpisodeCounter.Counter.PressPlus | src/components/ui/EpisodeCounter.tsx:105-107 | the plus callback runs exactly when the button is enabled |
| AnimeDetailModal.FindEntryAgreesWithStore | src/components/ui/AnimeDetailModal.tsx:33-40 | about `FindEntryForAnime`: looking up by embedded title id finds the store's entry for that key when keys match title ids |
| AnimeDetailModal.StatusButtonOfOption | src/components/ui/AnimeDetailModal.tsx:112-115 | about `StatusButtonColor` and `StatusButtonLabel`: the status trigger takes colour and label from the first matching option, falling back when either is empty |
| AnimeDetailModal.StatusButtonFallback | src/components/ui/AnimeDetailModal.tsx:112-115 | about `StatusButtonColor` and `StatusButtonLabel`: with no matching option the trigger is `bg-gray-700` and reads "Select Status" |
| AnimeDetailModal.StepEpisodes | src/components/ui/AnimeDetailModal.tsx:52-55 | the step is never negative, at most a non-negative known total, exact when in range, else the nearest bound |
| AnimeDetailModal.IncrementsStopAtTotal | src/components/ui/AnimeDetailModal.tsx:49-59 | from an in-range count, n increments reach `min(start + n, total)`, or `start + n` with no total |
| AnimeDetailModal.ButtonsMatchBounds | src/components/ui/AnimeDetailModal.tsx:159-162 | minus is disabled exactly at 0 and plus exactly at the total; an enabled press moves the count by one |
| AnimeDetailModal.DetailModal.constructor | src/components/ui/AnimeDetailModal.tsx:12-14 | starts loading, with no entry, the picker closed and no updates sent |
| AnimeDetailModal.DetailModal.Load | src/components/ui/AnimeDetailModal.tsx:33-40 | the shown entry is the first stored entry for the title, or none; loading ends |
| AnimeDetailModal.DetailModal.ToggleDropdown | src/components/ui/AnimeDetailModal.tsx:110 | the status trigger flips the picker |
| AnimeDetailModal.DetailModal.HandleStatusChange | src/components/ui/AnimeDetailModal.tsx:42-47 | without an entry nothing happens; otherwise only the status changes and one status update is sent for the title |
| AnimeDetailModal.DetailModal.ChooseStatusOption | src/components/ui/AnimeDetailModal.tsx:127-130 | a picked option changes the status as above and closes the picker |
| AnimeDetailModal.DetailModal.HandleEpisodeChange | src/components/ui/AnimeDetailModal.tsx:49-59 | without an entry nothing happens; otherwise the count becomes the clamped step, one update is sent, and the count is in range |
| AnimeDetailModal.DetailModal.CommitEpisodeEdit | src/components/ui/AnimeDetailModal.tsx:155-158 | a typed value is written as given, without clamping, and sent as one update |
| AnimeDetailModal.DetailModal.SaveCounterEdit | src/components/ui/AnimeDetailModal.tsx:148-158 | the controls are rendered only for a known non-zero total while watching; a valid typed value is written as the count, exactly as typed, and sent as one episode update; an invalid one changes nothing and sends nothing; the counter's input keeps the typed text, becomes the new count's text when the count changed, or is reset to the old count's text after an invalid save; the count stays in `[0, total]` and the counter ends out of editing |
| AnimeDetailModal.DetailModal.PressMinus | src/components/ui/AnimeDetailModal.tsx:159-161 | an enabled minus sets only the count, to the clamped step down by one, and sends that one episode update; the counter is rendered again with the new count, its count and disabled flags follow the entry, its editing state is kept, and its input resets to the new count's text when the count changed; a disabled press changes nothing, counter included |
| AnimeDetailModal.DetailModal.PressPlus | src/components/ui/AnimeDetailModal.tsx:160-162 | an enabled plus sets only the count, to the clamped step up by one, and sends that one episode update; the counter is rendered again with the new count, its count and disabled flags follow the entry, its editing state is kept, and its input resets to the new count's text when the count changed; a disabled press changes nothing, counter included |
| StatusFilterDropdown.CurrentLabel | src/components/ui/StatusFilterDropdown.tsx:47-50 | the `'all'` filter is labelled "All" whatever the options are |
| StatusFilterDropdown.CurrentLabelOfOption | src/components/ui/StatusFilterDropdown.tsx:47-50 | a status filter is labelled by its first matching option's label |
| StatusFilterDropdown.CurrentLabelFallback | src/components/ui/StatusFilterDropdown.tsx:47-50 | with no matching option the label is "All" |
| StatusFilterDropdown.CurrentCount | src/components/ui/StatusFilterDropdown.tsx:52-54 | the count is the list's size for `'all'` and the parent's count for the status otherwise |
| StatusFilterDropdown.SelectionIsExclusive | src/components/ui/StatusFilterDropdown.tsx:84-98 | when `'all'` is marked no option row is, and with distinct statuses at most one option row is marked |
| StatusFilterDropdown.FilterDropdown.ToggleDropdown | src/components/ui/StatusFilterDropdown.tsx:60 | the trigger flips the open state |
| StatusFilterDropdown.FilterDropdown.HandleStatusSelect | src/components/ui/StatusFilterDropdown.tsx:42-45 | the parent is told the chosen filter and the dropdown closes |
| ResponsiveStatusSelector.TriggerLabelOfOption | src/components/ui/ResponsiveStatusSelector.tsx:34-63 | about `TriggerLabel`: the trigger shows the first matching option's label, or "Select Status" when that label is empty |
| ResponsiveStatusSelector.TriggerLabelFallback | src/components/ui/ResponsiveStatusSelector.tsx:63 | about `TriggerLabel`: with no matching option the trigger reads "Select Status" |
| ResponsiveStatusSelector.CurrentOptionIsHighlighted | src/components/ui/ResponsiveStatusSelector.tsx:34-45 | the option the trigger names is in the list and highlighted |
| ResponsiveStatusSelector.Selector.ClickButton | src/components/ui/ResponsiveStatusSelector.tsx:43 | a wide-screen button reports its status and leaves the dropdown alone |
| ResponsiveStatusSelector.Selector.ToggleDropdown | src/components/ui/ResponsiveStatusSelector.tsx:58 | the narrow-screen trigger flips the dropdown |
| ResponsiveStatusSelector.Selector.ClickDropdownOption | src/components/ui/ResponsiveStatusSelector.tsx:75-77 | a dropdown option reports its status and closes the dropdown |
| MyListAnimeCard.BadgeOfOption | src/components/anime/MyListAnimeCard.tsx:32-40 | about `WatchStatusColor` and `FormatWatchStatus`: badge colour and text come from the first matching option; with none they are `bg-gray-600` and "Unknown" |
| MyListAnimeCard.DropdownChoicesExcludeCurrent | src/components/anime/MyListAnimeCard.tsx:71-72 | about `DropdownChoices`: the choices are exactly the options with another status, each as often as it is listed, in original order |
| MyListAnimeCard.DropdownChoicesCount | src/components/anime/MyListAnimeCard.tsx:71-72 | about `DropdownChoices`: with distinct statuses including the current one, exactly one option is dropped |
| MyListAnimeCard.DisplayTitle | src/components/anime/MyListAnimeCard.tsx:95 | the English title when set, even if empty, else the main title |
| MyListAnimeCard.MyListCard.ToggleDropdown | src/components/anime/MyListAnimeCard.tsx:61 | the badge flips the dropdown |
| MyListAnimeCard.MyListCard.ChooseOption | src/components/anime/MyListAnimeCard.tsx:76-78 | the parent is told the title's id and the option's status if it gave a callback; the dropdown closes |
| AnimeCard.FormatEpisodes | src/components/anime/AnimeCard.tsx:24-27 | unset or zero reads "Unknown episodes"; 1 reads "1 episode"; any other count "N episodes" |
| AnimeCard.FormatEpisodesReadsBack | src/components/anime/AnimeCard.tsx:26 | the episode text starts with the total, which `parseInt` reads back |
| AnimeCard.StatusColor | src/components/anime/AnimeCard.tsx:30-41 | green, blue, yellow for the three airing statuses, gray for any other text |
| AnimeCard.GenresShownAndCounted | src/components/anime/AnimeCard.tsx:107-121 | about `VisibleGenres` and `MoreGenresLabel`: shows the first min(n, 3) genres in order; the badge appears exactly when genres are left out, reads "+k more" and k, read back by `parseInt`, is their number |
| AnimeCard.ButtonShown | src/components/anime/AnimeCard.tsx:126 | the add button unless `showAddButton` is explicitly false (it defaults to true) |
| AnimeCard.ClickButton | src/components/anime/AnimeCard.tsx:11-21 | a click calls the shown button's callback with the card's title, only if the parent gave it |
| Header.TitleMatchesActiveLink | src/components/layout/Header.tsx:7-21 | about `PageTitle`: each link's title shows exactly when its link is active; `/anime/…` reads "Anime Details"; every other path reads "Tsugi" |
| Header.AtMostOneLinkActive | src/components/layout/Header.tsx:45-67 | no path makes two links active |
| Header.BareAnimePathIsDefault | src/components/layout/Header.tsx:16-20 | `/anime` without the slash reads "Tsugi" |
| Navigation.NavItemsInOrder | src/components/layout/Navigation.tsx:6-25 | exactly three tabs: search, list, stats |
| Navigation.AtMostOneActive | src/components/layout/Navigation.tsx:27-32 | about `IsActive`: at most one tab is active, and one is active exactly on `/`, `/search`, `/my-list`, `/stats` |
| Navigation.AgreesWithHeader | src/components/layout/Navigation.tsx:27-32 | about `IsActive`: each tab is active exactly when the header's link for it is |
| MockData.MockListShape | src/utils/mockData.ts:4-125 | six sample titles with ids 16498, 1535, 11061, 40748, 38000, 54492 in that order |
| MockData.MockIdsDistinct | src/utils/mockData.ts:6-106 | the sample ids are pairwise distinct |
| MockData.GetAnimeByIdFinds | src/utils/mockData.ts:128-130 | about `GetAnimeById`: a lookup finds a title exactly for a known id, and the title has that id |
| MockData.SliceEnd | src/utils/mockData.ts:135 | `slice(0, count)` keeps `min(count, len)` items for a non-negative count and drops `-count` from the end otherwise |
| MockData.GetRandomAnime | src/utils/mockData.ts:133-136 | the result has the sliced length, is the catalog in the shuffled order, and repeats no title |
| MockData.PermutationIsOnto | src/utils/mockData.ts:134 | a shuffle of the indices reaches every index |
| MockData.GetRandomAnimeSizes | src/utils/mockData.ts:133-136 | with no count three titles come back; a count of six or more returns every sample title |

## Left out

- `updateAnimeEntry`: it is called by the detail overlay, but its body is not part of this model. The calls are recorded instead.
- Filtering and counting the list by status: `getStatusCount` is a parameter of the filter and no part of this model defines it. There is no change-notification mechanism either.
- `src/services/jikanApi.ts` and `src/components/anime/SearchBar.tsx`: network clients built on `fetch`.
- Floating point: the score's `toFixed(1)` and the progress bar's percentage. Scores are carried as `real` and never formatted.
- `Math.random` and `new Date().toISOString()`: replaced by the parameters `perm` and `now`.
- JSON: the serialised text is not modelled. The slot holds a list or one of the unreadable states, and a save stores the list itself.
- Rendering and CSS classes other than the colour and label rules above.
- Event listeners: focus, selection, outside-click and keydown listeners, including those that close a dropdown on an outside click.
- `src/components/ui/Modal.tsx`, together with the routing in `src/App.tsx`, `src/components/layout/Layout.tsx` and `src/pages/AnimeDetailWrapper.tsx`.
- Static pages with no logic: `src/pages/Stats.tsx`, `src/pages/MyList.tsx`, `src/pages/AnimeDetail.tsx`, `src/pages/Search.tsx`.
- `src/types/user.ts`, whose types no modelled logic uses.
- LocalStorage.ReadSlot, LocalStorage.UserListStore.GetUserAnimeList, RemoveAnimeFromList and AddAnimeToList: they do not model a stored value that parses as JSON but is not an array (`null`, `0`, `{}`, `"x"`). `getUserAnimeList` returns such a value unchanged (`src/services/localStorage.ts:20`), and the two writers then throw a `TypeError` at `.filter` or `.find` (`:40`, `:46`). `Slot` has no state for it, so none of these members covers that case.
- The `console.error` calls in `getUserAnimeList` and `saveUserAnimeList` (`src/services/localStorage.ts:22` and `:34`): they log the parse or write failure and change nothing. The model keeps only the recovery each one accompanies.
- AnimeTypes.ParseStatus and AnimeTypes.ParseStatusLiteral: no part of the application parses a status string. They only witness that `WatchStatus` encodes the five literals of `WATCH_STATUS` one-to-one.
- Predicates without a contract of their own, because they only name a rendering condition: `AnimeDetailModal.ShowsEpisodeControls`, `MyListAnimeCard.ShowsEpisodesWatched`, `AnimeCard.ShowsEnglishSubtitle` and `AnimeCard.ShowsGenres`. Each is the source's condition at, in order, `AnimeDetailModal.tsx:148`, `MyListAnimeCard.tsx:101`, `AnimeCard.tsx:79` and `AnimeCard.tsx:107`.
- `getRandomAnime` leaving `mockAnimeList` unchanged: it has no separate lemma. The sample list is an immutable constant here, so the shuffle works on a copy by construction.
- NumberText.ParseInt: models only an optional sign followed by decimal digits. Leading whitespace, a `0x` prefix and the loss of precision beyond 2^53 are not modelled. The counter's input holds only digits or a count's own text (`EpisodeCounter.Counter.Valid`), so no other input reaches it.
- NumberText.IntToString: always writes plain decimal digits. JavaScript's exponent form for numbers of 10^21 and above is not modelled.
- AnimeTypes.Entry: episode counts and ids are unbounded integers, not IEEE doubles, so the model has no fractional episode counts.
