/** The list page's filter: "All" or one watch status, with the matching count. */
module StatusFilterDropdown {
  import opened Optional
  import opened AnimeTypes

  /** `WatchStatus | 'all'`. */
  datatype StatusFilter = All | Only(status: WatchStatus)

  /** `getCurrentLabel`: "All" for the `'all'` filter, else the first matching option's label, else "All". */
  function CurrentLabel(selected: StatusFilter, options: seq<StatusOption>): (r: string)
    ensures selected.All? ==> r == "All"
  {
    match selected
    case All => "All"
    case Only(s) =>
      match FindOption(options, s)
      case Some(o) => o.labelText
      case None => "All"
  }

  /** A status filter is labelled by the first option carrying that status, even when the label is empty. */
  lemma CurrentLabelOfOption(options: seq<StatusOption>, s: WatchStatus, i: int)
    requires 0 <= i < |options| && options[i].value == s
    requires forall j :: 0 <= j < i ==> options[j].value != s
    ensures CurrentLabel(Only(s), options) == options[i].labelText
  {
    FindOptionFirst(options, s, i);
  }

  /** The label falls back to "All" exactly when no option carries the selected status. */
  lemma CurrentLabelFallback(options: seq<StatusOption>, s: WatchStatus)
    requires forall j :: 0 <= j < |options| ==> options[j].value != s
    ensures CurrentLabel(Only(s), options) == "All"
  {
    FindOptionNone(options, s);
  }

  /** `getCurrentCount`: the whole list's count for `'all'`, else the count the parent gives for the status. */
  function CurrentCount(selected: StatusFilter, animeCount: int, getStatusCount: WatchStatus -> int): (n: int)
    ensures selected.All? ==> n == animeCount
    ensures selected.Only? ==> n == getStatusCount(selected.status)
  {
    if selected.All? then animeCount else getStatusCount(selected.status)
  }

  /** The `'all'` row is marked when the filter is `'all'`. */
  predicate AllRowSelected(selected: StatusFilter) {
    selected.All?
  }

  /** An option row is marked when its status is the filter. */
  predicate OptionRowSelected(selected: StatusFilter, option: StatusOption) {
    selected == Only(option.value)
  }

  /**
    Marking is exclusive: when the `'all'` row is marked no option row is, and
    with distinct option statuses at most one option row is marked.
  */
  lemma SelectionIsExclusive(selected: StatusFilter, options: seq<StatusOption>)
    requires DistinctValues(options)
    ensures AllRowSelected(selected) ==> forall i :: 0 <= i < |options| ==> !OptionRowSelected(selected, options[i])
    ensures forall i, j :: 0 <= i < j < |options| ==>
      !(OptionRowSelected(selected, options[i]) && OptionRowSelected(selected, options[j]))
  {
  }

  class FilterDropdown {
    var isDropdownOpen: bool

    constructor ()
      ensures !isDropdownOpen
    {
      isDropdownOpen := false;
    }

    /** The trigger button flips the open state. */
    method ToggleDropdown()
      modifies this
      ensures isDropdownOpen == !old(isDropdownOpen)
    {
      isDropdownOpen := !isDropdownOpen;
    }

    /** `handleStatusSelect`: notify the parent of the chosen filter, then close. */
    method HandleStatusSelect(status: StatusFilter) returns (notified: StatusFilter)
      modifies this
      ensures notified == status
      ensures !isDropdownOpen
    {
      notified := status;
      isDropdownOpen := false;
    }
  }
}
