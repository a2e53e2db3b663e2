/** The status picker of the detail page: a row of buttons on wide screens, a dropdown on narrow ones. */
module ResponsiveStatusSelector {
  import opened Optional
  import opened AnimeTypes

  /** `currentOption`: the first option carrying the current status. */
  function CurrentOption(options: seq<StatusOption>, current: WatchStatus): Option<StatusOption> {
    FindOption(options, current)
  }

  /** The dropdown trigger's text: `currentOption?.label || 'Select Status'`. */
  function TriggerLabel(options: seq<StatusOption>, current: WatchStatus): string {
    match CurrentOption(options, current)
    case Some(o) => if o.labelText != "" then o.labelText else "Select Status"
    case None => "Select Status"
  }

  /**
    The trigger shows the first matching option's label, or "Select Status"
    when that label is empty (the test is `||`, not `??`).
  */
  lemma TriggerLabelOfOption(options: seq<StatusOption>, current: WatchStatus, i: int)
    requires 0 <= i < |options| && options[i].value == current
    requires forall j :: 0 <= j < i ==> options[j].value != current
    ensures TriggerLabel(options, current) == if options[i].labelText != "" then options[i].labelText else "Select Status"
  {
    FindOptionFirst(options, current, i);
  }

  /** With no option for the current status, the trigger reads "Select Status". */
  lemma TriggerLabelFallback(options: seq<StatusOption>, current: WatchStatus)
    requires forall j :: 0 <= j < |options| ==> options[j].value != current
    ensures TriggerLabel(options, current) == "Select Status"
  {
    FindOptionNone(options, current);
  }

  /** A button or dropdown row is highlighted when it carries the current status. */
  predicate IsHighlighted(option: StatusOption, current: WatchStatus) {
    option.value == current
  }

  /** The option the trigger names is itself highlighted in the list. */
  lemma CurrentOptionIsHighlighted(options: seq<StatusOption>, current: WatchStatus)
    ensures CurrentOption(options, current).Some? ==>
      CurrentOption(options, current).value in options && IsHighlighted(CurrentOption(options, current).value, current)
  {
  }

  class Selector {
    var isDropdownOpen: bool

    constructor ()
      ensures !isDropdownOpen
    {
      isDropdownOpen := false;
    }

    /** A wide-screen button: notify the parent, leave the dropdown alone. */
    method ClickButton(option: StatusOption) returns (notified: WatchStatus)
      ensures notified == option.value
    {
      notified := option.value;
    }

    /** The narrow-screen trigger flips the open state. */
    method ToggleDropdown()
      modifies this
      ensures isDropdownOpen == !old(isDropdownOpen)
    {
      isDropdownOpen := !isDropdownOpen;
    }

    /** A narrow-screen option: notify the parent, then close. */
    method ClickDropdownOption(option: StatusOption) returns (notified: WatchStatus)
      modifies this
      ensures notified == option.value && !isDropdownOpen
    {
      notified := option.value;
      isDropdownOpen := false;
    }
  }
}
