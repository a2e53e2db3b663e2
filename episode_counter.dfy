/**
  The episode counter: minus and plus buttons around the current count, which
  turns into a text input while the count is being edited.
*/
module EpisodeCounter {
  import opened Optional
  import opened NumberText
  import Seqs

  /** `value.replace(/\D/g, '')`: drop every character that is not an ASCII digit. */
  function DigitsOnly(s: string): (r: string)
    ensures AllDigits(r) && |r| <= |s|
  {
    var r := Seqs.Filter(s, IsDigit);
    assert forall i :: 0 <= i < |r| ==> IsDigit(r[i]) by {
      forall i | 0 <= i < |r| ensures IsDigit(r[i]) { assert r[i] in r; }
    }
    r
  }

  /** The filter keeps every digit of the typed text, as often as it was typed, in order. */
  lemma DigitsOnlyKeepsDigits(s: string)
    ensures forall c :: multiset(DigitsOnly(s))[c] == if IsDigit(c) then multiset(s)[c] else 0
    ensures Seqs.IsSubsequence(DigitsOnly(s), s)
  {
    forall c ensures multiset(DigitsOnly(s))[c] == if IsDigit(c) then multiset(s)[c] else 0 {
      Seqs.FilterCounts(s, IsDigit, c);
    }
    Seqs.FilterIsSubsequence(s, IsDigit);
  }

  /** Filtering already filtered text changes nothing. */
  lemma DigitsOnlyIdempotent(s: string)
    ensures DigitsOnly(DigitsOnly(s)) == DigitsOnly(s)
  {
    Seqs.FilterIdempotent(s, IsDigit);
  }

  /**
    The check `handleSave` applies: the parsed value, when it is a number in
    `[0, total]`; `None` for text that does not parse or lies outside.
  */
  function ValidatedEdit(input: string, total: int): (r: Option<int>)
    ensures r.Some? <==> ParseInt(input).Some? && 0 <= ParseInt(input).value <= total
    ensures r.Some? ==> r == ParseInt(input)
  {
    match ParseInt(input)
    case None => None
    case Some(v) => if v < 0 || v > total then None else Some(v)
  }

  /** Saving the untouched text of an in-range count hands that same count back. */
  lemma ValidatedEditOfCurrent(n: int, total: int)
    requires 0 <= n <= total
    ensures ValidatedEdit(IntToString(n), total) == Some(n)
  {
    ParseIntToString(n);
  }

  /** Typed digits are accepted exactly when there is at least one and their value is at most the total. */
  lemma ValidatedEditOfTyped(raw: string, total: int)
    ensures var d := DigitsOnly(raw);
      ValidatedEdit(d, total) == if d != [] && DigitsValue(d) <= total then Some(DigitsValue(d) as int) else None
  {
    ParseIntOfDigits(DigitsOnly(raw));
  }

  class Counter {
    /** The props the parent passes in. */
    var currentEpisode: int
    var totalEpisodes: int
    var canDecrement: bool
    var canIncrement: bool
    /** The component's own state. */
    var isEditing: bool
    var inputValue: string

    /** The input holds typed digits, or the decimal text of the current count. */
    ghost predicate Valid()
      reads this
    {
      AllDigits(inputValue) || inputValue == IntToString(currentEpisode)
    }

    /** Mounting: not editing, and the input holds the current count's text. */
    constructor (currentEpisode: int, totalEpisodes: int, canDecrement: bool, canIncrement: bool)
      ensures Valid()
      ensures this.currentEpisode == currentEpisode && this.totalEpisodes == totalEpisodes
      ensures this.canDecrement == canDecrement && this.canIncrement == canIncrement
      ensures !isEditing && inputValue == IntToString(currentEpisode)
    {
      this.currentEpisode := currentEpisode;
      this.totalEpisodes := totalEpisodes;
      this.canDecrement := canDecrement;
      this.canIncrement := canIncrement;
      isEditing := false;
      inputValue := IntToString(currentEpisode);
    }

    /**
      New props from the parent. When `currentEpisode` changes, the input is
      reset to its text; otherwise the input is left alone.
    */
    method ReceiveProps(currentEpisode: int, totalEpisodes: int, canDecrement: bool, canIncrement: bool)
      requires Valid()
      modifies this
      ensures Valid()
      ensures this.currentEpisode == currentEpisode && this.totalEpisodes == totalEpisodes
      ensures this.canDecrement == canDecrement && this.canIncrement == canIncrement
      ensures isEditing == old(isEditing)
      ensures inputValue == if currentEpisode != old(this.currentEpisode) then IntToString(currentEpisode) else old(inputValue)
    {
      if currentEpisode != this.currentEpisode {
        inputValue := IntToString(currentEpisode);
      }
      this.currentEpisode := currentEpisode;
      this.totalEpisodes := totalEpisodes;
      this.canDecrement := canDecrement;
      this.canIncrement := canIncrement;
    }

    /** A click on the count opens the input, with whatever text it holds. */
    method StartEditing()
      requires Valid()
      modifies this`isEditing
      ensures Valid() && isEditing
    {
      isEditing := true;
    }

    /** `handleInputChange`: the input keeps only the digits of what was typed. */
    method HandleInputChange(raw: string)
      requires Valid()
      modifies this`inputValue
      ensures Valid()
      ensures inputValue == DigitsOnly(raw)
    {
      inputValue := DigitsOnly(raw);
    }

    /**
      `handleSave` (also run when the input loses focus): hand the typed value
      on exactly when it parses to a number in `[0, totalEpisodes]`; otherwise
      reset the input to the current count's text. Either way, editing ends.
    */
    method HandleSave() returns (emitted: Option<int>)
      requires Valid()
      modifies this`inputValue, this`isEditing
      ensures Valid() && !isEditing
      ensures emitted == ValidatedEdit(old(inputValue), totalEpisodes)
      ensures emitted.Some? ==> 0 <= emitted.value <= totalEpisodes
      ensures emitted.None? ==> inputValue == IntToString(currentEpisode)
      ensures emitted.Some? ==> inputValue == old(inputValue)
    {
      var newValue := ParseInt(inputValue);
      if newValue.None? || newValue.value < 0 || newValue.value > totalEpisodes {
        inputValue := IntToString(currentEpisode);
        isEditing := false;
        return None;
      }
      emitted := newValue;
      isEditing := false;
    }

    /** `handleKeyDown`: Enter saves; Escape resets the input and stops editing; other keys do nothing. */
    method HandleKeyDown(key: string) returns (emitted: Option<int>)
      requires Valid()
      modifies this`inputValue, this`isEditing
      ensures Valid()
      ensures key == "Enter" ==> !isEditing && emitted == ValidatedEdit(old(inputValue), totalEpisodes)
      ensures key == "Enter" ==> inputValue == if emitted.Some? then old(inputValue) else IntToString(currentEpisode)
      ensures key == "Escape" ==> !isEditing && emitted.None? && inputValue == IntToString(currentEpisode)
      ensures key != "Enter" && key != "Escape" ==> emitted.None? && isEditing == old(isEditing) && inputValue == old(inputValue)
    {
      if key == "Enter" {
        emitted := HandleSave();
      } else if key == "Escape" {
        inputValue := IntToString(currentEpisode);
        isEditing := false;
        emitted := None;
      } else {
        emitted := None;
      }
    }

    /** The minus button: its callback runs only when the button is enabled. */
    method PressMinus() returns (fired: bool)
      ensures fired == canDecrement
    {
      fired := canDecrement;
    }

    /** The plus button: its callback runs only when the button is enabled. */
    method PressPlus() returns (fired: bool)
      ensures fired == canIncrement
    {
      fired := canIncrement;
    }
  }
}
