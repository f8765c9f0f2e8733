/** components/TimezoneSelector.tsx: which option the selector shows, what a
    change reports, and which options a search keeps. */
module TimezoneSelector {
  import opened Wrappers
  import opened JsStrings
  import opened TimezoneData

  /** `t.find(tz => tz.value === value)`, as the index of the first match. */
  function FindByValue(t: seq<TimezoneOption>, value: string): (r: Option<nat>)
    ensures r.Some? ==> r.value < |t| && t[r.value].Value() == value
                        && forall j :: 0 <= j < r.value ==> t[j].Value() != value
    ensures r.None? ==> forall j :: 0 <= j < |t| ==> t[j].Value() != value
  {
    if t == [] then None
    else if t[0].Value() == value then Some(0)
    else
      match FindByValue(t[1..], value)
      case None => None
      case Some(i) => Some(i + 1)
  }

  /** `selectedOption`: the option whose value is the selected zone id, else
      the browser sentinel. */
  function SelectedOption(selectedTimezone: string): TimezoneOption
    requires |TimezoneOptions| > 0
  {
    match FindByValue(TimezoneOptions, selectedTimezone)
    case Some(i) => TimezoneOptions[i]
    case None => TimezoneOptions[0]
  }

  /** The selector shows the entry of a listed zone id, and the browser
      sentinel ("Browser Timezone", offset "Auto") for any other id. */
  lemma SelectedOptionFacts(selectedTimezone: string)
    ensures |TimezoneOptions| > 0
    ensures var o := SelectedOption(selectedTimezone);
            o in TimezoneOptions
            && ((exists i :: 0 <= i < |TimezoneOptions| && TimezoneOptions[i].Value() == selectedTimezone)
                  ==> o.Value() == selectedTimezone)
            && ((forall i :: 0 <= i < |TimezoneOptions| ==> TimezoneOptions[i].Value() != selectedTimezone)
                  ==> o == Tz(Browser, "Browser Timezone", Auto, None))
  {
    TableShape();
  }

  /** `handleChange`: the value passed to `onTimezoneChange`, or `None` when
      the callback is not called. */
  function HandleChange(option: Option<TimezoneOption>): (r: Option<string>)
    ensures r.Some? <==> option.Some?
  {
    match option
    case None => None
    case Some(o) => Some(o.Value())
  }

  /** Choosing the shown option reports the zone id it was looked up by,
      whenever that id is listed. */
  lemma ChangeToSelected(selectedTimezone: string, i: nat)
    requires i < |TimezoneOptions| && TimezoneOptions[i].Value() == selectedTimezone
    ensures HandleChange(Some(SelectedOption(selectedTimezone))) == Some(selectedTimezone)
  {
    SelectedOptionFacts(selectedTimezone);
  }

  /** `abbrev && abbrev.toLowerCase().includes(search)`: an absent or empty
      abbreviation is falsy. */
  predicate AbbrevMatches(o: TimezoneOption, search: string) {
    o.abbrev.Some? && o.abbrev.value != "" && Contains(ToLower(o.abbrev.value), search)
  }

  /** `filterOption`. The offset is searched for the lower-cased input but
      is not lower-cased itself. */
  predicate FilterOption(o: TimezoneOption, inputValue: string) {
    var searchValue := ToLower(inputValue);
    Contains(ToLower(o.displayLabel), searchValue)
    || Contains(ToLower(o.Value()), searchValue)
    || AbbrevMatches(o, searchValue)
    || Contains(o.OffsetLabel(), searchValue)
  }

  /** An empty search keeps every option. */
  lemma EmptySearchMatchesAll(o: TimezoneOption)
    ensures FilterOption(o, "")
  {
    ContainsEmpty(ToLower(o.displayLabel));
  }

  /** The search ignores the case of the input. */
  lemma SearchIgnoresCase(o: TimezoneOption, inputValue: string)
    ensures FilterOption(o, inputValue) <==> FilterOption(o, ToLower(inputValue))
  {
    ToLowerIdempotent(inputValue);
  }

  /** An option is found by its own label, its own zone id and its own
      non-empty abbreviation, typed in any case. */
  lemma OwnTextIsFound(o: TimezoneOption)
    ensures FilterOption(o, o.displayLabel)
    ensures FilterOption(o, o.Value())
    ensures o.abbrev.Some? && o.abbrev.value != "" ==> FilterOption(o, o.abbrev.value)
  {
    ContainsSelf(ToLower(o.displayLabel));
    ContainsSelf(ToLower(o.Value()));
    if o.abbrev.Some? {
      ContainsSelf(ToLower(o.abbrev.value));
    }
  }

  /** An empty abbreviation matches nothing, exactly like a missing one. */
  lemma EmptyAbbrevIsNoAbbrev(o: TimezoneOption, inputValue: string)
    ensures FilterOption(o.(abbrev := Some("")), inputValue) <==> FilterOption(o.(abbrev := None), inputValue)
  {
  }

  /** Because only the input is lower-cased, a search containing the letter
      'a' in either case never matches the offset "Auto" on its capital. */
  lemma AutoOffsetUnmatchedByA(inputValue: string)
    requires 'a' in inputValue || 'A' in inputValue
    ensures !Contains("Auto", ToLower(inputValue))
  {
    var search := ToLower(inputValue);
    assert 'a' in search;
    if Contains("Auto", search) {
      ContainsChar("Auto", search, 'a');
    }
  }

  /** Typing the browser sentinel's own offset, "Auto", does not find it. */
  lemma BrowserNotFoundByOffset()
    ensures !FilterOption(Tz(Browser, "Browser Timezone", Auto, None), "Auto")
  {
    var o := Tz(Browser, "Browser Timezone", Auto, None);
    var search := ToLower("Auto");
    assert search == "auto";
    AutoOffsetUnmatchedByA("Auto");
    assert 'a' !in ToLower(o.displayLabel);
    assert 'a' !in ToLower(o.Value());
    if Contains(ToLower(o.displayLabel), search) {
      ContainsChar(ToLower(o.displayLabel), search, 'a');
    }
    if Contains(ToLower(o.Value()), search) {
      ContainsChar(ToLower(o.Value()), search, 'a');
    }
  }
}
