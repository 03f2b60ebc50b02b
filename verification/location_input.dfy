/**
 * The location search box (src/components/LocationInput.tsx): a small
 * state machine over the query, the result list, the list's visibility
 * and the highlighted row, plus the country-code-to-flag mapping.
 */
module LocationInput {
  import opened Types
  import LocationService

  /** Queries shorter than this are not searched. */
  const MinQueryLength: nat := 2

  /** The keys handleKeyDown distinguishes; every other key is OtherKey. */
  datatype Key = ArrowDown | ArrowUp | Enter | Escape | OtherKey

  /** ArrowDown: the next row, wrapping from the last (or from none) to the first. */
  function NextIndex(index: int, len: nat): (next: int)
    requires len > 0
    ensures -1 <= index < len ==> 0 <= next < len
    ensures index == -1 ==> next == 0
  {
    if index < len - 1 then index + 1 else 0
  }

  /** ArrowUp: the previous row, wrapping from the first (or from none) to the last. */
  function PrevIndex(index: int, len: nat): (prev: int)
    requires len > 0
    ensures -1 <= index < len ==> 0 <= prev < len
    ensures index == -1 ==> prev == len - 1
  {
    if index > 0 then index - 1 else len - 1
  }

  /** On the rows of the list, ArrowUp undoes ArrowDown and ArrowDown undoes ArrowUp. */
  lemma ArrowsAreInverse(index: int, len: nat)
    requires 0 <= index < len
    ensures PrevIndex(NextIndex(index, len), len) == index
    ensures NextIndex(PrevIndex(index, len), len) == index
  {
  }

  /** ArrowDown pressed `n` times from row `index`. */
  function DownTimes(index: int, len: nat, n: nat): int
    requires len > 0
  {
    if n == 0 then index else NextIndex(DownTimes(index, len, n - 1), len)
  }

  /** Pressing ArrowDown `a` then `b` times is pressing it `a + b` times. */
  lemma {:induction false} DownTimesAdd(index: int, len: nat, a: nat, b: nat)
    requires len > 0
    ensures DownTimes(index, len, a + b) == DownTimes(DownTimes(index, len, a), len, b)
  {
    if b > 0 {
      DownTimesAdd(index, len, a, b - 1);
    }
  }

  /** Below the last row, each ArrowDown moves one row down. */
  lemma {:induction false} DownTimesAdvances(index: int, len: nat, n: nat)
    requires 0 <= index && index + n < len
    ensures DownTimes(index, len, n) == index + n
  {
    if n > 0 {
      DownTimesAdvances(index, len, n - 1);
    }
  }

  /** Pressing ArrowDown once per row comes back to the starting row. */
  lemma DownTimesFullCycle(index: int, len: nat)
    requires 0 <= index < len
    ensures DownTimes(index, len, len) == index
  {
    DownTimesAdd(index, len, len - 1 - index, index + 1);
    DownTimesAdvances(index, len, len - 1 - index);
    DownTimesAdd(len - 1, len, 1, index);
    assert DownTimes(len - 1, len, 1) == 0;
    DownTimesAdvances(0, len, index);
  }

  // ---------------------------------------------------------------------
  // UTF-16 code units: what `.length`, `charCodeAt` and a regular
  // expression without the `u` flag count
  // ---------------------------------------------------------------------

  /** The first code point that needs a surrogate pair. */
  const SupplementaryStart: int := 0x10000

  /** A character's UTF-16 code units: itself below U+10000, else a surrogate pair. */
  function CodeUnits(c: char): (u: seq<int>)
    ensures c as int < SupplementaryStart ==> u == [c as int]
    ensures c as int >= SupplementaryStart ==>
      |u| == 2 && 0xD800 <= u[0] < 0xDC00 && 0xDC00 <= u[1] < 0xE000 &&
      SupplementaryStart + (u[0] - 0xD800) * 0x400 + (u[1] - 0xDC00) == c as int
  {
    if c as int < SupplementaryStart then [c as int]
    else
      var v := c as int - SupplementaryStart;
      [0xD800 + v / 0x400, 0xDC00 + v % 0x400]
  }

  /** A string's UTF-16 code units, in order. */
  function Utf16(s: string): (u: seq<int>)
    ensures |u| >= |s|
    ensures forall i | 0 <= i < |u| :: 0 <= u[i] < SupplementaryStart
  {
    if s == [] then [] else CodeUnits(s[0]) + Utf16(s[1..])
  }

  /** A string is as long in code units as in characters iff it has no character above U+FFFF. */
  lemma {:induction false} Utf16LengthIsCharCount(s: string)
    ensures |Utf16(s)| == |s| <==> forall i | 0 <= i < |s| :: s[i] as int < SupplementaryStart
  {
    if s != [] {
      Utf16LengthIsCharCount(s[1..]);
      if s[0] as int < SupplementaryStart {
        forall i | 0 <= i < |s| && (forall j | 0 <= j < |s[1..]| :: s[1..][j] as int < SupplementaryStart)
          ensures s[i] as int < SupplementaryStart
        {
          if i > 0 {
            assert s[i] == s[1..][i - 1];
          }
        }
      }
    }
  }

  /** Below U+10000 the code units are the characters' codes. */
  lemma {:induction false} Utf16OfBasicPlane(s: string)
    requires forall i | 0 <= i < |s| :: s[i] as int < SupplementaryStart
    ensures |Utf16(s)| == |s|
    ensures forall i | 0 <= i < |s| :: Utf16(s)[i] == s[i] as int
  {
    if s != [] {
      Utf16OfBasicPlane(s[1..]);
      assert Utf16(s) == [s[0] as int] + Utf16(s[1..]);
    }
  }

  /** One character above U+FFFF is two code units, enough to be searched. */
  lemma SupplementaryCharIsSearched(c: char)
    requires c as int >= SupplementaryStart
    ensures |Utf16([c])| == MinQueryLength
  {
    assert [c][1..] == [];
  }

  class SearchBox {
    var query: string
    var results: seq<LocationData>
    var showResults: bool
    var selectedIndex: int

    /** The highlighted row is a row of the list, or -1 for none. */
    ghost predicate Valid()
      reads this
    {
      -1 <= selectedIndex < |results|
    }

    constructor ()
      ensures Valid()
      ensures query == "" && results == [] && !showResults && selectedIndex == -1
    {
      query := "";
      results := [];
      showResults := false;
      selectedIndex := -1;
    }

    /** handleSearch: searches from two UTF-16 code units on, otherwise clears the list. */
    method HandleSearch(searchQuery: string)
      modifies this`results, this`showResults, this`selectedIndex
      ensures Valid() && selectedIndex == -1
      ensures |Utf16(searchQuery)| < MinQueryLength ==> results == [] && !showResults
      ensures |Utf16(searchQuery)| >= MinQueryLength ==>
        results == LocationService.SearchLocations(searchQuery) && showResults
    {
      if |Utf16(searchQuery)| < MinQueryLength {
        results := [];
        showResults := false;
        selectedIndex := -1;
        return;
      }
      results := LocationService.SearchLocations(searchQuery);
      showResults := true;
      selectedIndex := -1;
    }

    /** handleInputChange: stores the text and searches it. */
    method HandleInputChange(value: string)
      modifies this
      ensures Valid() && query == value && selectedIndex == -1
      ensures |Utf16(value)| < MinQueryLength ==> results == [] && !showResults
      ensures |Utf16(value)| >= MinQueryLength ==>
        results == LocationService.SearchLocations(value) && showResults
    {
      query := value;
      HandleSearch(value);
    }

    /**
     * handleLocationSelect: hands the record to the caller (the session's
     * addLocation) and resets the box.
     */
    method HandleLocationSelect(location: LocationData) returns (forwarded: LocationData)
      modifies this
      ensures forwarded == location
      ensures Valid() && query == "" && results == [] && !showResults && selectedIndex == -1
    {
      forwarded := location;
      query := "";
      results := [];
      showResults := false;
      selectedIndex := -1;
    }

    /**
     * The list's container is rendered, so the results ref is attached,
     * only while the list is shown and non-empty.
     */
    predicate ListRendered()
      reads this
    {
      showResults && results != []
    }

    /**
     * The mousedown listener for a click outside the input and the list:
     * it hides the list only when the list's container is rendered, so a
     * shown "No locations found" message stays.
     */
    method ClickOutside()
      modifies this`showResults
      ensures old(ListRendered()) ==> !showResults
      ensures !old(ListRendered()) ==> showResults == old(showResults)
      ensures showResults ==> results == []
    {
      if ListRendered() {
        showResults := false;
      }
    }

    /**
     * handleKeyDown: arrow navigation with wrap-around, Enter selects the
     * highlighted row, Escape hides the list; every key does nothing
     * while the list is hidden or empty. `selected` is the record Enter
     * hands on, if any.
     */
    method HandleKeyDown(key: Key) returns (selected: Option<LocationData>)
      requires Valid()
      modifies this
      ensures Valid()
      ensures selected.Some? ==>
        (old(showResults) && key == Enter && 0 <= old(selectedIndex) < old(|results|) &&
         selected.value == old(results)[old(selectedIndex)] &&
         query == "" && results == [] && !showResults && selectedIndex == -1)
      ensures (!old(showResults) || old(results) == [] || key == OtherKey ||
               (key == Enter && old(selectedIndex) == -1)) ==>
        selected == None && query == old(query) && results == old(results) &&
        showResults == old(showResults) && selectedIndex == old(selectedIndex)
      ensures old(showResults) && old(results) != [] && key == ArrowDown ==>
        selectedIndex == NextIndex(old(selectedIndex), old(|results|)) && 0 <= selectedIndex < |results| &&
        query == old(query) && results == old(results) && showResults
      ensures old(showResults) && old(results) != [] && key == ArrowUp ==>
        selectedIndex == PrevIndex(old(selectedIndex), old(|results|)) && 0 <= selectedIndex < |results| &&
        query == old(query) && results == old(results) && showResults
      ensures old(showResults) && old(results) != [] && key == Enter && old(selectedIndex) >= 0 ==>
        selected == Some(old(results)[old(selectedIndex)])
      ensures old(showResults) && old(results) != [] && key == Escape ==>
        selected == None && !showResults && selectedIndex == -1 &&
        query == old(query) && results == old(results)
    {
      selected := None;
      if !showResults || |results| == 0 {
        return;
      }
      match key {
        case ArrowDown =>
          selectedIndex := NextIndex(selectedIndex, |results|);
        case ArrowUp =>
          selectedIndex := PrevIndex(selectedIndex, |results|);
        case Enter =>
          if selectedIndex >= 0 && selectedIndex < |results| {
            var location := HandleLocationSelect(results[selectedIndex]);
            selected := Some(location);
          }
        case Escape =>
          showResults := false;
          selectedIndex := -1;
        case OtherKey =>
      }
    }
  }

  // ---------------------------------------------------------------------
  // getFlagEmoji
  // ---------------------------------------------------------------------

  /** Added to a capital letter's code, it gives the regional indicator symbol. */
  const RegionalIndicatorOffset: int := 127397

  /** toUpperCase on one character (ASCII letters only). */
  function UpperChar(c: char): char
  {
    if 'a' <= c <= 'z' then (c as int - 32) as char else c
  }

  /**
   * toUpperCase (ASCII letters only): no lower-case ASCII letter is left,
   * every other character is kept, and the search's lower-casing cannot
   * tell the result from the input.
   */
  function Upper(s: string): (u: string)
    ensures |u| == |s|
    ensures forall i | 0 <= i < |u| :: !('a' <= u[i] <= 'z')
    ensures forall i | 0 <= i < |s| && !('a' <= s[i] <= 'z') :: u[i] == s[i]
    ensures LocationService.Lower(u) == LocationService.Lower(s)
  {
    seq(|s|, i requires 0 <= i < |s| => UpperChar(s[i]))
  }

  /** Upper-casing ASCII letters keeps the number of code units. */
  lemma {:induction false} UpperKeepsUtf16Length(s: string)
    ensures |Utf16(Upper(s))| == |Utf16(s)|
  {
    if s != [] {
      assert Upper(s)[1..] == Upper(s[1..]);
      UpperKeepsUtf16Length(s[1..]);
    }
  }

  /** Code units the regular expression `.` does not match. */
  predicate IsLineTerminator(unit: int)
  {
    unit == 0x0A || unit == 0x0D || unit == 0x2028 || unit == 0x2029
  }

  /** The code point the replacement gives one code unit of the upper-cased code. */
  function FlagCodePoint(unit: int): int
  {
    if IsLineTerminator(unit) then unit else RegionalIndicatorOffset + unit
  }

  /**
   * getFlagEmoji, as a sequence of code points: each UTF-16 code unit of
   * the upper-cased code is shifted by 127397 (line terminators, which
   * `.` does not match, stay as they are).
   */
  function FlagEmoji(countryCode: string): (r: seq<int>)
    ensures |r| == |Utf16(countryCode)|
  {
    var units := Utf16(Upper(countryCode));
    UpperKeepsUtf16Length(countryCode);
    seq(|units|, i requires 0 <= i < |units| => FlagCodePoint(units[i]))
  }

  /** Undoes the shift of one code point. */
  function UnshiftCodePoint(p: int): int
  {
    if p >= RegionalIndicatorOffset then p - RegionalIndicatorOffset else p
  }

  /** The flag gives back the upper-cased code, code unit by code unit. */
  lemma FlagEmojiRoundTrip(countryCode: string)
    ensures var r, units := FlagEmoji(countryCode), Utf16(Upper(countryCode));
      |r| == |units| &&
      (forall i | 0 <= i < |r| :: UnshiftCodePoint(r[i]) == units[i]) &&
      (forall i | 0 <= i < |r| && !IsLineTerminator(units[i]) :: r[i] == RegionalIndicatorOffset + units[i]) &&
      (forall i | 0 <= i < |r| && IsLineTerminator(units[i]) :: r[i] == units[i])
  {
  }

  /** Letters of either case become regional indicators U+1F1E6..U+1F1FF, 'A' first. */
  lemma LettersBecomeRegionalIndicators(c: char)
    requires 'A' <= c <= 'Z' || 'a' <= c <= 'z'
    ensures |FlagEmoji([c])| == 1
    ensures 0x1F1E6 <= FlagEmoji([c])[0] <= 0x1F1FF
    ensures FlagEmoji([c])[0] == 0x1F1E6 + (UpperChar(c) as int - 'A' as int)
  {
    assert Upper([c]) == [UpperChar(c)];
    assert Utf16([UpperChar(c)]) == [UpperChar(c) as int];
  }

  /** 'A' is U+1F1E6, and "gb" gives the same flag as "GB". */
  lemma FlagSamples()
    ensures FlagEmoji("A") == [0x1F1E6]
    ensures FlagEmoji("gb") == FlagEmoji("GB") == [0x1F1EC, 0x1F1E7]
  {
    LettersBecomeRegionalIndicators('A');
    assert Upper("gb") == Upper("GB") == "GB";
    Utf16OfBasicPlane("GB");
  }

  /** Distinct upper-case codes give distinct flags. */
  lemma FlagEmojiInjective(a: string, b: string)
    requires forall i | 0 <= i < |a| :: 'A' <= a[i] <= 'Z'
    requires forall i | 0 <= i < |b| :: 'A' <= b[i] <= 'Z'
    requires FlagEmoji(a) == FlagEmoji(b)
    ensures a == b
  {
    assert Upper(a) == a && Upper(b) == b;
    Utf16OfBasicPlane(a);
    Utf16OfBasicPlane(b);
    assert |a| == |b|;
    forall i | 0 <= i < |a|
      ensures a[i] == b[i]
    {
      assert FlagEmoji(a)[i] == FlagEmoji(b)[i];
    }
  }
}
