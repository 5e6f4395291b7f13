// static/StringHelper.py (project 01): removal of one known prefix and one
// known suffix from a seal list's retailer name, and the search for a year
// in a date string.

module StringHelper {
  import opened Wrappers
  import opened Text

  /** The list Python iterates for an optional list argument: None behaves as an empty list. */
  function Items(xs: Option<seq<string>>): seq<string>
  {
    if xs.Some? then xs.value else []
  }

  // ---------------------------------------------------------------------------
  // strip_prefixes_suffixes
  // ---------------------------------------------------------------------------

  /** The prefix loop: the first prefix in list order that the text starts with is cut off. */
  function StripPrefix(text: string, prefixes: seq<string>): string
    decreases |prefixes|
  {
    if prefixes == [] then text
    else if StartsWith(text, prefixes[0]) then text[|prefixes[0]|..]
    else StripPrefix(text, prefixes[1..])
  }

  /**
   * The suffix loop as written: the first suffix in list order that the
   * text ends with is cut off by text[:-len(suffix)]; for the empty suffix
   * that slice is text[:-0], which is text[:0], the empty string.
   */
  function StripSuffixAsWritten(text: string, suffixes: seq<string>): string
    decreases |suffixes|
  {
    if suffixes == [] then text
    else if EndsWith(text, suffixes[0]) then
      if |suffixes[0]| == 0 then "" else text[..|text| - |suffixes[0]|]
    else StripSuffixAsWritten(text, suffixes[1..])
  }

  /** The suffix loop as intended: the first matching suffix is cut off, the empty one leaves the text as it is. */
  function StripSuffix(text: string, suffixes: seq<string>): string
    decreases |suffixes|
  {
    if suffixes == [] then text
    else if EndsWith(text, suffixes[0]) then text[..|text| - |suffixes[0]|]
    else StripSuffix(text, suffixes[1..])
  }

  /** strip_prefixes_suffixes as intended; the matching criteria use this one. */
  function StripAffixes(text: string, prefixes: seq<string>, suffixes: seq<string>): string
  {
    StripSuffix(StripPrefix(text, prefixes), suffixes)
  }

  /**
   * strip_prefixes_suffixes as written: the loop over the prefixes stops at
   * the first one the text starts with and cuts it off, then the loop over
   * the suffixes does the same at the end of the text.
   */
  method StripPrefixesSuffixes(text: string, prefixes: Option<seq<string>>, suffixes: Option<seq<string>>)
    returns (r: string)
    ensures r == StripSuffixAsWritten(StripPrefix(text, Items(prefixes)), Items(suffixes))
  {
    r := text;
    if prefixes.Some? && prefixes.value != [] {
      var i := 0;
      while i < |prefixes.value|
        invariant 0 <= i <= |prefixes.value|
        invariant StripPrefix(text, prefixes.value) == StripPrefix(text, prefixes.value[i..])
      {
        var prefix := prefixes.value[i];
        assert prefixes.value[i..][1..] == prefixes.value[i + 1..];
        if StartsWith(r, prefix) {
          r := r[|prefix|..];
          break;
        }
        i := i + 1;
      }
    }
    var middle := r;
    if suffixes.Some? && suffixes.value != [] {
      var i := 0;
      while i < |suffixes.value|
        invariant 0 <= i <= |suffixes.value|
        invariant r == middle
        invariant StripSuffixAsWritten(middle, suffixes.value) == StripSuffixAsWritten(middle, suffixes.value[i..])
      {
        var suffix := suffixes.value[i];
        assert suffixes.value[i..][1..] == suffixes.value[i + 1..];
        if EndsWith(r, suffix) {
          r := if |suffix| == 0 then "" else r[..|r| - |suffix|];
          break;
        }
        i := i + 1;
      }
    }
  }

  /**
   * At most one prefix is removed: either no prefix in the list starts the
   * text and it is unchanged, or the first one in list order that does is
   * cut off, so that it and the result make up the text.
   */
  lemma {:induction false} StripPrefixSpec(text: string, prefixes: seq<string>)
    ensures var r := StripPrefix(text, prefixes);
            ((forall k :: 0 <= k < |prefixes| ==> !StartsWith(text, prefixes[k])) && r == text)
            || (exists k :: 0 <= k < |prefixes| && StartsWith(text, prefixes[k])
                  && (forall j :: 0 <= j < k ==> !StartsWith(text, prefixes[j]))
                  && prefixes[k] + r == text)
    decreases |prefixes|
  {
    if prefixes != [] && !StartsWith(text, prefixes[0]) {
      var tail := prefixes[1..];
      StripPrefixSpec(text, tail);
      var r := StripPrefix(text, prefixes);
      if exists k :: 0 <= k < |tail| && StartsWith(text, tail[k])
                     && (forall j :: 0 <= j < k ==> !StartsWith(text, tail[j])) && tail[k] + r == text {
        var k :| 0 <= k < |tail| && StartsWith(text, tail[k])
                 && (forall j :: 0 <= j < k ==> !StartsWith(text, tail[j])) && tail[k] + r == text;
        assert prefixes[k + 1] == tail[k];
        assert forall j :: 1 <= j < k + 1 ==> prefixes[j] == tail[j - 1];
      } else {
        assert forall k :: 1 <= k < |prefixes| ==> prefixes[k] == tail[k - 1];
      }
    } else if prefixes != [] {
      assert prefixes[0] + text[|prefixes[0]|..] == text;
    }
  }

  /**
   * At most one suffix is removed: either no suffix in the list ends the
   * text and it is unchanged, or the first one in list order that does is
   * cut off, so that the result and it make up the text.
   */
  lemma {:induction false} StripSuffixSpec(text: string, suffixes: seq<string>)
    ensures var r := StripSuffix(text, suffixes);
            ((forall k :: 0 <= k < |suffixes| ==> !EndsWith(text, suffixes[k])) && r == text)
            || (exists k :: 0 <= k < |suffixes| && EndsWith(text, suffixes[k])
                  && (forall j :: 0 <= j < k ==> !EndsWith(text, suffixes[j]))
                  && r + suffixes[k] == text)
    decreases |suffixes|
  {
    if suffixes != [] && !EndsWith(text, suffixes[0]) {
      var tail := suffixes[1..];
      StripSuffixSpec(text, tail);
      var r := StripSuffix(text, suffixes);
      if exists k :: 0 <= k < |tail| && EndsWith(text, tail[k])
                     && (forall j :: 0 <= j < k ==> !EndsWith(text, tail[j])) && r + tail[k] == text {
        var k :| 0 <= k < |tail| && EndsWith(text, tail[k])
                 && (forall j :: 0 <= j < k ==> !EndsWith(text, tail[j])) && r + tail[k] == text;
        assert suffixes[k + 1] == tail[k];
        assert forall j :: 1 <= j < k + 1 ==> suffixes[j] == tail[j - 1];
      } else {
        assert forall k :: 1 <= k < |suffixes| ==> suffixes[k] == tail[k - 1];
      }
    } else if suffixes != [] {
      assert text[..|text| - |suffixes[0]|] + suffixes[0] == text;
    }
  }

  /** The prefix loop leaves a tail of the text. */
  lemma {:induction false} StripPrefixIsTail(text: string, prefixes: seq<string>)
    ensures var r := StripPrefix(text, prefixes);
            |r| <= |text| && r == text[|text| - |r|..]
    decreases |prefixes|
  {
    if prefixes != [] && !StartsWith(text, prefixes[0]) {
      StripPrefixIsTail(text, prefixes[1..]);
    }
  }

  /** The suffix loop leaves a head of the text. */
  lemma {:induction false} StripSuffixIsHead(text: string, suffixes: seq<string>)
    ensures var r := StripSuffix(text, suffixes);
            |r| <= |text| && r == text[..|r|]
    decreases |suffixes|
  {
    if suffixes != [] && !EndsWith(text, suffixes[0]) {
      StripSuffixIsHead(text, suffixes[1..]);
    }
  }

  /** The result is always one contiguous slice of the input; no lists leave the text unchanged. */
  lemma StripAffixesSlice(text: string, prefixes: seq<string>, suffixes: seq<string>)
    ensures var r := StripAffixes(text, prefixes, suffixes);
            exists i, j :: 0 <= i <= j <= |text| && r == text[i..j]
    ensures StripAffixes(text, [], []) == text
  {
    var m := StripPrefix(text, prefixes);
    StripPrefixIsTail(text, prefixes);
    StripSuffixIsHead(m, suffixes);
    var r := StripSuffix(m, suffixes);
    var i := |text| - |m|;
    assert r == text[i..i + |r|];
  }

  /** Without the empty suffix in the list, the code as written cuts exactly what is intended. */
  lemma {:induction false} StripSuffixAgrees(text: string, suffixes: seq<string>)
    requires forall k :: 0 <= k < |suffixes| ==> suffixes[k] != ""
    ensures StripSuffixAsWritten(text, suffixes) == StripSuffix(text, suffixes)
    decreases |suffixes|
  {
    if suffixes != [] {
      StripSuffixAgrees(text, suffixes[1..]);
    }
  }

  /**
   * The empty suffix, when it is the first suffix the text ends with,
   * empties the text as written, where the intended cut leaves it whole:
   * strip_prefixes_suffixes("shop", None, [""]) gives "" and not "shop".
   */
  lemma EmptySuffixEmptiesText(text: string, suffixes: seq<string>)
    requires suffixes != [] && suffixes[0] == ""
    ensures StripSuffixAsWritten(text, suffixes) == ""
    ensures StripSuffix(text, suffixes) == text
    ensures StripSuffixAsWritten("shop", [""]) == "" && StripSuffix("shop", [""]) == "shop"
  {
  }

  // ---------------------------------------------------------------------------
  // extract_year
  // ---------------------------------------------------------------------------

  /** Characters of \w, restricted to ASCII: letters, digits and the underscore. */
  predicate IsWordChar(c: char)
  {
    'a' <= c <= 'z' || 'A' <= c <= 'Z' || IsDigit(c) || c == '_'
  }

  /**
   * The pattern \b(19|20)\d{2}\b matches at position i: "19" or "20" and two
   * digits, with no word character just before or just after them.
   */
  predicate YearAt(s: string, i: int)
  {
    0 <= i && i + 4 <= |s|
    && ((s[i] == '1' && s[i + 1] == '9') || (s[i] == '2' && s[i + 1] == '0'))
    && IsDigit(s[i + 2]) && IsDigit(s[i + 3])
    && (i == 0 || !IsWordChar(s[i - 1]))
    && (i + 4 == |s| || !IsWordChar(s[i + 4]))
  }

  /** The number four digits at position i spell. */
  function FourDigits(s: string, i: int): int
    requires YearAt(s, i)
  {
    DigitValue(s[i]) * 1000 + DigitValue(s[i + 1]) * 100 + DigitValue(s[i + 2]) * 10 + DigitValue(s[i + 3])
  }

  /** re.search from position i on: the leftmost match. */
  function YearFrom(s: string, i: nat): Option<int>
    decreases |s| - i
  {
    if i + 4 > |s| then None
    else if YearAt(s, i) then Some(FourDigits(s, i))
    else YearFrom(s, i + 1)
  }

  /** extract_year: the year of the first match, or None. */
  function ExtractYear(s: string): Option<int>
  {
    YearFrom(s, 0)
  }

  lemma {:induction false} YearFromSpec(s: string, i: nat)
    ensures YearFrom(s, i).None? <==> forall k :: i <= k ==> !YearAt(s, k)
    ensures YearFrom(s, i).Some? ==>
              exists k :: i <= k && YearAt(s, k) && YearFrom(s, i).value == FourDigits(s, k)
                          && forall j :: i <= j < k ==> !YearAt(s, j)
    decreases |s| - i
  {
    if i + 4 <= |s| && !YearAt(s, i) {
      YearFromSpec(s, i + 1);
      if YearFrom(s, i).Some? {
        var k :| i + 1 <= k && YearAt(s, k) && YearFrom(s, i).value == FourDigits(s, k)
                 && forall j :: i + 1 <= j < k ==> !YearAt(s, j);
        assert forall j :: i <= j < k ==> !YearAt(s, j);
      }
    }
  }

  /**
   * extract_year gives the year of the leftmost word-bounded four-digit
   * number starting with 19 or 20, so one in 1900..2099, and None exactly
   * when there is no such number.
   */
  lemma ExtractYearSpec(s: string)
    ensures ExtractYear(s).None? <==> forall k :: !YearAt(s, k)
    ensures ExtractYear(s).Some? ==>
              1900 <= ExtractYear(s).value <= 2099
              && exists k :: YearAt(s, k) && ExtractYear(s).value == FourDigits(s, k)
                             && forall j :: 0 <= j < k ==> !YearAt(s, j)
  {
    YearFromSpec(s, 0);
    if ExtractYear(s).Some? {
      var k :| 0 <= k && YearAt(s, k) && ExtractYear(s).value == FourDigits(s, k)
               && forall j :: 0 <= j < k ==> !YearAt(s, j);
      YearRange(s, k);
    }
  }

  lemma YearRange(s: string, k: int)
    requires YearAt(s, k)
    ensures 1900 <= FourDigits(s, k) <= 2099
  {
  }
}
