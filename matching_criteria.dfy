// src/MatchingCriteria.py (project 01): the criteria that propose Geizhals
// retailer names for a retailer name from a seal list. Each criterion gets
// the seal list's name and the retailer column of the filtered retailers.

module MatchingCriteria {
  import opened Wrappers
  import opened Seqs
  import opened Text
  import opened StringHelper

  /** CONFIG.GUETESIEGEL_NAME_PREFIXES ("shop." twice, as in the configuration). */
  const NamePrefixes: seq<string> := ["https://", "http://", "eshop.", "shop.", "www.", "shop."]
  /** CONFIG.GUETESIEGEL_NAME_SUFFIXES. */
  const NameSuffixes: seq<string> :=
    ["/shop", "/de-AT", "/webshop", "/marktplatz", "/onlineshop", "/at", "/at/shop", "/de", "/george"]
  /** CONFIG.INSUFFICIENT_RETAILER_MATCH_SUFFIXES. */
  const InsufficientSuffixes: seq<string> := ["-at", "-uk", "-de", "-com"]

  /** The configured suffixes are not empty, so the suffix loop cuts each of them as intended. */
  lemma NameSuffixesAgree(text: string)
    ensures StripSuffixAsWritten(text, NameSuffixes) == StripSuffix(text, NameSuffixes)
  {
    StripSuffixAgrees(text, NameSuffixes);
  }

  // ---------------------------------------------------------------------------
  // Simple and Handelsverband criteria
  // ---------------------------------------------------------------------------

  /** The candidate of the simple criterion: suffixes stripped, every '.' turned into '-'. */
  function SimpleCandidate(name: string): string
  {
    ReplaceChar(StripAffixes(name, [], NameSuffixes), '.', '-')
  }

  /** matching_criteria_simple: the candidate when it is a retailer name, else None. */
  function Simple(name: string, retailers: seq<string>): (r: Option<string>)
    ensures r.Some? <==> SimpleCandidate(name) in retailers
    ensures r.Some? ==> r.value == SimpleCandidate(name) && '.' !in r.value
  {
    var candidate := SimpleCandidate(name);
    if candidate in retailers then Some(candidate) else None
  }

  /** The candidate of a "www." name: every '.' turned into '-', then every "www-" deleted. */
  function WwwCandidate(name: string): string
  {
    ReplaceAll(ReplaceChar(name, '.', '-'), "www-", "")
  }

  /**
   * matching_criteria_handelsverband: a name starting with "www." proposes
   * its www-candidate when that is a retailer name; other names go to the
   * simple criterion.
   */
  function Handelsverband(name: string, retailers: seq<string>): Option<string>
  {
    if StartsWith(name, "www.") then
      var candidate := WwwCandidate(name);
      if candidate in retailers then Some(candidate) else None
    else Simple(name, retailers)
  }

  lemma ReplaceCharAppend(a: string, b: string, x: char, y: char)
    ensures ReplaceChar(a + b, x, y) == ReplaceChar(a, x, y) + ReplaceChar(b, x, y)
  {
  }

  /**
   * A "www." name proposes its rest with dots turned into dashes and every
   * "www-" deleted, and only when that is a retailer name; any other name
   * proposes what the simple criterion proposes. A proposal is always a
   * retailer name.
   */
  lemma HandelsverbandSpec(name: string, retailers: seq<string>)
    ensures var r := Handelsverband(name, retailers);
            (r.Some? ==> r.value in retailers)
            && (!StartsWith(name, "www.") ==> r == Simple(name, retailers))
            && (StartsWith(name, "www.") ==>
                  var candidate := ReplaceAll(ReplaceChar(name[4..], '.', '-'), "www-", "");
                  (r.Some? <==> candidate in retailers) && (r.Some? ==> r.value == candidate))
  {
    if StartsWith(name, "www.") {
      assert name == "www." + name[4..];
      ReplaceCharAppend("www.", name[4..], '.', '-');
      var rest := ReplaceChar(name[4..], '.', '-');
      assert ReplaceChar(name, '.', '-') == "www-" + rest;
      assert ReplaceAll("www-" + rest, "www-", "") == ReplaceAll(rest, "www-", "");
    }
  }

  // ---------------------------------------------------------------------------
  // Advanced criteria
  // ---------------------------------------------------------------------------

  /** Python's bound for a slice index: negative counts from the end, both are clipped to the string. */
  function SliceIndex(s: string, n: int): (k: nat)
    ensures k <= |s|
  {
    if n < 0 then (if |s| + n < 0 then 0 else |s| + n) else if n > |s| then |s| else n
  }

  /** stripped[:n]. */
  function Front(s: string, n: int): string { s[..SliceIndex(s, n)] }

  /** stripped[-n:]. */
  function Back(s: string, n: int): string { s[SliceIndex(s, -n)..] }

  /** The tail of the name is usable only when it contains no insufficient suffix and is not one. */
  predicate SufficientTail(tail: string)
  {
    (forall k :: 0 <= k < |InsufficientSuffixes| ==> !Contains(tail, InsufficientSuffixes[k]))
    && tail !in InsufficientSuffixes
  }

  /** The test of _matching_criteria_advanced for one retailer. */
  predicate Keeps(stripped: string, nchars: int, retailer: string)
  {
    StartsWith(retailer, Front(stripped, nchars))
    || (EndsWith(retailer, Back(stripped, nchars)) && SufficientTail(Back(stripped, nchars)))
  }

  function KeepsFor(stripped: string, nchars: int): string -> bool
  {
    retailer => Keeps(stripped, nchars, retailer)
  }

  /** The retailers _matching_criteria_advanced proposes, in retailer order. */
  function AdvancedMatches(name: string, retailers: seq<string>, nchars: int): seq<string>
  {
    Filter(retailers, KeepsFor(StripAffixes(name, NamePrefixes, NameSuffixes), nchars))
  }

  /**
   * _matching_criteria_advanced: strips the name, then appends, in retailer
   * order, each retailer that starts with the first nchars characters of
   * the stripped name or ends with its last nchars characters when those
   * are a sufficient tail.
   */
  method AdvancedCandidates(name: string, retailers: seq<string>, nchars: int) returns (matches: seq<string>)
    ensures matches == AdvancedMatches(name, retailers, nchars)
  {
    var stripped := StripPrefixesSuffixes(name, Some(NamePrefixes), Some(NameSuffixes));
    NameSuffixesAgree(StripPrefix(name, NamePrefixes));
    matches := CollectMatches(stripped, retailers, nchars);
  }

  /** The loop of _matching_criteria_advanced over the retailer column. */
  method CollectMatches(stripped: string, retailers: seq<string>, nchars: int) returns (matches: seq<string>)
    ensures matches == Filter(retailers, KeepsFor(stripped, nchars))
  {
    matches := [];
    var i := 0;
    while i < |retailers|
      invariant 0 <= i <= |retailers|
      invariant matches == Filter(retailers[..i], KeepsFor(stripped, nchars))
    {
      var retailer := retailers[i];
      var front := stripped[..SliceIndex(stripped, nchars)];
      var back := stripped[SliceIndex(stripped, -nchars)..];
      FilterSnoc(retailers[..i], retailer, KeepsFor(stripped, nchars));
      TakeSnoc(retailers, i);
      if StartsWith(retailer, front)
         || (EndsWith(retailer, back)
             && (forall k :: 0 <= k < |InsufficientSuffixes| ==> !Contains(back, InsufficientSuffixes[k]))
             && back !in InsufficientSuffixes) {
        matches := matches + [retailer];
      }
      i := i + 1;
    }
    assert retailers[..i] == retailers;
  }

  /** The n of matching_criteria_advanced: 3 for a name shorter than 6 characters, else 5. */
  function AdvancedChars(name: string): int { if |name| < 6 then 3 else 5 }

  /** The n of matching_criteria_advanced2: 3 when the first '.' is at index 3 or less or absent, else 4. */
  function Advanced2Chars(name: string): int { if Find(name, '.') <= 3 then 3 else 4 }

  /** matching_criteria_advanced. */
  method Advanced(name: string, retailers: seq<string>) returns (matches: seq<string>)
    ensures matches == AdvancedMatches(name, retailers, AdvancedChars(name))
  {
    matches := AdvancedCandidates(name, retailers, if |name| < 6 then 3 else 5);
  }

  /** matching_criteria_advanced2. */
  method Advanced2(name: string, retailers: seq<string>) returns (matches: seq<string>)
    ensures matches == AdvancedMatches(name, retailers, Advanced2Chars(name))
  {
    matches := AdvancedCandidates(name, retailers, if Find(name, '.') <= 3 then 3 else 4);
  }

  /**
   * The advanced criteria propose exactly the retailers that pass the test,
   * each as often and in the order it appears among the retailers.
   */
  lemma AdvancedMatchesSpec(name: string, retailers: seq<string>, nchars: int)
    ensures var stripped := StripAffixes(name, NamePrefixes, NameSuffixes);
            var r := AdvancedMatches(name, retailers, nchars);
            Subseq(r, retailers)
            && forall x :: x in r <==> x in retailers && Keeps(stripped, nchars, x)
  {
    var stripped := StripAffixes(name, NamePrefixes, NameSuffixes);
    FilterMembers(retailers, KeepsFor(stripped, nchars));
    FilterIsSubseq(retailers, KeepsFor(stripped, nchars));
  }

  /** A name that strips to nothing matches every retailer, since every string starts with "". */
  lemma EmptyStrippedMatchesAll(name: string, retailers: seq<string>, nchars: int)
    requires StripAffixes(name, NamePrefixes, NameSuffixes) == ""
    ensures AdvancedMatches(name, retailers, nchars) == retailers
  {
    FilterAll(retailers, KeepsFor("", nchars));
  }

  /** For example "www." strips to nothing. */
  lemma WwwStripsToNothing()
    ensures StripAffixes("www.", NamePrefixes, NameSuffixes) == ""
  {
  }

  /** The advanced criterion's n: 3 below six characters, else 5; the second one's: 3 or 4 by the first dot. */
  lemma AdvancedCharsSpec(name: string)
    ensures AdvancedChars(name) == 3 <==> |name| < 6
    ensures AdvancedChars(name) in {3, 5} && Advanced2Chars(name) in {3, 4}
    ensures Advanced2Chars(name) == 4 <==> exists k :: 3 < k < |name| && name[k] == '.' && '.' !in name[..k]
  {
    var f := Find(name, '.');
    if f > 3 {
      assert name[f] == '.' && '.' !in name[..f];
    }
    if exists k :: 3 < k < |name| && name[k] == '.' && '.' !in name[..k] {
      var k :| 3 < k < |name| && name[k] == '.' && '.' !in name[..k];
      assert forall j :: 0 <= j < k ==> name[..k][j] == name[j];
    }
  }

  // ---------------------------------------------------------------------------
  // The cases of test/MatchingCriteriaAdvancedTest.py
  // ---------------------------------------------------------------------------

  const TestRetailers: seq<string> := ["retailer-1", "retailer-2", "retailer-3", "geizhals"]

  /** A name that starts with none of h, e, s, w and holds no '/' is left as it is by the stripping. */
  lemma StripsNothing(name: string)
    requires name != [] && name[0] !in "hesw" && '/' !in name
    ensures StripAffixes(name, NamePrefixes, NameSuffixes) == name
  {
    forall k | 0 <= k < |NamePrefixes| ensures !StartsWith(name, NamePrefixes[k]) {
      assert NamePrefixes[k][0] in "hesw";
    }
    StripPrefixSpec(name, NamePrefixes);
    forall k | 0 <= k < |NameSuffixes| ensures !EndsWith(name, NameSuffixes[k]) {
      var sfx := NameSuffixes[k];
      assert sfx[0] == '/';
      if |sfx| <= |name| {
        assert name[|name| - |sfx|..][0] == name[|name| - |sfx|] != sfx[0];
      }
    }
    StripSuffixSpec(name, NameSuffixes);
  }

  /** Filtering four retailers keeps each one that passes, in order. */
  lemma KeepsOfFour(stripped: string, nchars: int, a: string, b: string, c: string, d: string)
    ensures Filter([a, b, c, d], KeepsFor(stripped, nchars))
            == (if Keeps(stripped, nchars, a) then [a] else []) + (if Keeps(stripped, nchars, b) then [b] else [])
               + (if Keeps(stripped, nchars, c) then [c] else []) + (if Keeps(stripped, nchars, d) then [d] else [])
  {
    var p := KeepsFor(stripped, nchars);
    assert Filter([d], p) == (if p(d) then [d] else []) by { assert [d][1..] == []; }
    assert Filter([c, d], p) == (if p(c) then [c] else []) + Filter([d], p) by { assert [c, d][1..] == [d]; }
    assert Filter([b, c, d], p) == (if p(b) then [b] else []) + Filter([c, d], p) by { assert [b, c, d][1..] == [c, d]; }
    assert [a, b, c, d][1..] == [b, c, d];
  }

  /** A retailer that begins with the front of the stripped name is kept. */
  lemma KeptByFront(stripped: string, nchars: int, front: string, retailer: string, rest: string)
    requires Front(stripped, nchars) == front && retailer == front + rest
    ensures Keeps(stripped, nchars, retailer)
  {
    assert retailer[..|front|] == front;
  }

  /** A string none of whose first |t| - 1 ... positions holds t's first character does not contain t. */
  lemma {:induction false} NotContainsByFirst(s: string, t: string)
    requires t != [] && forall k :: 0 <= k && k + |t| <= |s| ==> s[k] != t[0]
    ensures !Contains(s, t)
    decreases |s|
  {
    if |t| <= |s| {
      assert s[0] != t[0];
    }
    if |s| > 0 {
      forall k | 0 <= k && k + |t| <= |s[1..]| ensures s[1..][k] != t[0] {
        assert s[1..][k] == s[k + 1];
      }
      NotContainsByFirst(s[1..], t);
    }
  }

  /**
   * Every insufficient suffix starts with '-' and has at least three
   * characters, so a tail without a '-' early enough to start one is usable.
   */
  lemma SufficientWithoutDash(tail: string)
    requires tail != [] && tail[0] != '-'
    requires forall k :: 0 <= k && k + 3 <= |tail| ==> tail[k] != '-'
    ensures SufficientTail(tail)
  {
    forall k | 0 <= k < |InsufficientSuffixes| ensures !Contains(tail, InsufficientSuffixes[k]) {
      var t := InsufficientSuffixes[k];
      assert t[0] == '-' && |t| >= 3;
      NotContainsByFirst(tail, t);
    }
  }

  /** A retailer that begins with the front of the stripped name is kept, by the tail when it ends with the back. */
  lemma KeptByBack(stripped: string, nchars: int, back: string, retailer: string, rest: string)
    requires Back(stripped, nchars) == back && retailer == rest + back && SufficientTail(back)
    ensures Keeps(stripped, nchars, retailer)
  {
    assert retailer[|retailer| - |back|..] == back;
  }

  /** A retailer that neither begins with the front nor ends with the back is dropped. */
  lemma DroppedAt(stripped: string, nchars: int, retailer: string, i: nat, j: nat)
    requires i < |Front(stripped, nchars)| && i < |retailer| && retailer[i] != Front(stripped, nchars)[i]
    requires var back := Back(stripped, nchars);
             |back| <= |retailer| && j < |back| && retailer[|retailer| - |back| + j] != back[j]
    ensures !Keeps(stripped, nchars, retailer)
  {
    var back := Back(stripped, nchars);
    assert retailer[|retailer| - |back|..][j] == retailer[|retailer| - |back| + j];
  }

  /** Every retailer-n starts with "retai"; "geizhals" starts with neither it nor a five-character back "l...". */
  lemma RetaiKeeps(stripped: string, nchars: int)
    requires Front(stripped, nchars) == "retai"
    requires |Back(stripped, nchars)| == 5 && Back(stripped, nchars)[0] == 'l'
    ensures Keeps(stripped, nchars, "retailer-1") && Keeps(stripped, nchars, "retailer-2")
    ensures Keeps(stripped, nchars, "retailer-3") && !Keeps(stripped, nchars, "geizhals")
  {
    KeptByFront(stripped, nchars, "retai", "retailer-1", "ler-1");
    KeptByFront(stripped, nchars, "retai", "retailer-2", "ler-2");
    KeptByFront(stripped, nchars, "retai", "retailer-3", "ler-3");
    DroppedAt(stripped, nchars, "geizhals", 0, 0);
  }

  /** "retailer-3" shares its first five characters with every retailer-n. */
  lemma AdvancedTestFullName()
    ensures AdvancedMatches("retailer-3", TestRetailers, AdvancedChars("retailer-3"))
            == ["retailer-1", "retailer-2", "retailer-3"]
  {
    StripsNothing("retailer-3");
    assert Front("retailer-3", 5) == "retai" && Back("retailer-3", 5) == "ler-3";
    RetaiKeeps("retailer-3", 5);
    KeepsOfFour("retailer-3", 5, "retailer-1", "retailer-2", "retailer-3", "geizhals");
  }

  /** The domain name "retailer-2" (from "https://retailer-2.com/shop") matches every retailer-n too. */
  lemma AdvancedTestDomainName()
    ensures AdvancedMatches("retailer-2", TestRetailers, AdvancedChars("retailer-2"))
            == ["retailer-1", "retailer-2", "retailer-3"]
  {
    StripsNothing("retailer-2");
    assert Front("retailer-2", 5) == "retai" && Back("retailer-2", 5) == "ler-2";
    RetaiKeeps("retailer-2", 5);
    KeepsOfFour("retailer-2", 5, "retailer-1", "retailer-2", "retailer-3", "geizhals");
  }

  /** Behind a front "ailer" and a back "ler-2" only "retailer-2" is kept, by its tail. */
  lemma Ler2Keeps(stripped: string, nchars: int)
    requires Front(stripped, nchars) == "ailer" && Back(stripped, nchars) == "ler-2"
    ensures !Keeps(stripped, nchars, "retailer-1") && Keeps(stripped, nchars, "retailer-2")
    ensures !Keeps(stripped, nchars, "retailer-3") && !Keeps(stripped, nchars, "geizhals")
  {
    SufficientWithoutDash("ler-2");
    DroppedAt(stripped, nchars, "retailer-1", 0, 4);
    KeptByBack(stripped, nchars, "ler-2", "retailer-2", "retai");
    DroppedAt(stripped, nchars, "retailer-3", 0, 4);
    DroppedAt(stripped, nchars, "geizhals", 0, 0);
  }

  /** "ailer-2" starts no retailer name; only "retailer-2" ends with its last five characters. */
  lemma AdvancedTestTailOnly()
    ensures AdvancedMatches("ailer-2", TestRetailers, AdvancedChars("ailer-2")) == ["retailer-2"]
  {
    StripsNothing("ailer-2");
    assert Front("ailer-2", 5) == "ailer" && Back("ailer-2", 5) == "ler-2";
    Ler2Keeps("ailer-2", 5);
    KeepsOfFour("ailer-2", 5, "retailer-1", "retailer-2", "retailer-3", "geizhals");
  }

  /** Behind a front "zha" and a back "als" only "geizhals" is kept, by its tail. */
  lemma AlsKeeps(stripped: string, nchars: int)
    requires Front(stripped, nchars) == "zha" && Back(stripped, nchars) == "als"
    ensures !Keeps(stripped, nchars, "retailer-1") && !Keeps(stripped, nchars, "retailer-2")
    ensures !Keeps(stripped, nchars, "retailer-3") && Keeps(stripped, nchars, "geizhals")
  {
    SufficientWithoutDash("als");
    DroppedAt(stripped, nchars, "retailer-1", 0, 0);
    DroppedAt(stripped, nchars, "retailer-2", 0, 0);
    DroppedAt(stripped, nchars, "retailer-3", 0, 0);
    KeptByBack(stripped, nchars, "als", "geizhals", "geizh");
  }

  /** "zhals" is short, so its last three characters "als" pick out "geizhals". */
  lemma AdvancedTestShortName()
    ensures AdvancedMatches("zhals", TestRetailers, AdvancedChars("zhals")) == ["geizhals"]
  {
    StripsNothing("zhals");
    assert Front("zhals", 3) == "zha" && Back("zhals", 3) == "als";
    AlsKeeps("zhals", 3);
    KeepsOfFour("zhals", 3, "retailer-1", "retailer-2", "retailer-3", "geizhals");
  }

  /** Behind a front "geizh" and a five-character back not ending in 1, 2 or 3 only "geizhals" is kept. */
  lemma GeizhKeeps(stripped: string, nchars: int)
    requires Front(stripped, nchars) == "geizh"
    requires |Back(stripped, nchars)| == 5 && Back(stripped, nchars)[4] !in "123"
    ensures !Keeps(stripped, nchars, "retailer-1") && !Keeps(stripped, nchars, "retailer-2")
    ensures !Keeps(stripped, nchars, "retailer-3") && Keeps(stripped, nchars, "geizhals")
  {
    DroppedAt(stripped, nchars, "retailer-1", 0, 4);
    DroppedAt(stripped, nchars, "retailer-2", 0, 4);
    DroppedAt(stripped, nchars, "retailer-3", 0, 4);
    KeptByFront(stripped, nchars, "geizh", "geizhals", "als");
  }

  /** "geizhals" matches itself and no retailer-n. */
  lemma AdvancedTestSelf()
    ensures AdvancedMatches("geizhals", TestRetailers, AdvancedChars("geizhals")) == ["geizhals"]
  {
    StripsNothing("geizhals");
    assert Front("geizhals", 5) == "geizh" && Back("geizhals", 5) == "zhals";
    GeizhKeeps("geizhals", 5);
    KeepsOfFour("geizhals", 5, "retailer-1", "retailer-2", "retailer-3", "geizhals");
  }

  /** "https://geizh.com/shop" loses its scheme and its "/shop". */
  lemma StripsUrl()
    ensures StripAffixes("https://geizh.com/shop", NamePrefixes, NameSuffixes) == "geizh.com"
  {
    var url := "https://geizh.com/shop";
    assert url[..8] == "https://" && url[8..] == "geizh.com/shop";
    assert StripPrefix(url, NamePrefixes) == "geizh.com/shop";
    var rest := "geizh.com/shop";
    assert rest[9..] == "/shop" && rest[..9] == "geizh.com";
  }

  /** The URL "https://geizh.com/shop" strips to "geizh.com", whose first five characters start "geizhals". */
  lemma AdvancedTestUrl()
    ensures AdvancedMatches("https://geizh.com/shop", TestRetailers, AdvancedChars("https://geizh.com/shop"))
            == ["geizhals"]
  {
    StripsUrl();
    assert Front("geizh.com", 5) == "geizh" && Back("geizh.com", 5) == "h.com";
    GeizhKeeps("geizh.com", 5);
    KeepsOfFour("geizh.com", 5, "retailer-1", "retailer-2", "retailer-3", "geizhals");
  }
}
