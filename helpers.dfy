// impl/helpers.py: the week running variable t and its inverse, the
// week/year rollover, the partition-file name generators, the start of a
// week, the offer inflow window and the folder search for a partition file.
// Unix times are ints read as UTC; date strings (strptime) are not modelled,
// so seal dates arrive as Unix seconds.

module Helpers {
  import opened Wrappers
  import opened Text
  import opened Calendar
  import opened Seqs

  /** Unix time of week 0 of the running variable (CONFIG.UNIX_TIME_ORIGIN). */
  const UnixTimeOrigin: int := 1179093600
  /** CONFIG.OFFER_TIME_SPELLS_PREPROCESSING_WEEKS_PRE_SEAL_CONSIDERED and ..._POST_... */
  const PreSealWeeks: int := 52
  const PostSealWeeks: int := 26

  function Abs(x: int): nat { if x < 0 then -x else x }

  /** Python int(a / b): the quotient truncated toward zero. */
  function TruncDiv(a: int, b: int): int
    requires b != 0
  {
    var q := Abs(a) / Abs(b);
    if (a < 0) != (b < 0) then -q else q
  }

  /** calculate_running_var_t_from_u with explicit origin and week length. */
  function RunningVarWith(u: int, origin: int, week: int): int
    requires week != 0
  {
    TruncDiv(u - origin, week)
  }

  /** calculate_running_var_t_from_u with its default origin and week. */
  function RunningVar(u: int): int
  {
    RunningVarWith(u, UnixTimeOrigin, UnixWeek)
  }

  /** The Python value handed to calculate_unix_time_from_running_var. */
  datatype PyArg = IntArg(i: int) | NonIntArg

  /** calculate_unix_time_from_running_var: origin + t * week for an int, NotImplementedError otherwise. */
  function UnixTimeFromRunningVar(arg: PyArg): (r: Result<int>)
    ensures r.Ok? <==> arg.IntArg?
  {
    match arg
    case IntArg(t) => Ok(UnixTimeOrigin + t * UnixWeek)
    case NonIntArg => Err(NotImplementedError("week_running_var has to be of type Int"))
  }

  /** t is the quotient rounded toward zero: it brackets u - origin from the side of zero. */
  lemma RunningVarTruncates(u: int)
    ensures var d, t := u - UnixTimeOrigin, RunningVar(u);
      (d >= 0 ==> t >= 0 && t * UnixWeek <= d < (t + 1) * UnixWeek) &&
      (d < 0 ==> t <= 0 && (t - 1) * UnixWeek < d <= t * UnixWeek)
  {
  }

  lemma RunningVarAtWeekMultiple(k: int)
    ensures RunningVar(UnixTimeOrigin + k * UnixWeek) == k
  {
    var d := k * UnixWeek;
    if k < 0 {
      assert Abs(d) == (-k) * UnixWeek;
      assert Abs(d) / UnixWeek == -k;
    } else {
      assert d / UnixWeek == k;
    }
  }

  lemma RunningVarMonotone(u1: int, u2: int)
    requires u1 <= u2
    ensures RunningVar(u1) <= RunningVar(u2)
  {
    var d1, d2 := u1 - UnixTimeOrigin, u2 - UnixTimeOrigin;
    if d1 < 0 && d2 < 0 {
      DivWeekMonotone(-d2, -d1);
    } else if d1 >= 0 {
      DivWeekMonotone(d1, d2);
    }
  }

  lemma DivWeekMonotone(a: nat, b: nat)
    requires a <= b
    ensures a / UnixWeek <= b / UnixWeek
  {
    var qa, qb := a / UnixWeek, b / UnixWeek;
    assert qa * UnixWeek <= a && b < qb * UnixWeek + UnixWeek;
  }

  /** Any time less than one week away from the origin, on either side, is in week 0. */
  lemma RunningVarNearOrigin(u: int)
    requires UnixTimeOrigin - UnixWeek < u < UnixTimeOrigin + UnixWeek
    ensures RunningVar(u) == 0
  {
  }

  lemma RunningVarInverse(t: int)
    ensures UnixTimeFromRunningVar(IntArg(t)).Ok?
    ensures RunningVar(UnixTimeFromRunningVar(IntArg(t)).value) == t
  {
    RunningVarAtWeekMultiple(t);
  }

  /**
   * _calculate_week_year: one step of year rollover in either direction. The
   * result stays within a year of the seal year, keeps the seal year exactly
   * for an index in 1..weeks_in_year, and counts the same number of weeks
   * from the start of the seal year as the index does.
   */
  function CalculateWeekYear(sealYear: int, week: int, weeksInYear: int): (r: (int, int))
    ensures sealYear - 1 <= r.0 <= sealYear + 1
    ensures r.0 == sealYear <==> 0 < week <= weeksInYear
    ensures (r.0 - sealYear) * weeksInYear + r.1 == week
  {
    if week <= 0 then (sealYear - 1, weeksInYear + week)
    else if week > weeksInYear then (sealYear + 1, week - weeksInYear)
    else (sealYear, week)
  }

  /** A week index in (-w, 2w] lands on a valid week 1..w of the year before, of, or after. */
  lemma CalculateWeekYearInRange(sealYear: int, week: int, weeksInYear: int)
    requires weeksInYear > 0 && -weeksInYear < week <= 2 * weeksInYear
    ensures var (y, w) := CalculateWeekYear(sealYear, week, weeksInYear);
      1 <= w <= weeksInYear && sealYear - 1 <= y <= sealYear + 1
  {
  }

  /** Different week indices never map to the same (year, week) pair. */
  lemma CalculateWeekYearInjective(sealYear: int, a: int, b: int, weeksInYear: int)
    requires CalculateWeekYear(sealYear, a, weeksInYear) == CalculateWeekYear(sealYear, b, weeksInYear)
    ensures a == b
  {
  }

  /** A partition file name scheme `head{year}<sep>{part}tail`, as in CONFIG.ANGEBOTE_SCHEME. */
  datatype NameScheme = NameScheme(head: string, sep: char, tail: string)

  /** 'angebot_{year}w{week}.parquet' */
  const AngeboteScheme: NameScheme := NameScheme("angebot_", 'w', ".parquet")
  /** 'clicks_{year}m{month}.parquet' */
  const ClicksScheme: NameScheme := NameScheme("clicks_", 'm', ".parquet")

  predicate WellSeparated(s: NameScheme) { !IsDigit(s.sep) && s.sep != '-' }

  /** scheme.format(year=year, week="%02d" % part) */
  function FormatName(s: NameScheme, year: int, part: int): string
  {
    s.head + IntToString(year) + [s.sep] + ZeroPad2(part) + s.tail
  }

  lemma SeparatorPosition(a: string, b: string, c: char)
    requires forall i :: 0 <= i < |a| ==> a[i] != c
    ensures (a + [c] + b)[|a|] == c
    ensures forall i :: 0 <= i < |a| ==> (a + [c] + b)[i] != c
  {
  }

  /** Splitting at the first occurrence of a separator that the left parts do not contain is unique. */
  lemma SplitAtSeparator(a: string, b: string, a': string, b': string, c: char)
    requires a + [c] + b == a' + [c] + b'
    requires forall i :: 0 <= i < |a| ==> a[i] != c
    requires forall i :: 0 <= i < |a'| ==> a'[i] != c
    ensures a == a' && b == b'
  {
    var x := a + [c] + b;
    SeparatorPosition(a, b, c);
    SeparatorPosition(a', b', c);
    assert |a| == |a'|;
    assert a == x[..|a|] && a' == x[..|a'|];
    assert b == x[|a| + 1..] && b' == x[|a'| + 1..];
  }

  lemma StripAffixes(h: string, m1: string, m2: string, t: string)
    requires h + m1 + t == h + m2 + t
    ensures m1 == m2
  {
    var x, x' := h + m1 + t, h + m2 + t;
    assert |m1| == |m2|;
    assert m1 == x[|h|..|h| + |m1|];
    assert m2 == x'[|h|..|h| + |m2|];
  }

  /** A well-separated scheme never gives two (year, part) pairs the same file name. */
  lemma FormatNameInjective(s: NameScheme, y1: int, p1: int, y2: int, p2: int)
    requires WellSeparated(s)
    requires FormatName(s, y1, p1) == FormatName(s, y2, p2)
    ensures y1 == y2 && p1 == p2
  {
    var i1, z1, i2, z2 := IntToString(y1), ZeroPad2(p1), IntToString(y2), ZeroPad2(p2);
    var m1, m2 := i1 + [s.sep] + z1, i2 + [s.sep] + z2;
    Regroup(s.head, i1, s.sep, z1, s.tail);
    Regroup(s.head, i2, s.sep, z2, s.tail);
    StripAffixes(s.head, m1, m2, s.tail);
    SplitAtSeparator(i1, z1, i2, z2, s.sep);
    IntToStringInjective(y1, y2);
    ZeroPad2Injective(p1, p2);
  }

  lemma Regroup(h: string, a: string, c: char, b: string, t: string)
    ensures h + a + [c] + b + t == h + (a + [c] + b) + t
  {
    AppendAssoc(h, a + [c], b);
    AppendAssoc(h, a, [c]);
  }

  /** File name for week index i of generate_weeks_around_seal. */
  function WeekNameAt(s: NameScheme, sealYear: int, i: int, weeksInYear: int): string
  {
    var (y, w) := CalculateWeekYear(sealYear, i, weeksInYear);
    FormatName(s, y, w)
  }

  /** Python list(range(a, b)). */
  function Range(a: int, b: int): (r: seq<int>)
    ensures |r| == if a < b then b - a else 0
    ensures forall j :: 0 <= j < |r| ==> r[j] == a + j
  {
    if a < b then seq(b - a, j => a + j) else []
  }

  /** The week indices visited by generate_weeks_around_seal: range(sw - pre, sw) then range(sw, sw + post + 1). */
  function WeekIndices(sealWeek: int, pre: int, post: int): seq<int>
  {
    Range(sealWeek - pre, sealWeek) + Range(sealWeek, sealWeek + post + 1)
  }

  /** The file name of week index i, as a function of i. */
  function WeekNameOf(s: NameScheme, sealYear: int, weeksInYear: int): int -> string
  {
    i => WeekNameAt(s, sealYear, i, weeksInYear)
  }

  function WeekNames(s: NameScheme, sealYear: int, idx: seq<int>, weeksInYear: int): (r: seq<string>)
    ensures |r| == |idx|
  {
    Map(WeekNameOf(s, sealYear, weeksInYear), idx)
  }

  lemma RangeSnoc(a: int, i: int)
    requires a <= i
    ensures Range(a, i + 1) == Range(a, i) + [i]
  {
  }

  /** One `for i in range(lo, hi)` loop of generate_weeks_around_seal, appending one name per index. */
  method AppendWeekNames(names0: seq<string>, sealYear: int, lo: int, hi: int, s: NameScheme, weeksInYear: int)
    returns (names: seq<string>)
    ensures names == names0 + WeekNames(s, sealYear, Range(lo, hi), weeksInYear)
  {
    ghost var f := WeekNameOf(s, sealYear, weeksInYear);
    names := names0;
    var i := lo;
    while i < hi
      invariant lo <= i && (i <= hi || i == lo)
      invariant names == names0 + Map(f, Range(lo, i))
    {
      var name := WeekNameAt(s, sealYear, i, weeksInYear);
      assert name == f(i);
      RangeSnoc(lo, i);
      MapSnoc(f, Range(lo, i), i);
      AppendAssoc(names0, Map(f, Range(lo, i)), [name]);
      names := names + [name];
      i := i + 1;
    }
  }

  /** generate_weeks_around_seal: the loop before the seal week, then the loop from it. */
  method WeeksAroundSeal(sealYear: int, sealWeek: int, pre: int, post: int, s: NameScheme, weeksInYear: int)
    returns (names: seq<string>)
    ensures names == WeekNames(s, sealYear, WeekIndices(sealWeek, pre, post), weeksInYear)
  {
    var before, from := Range(sealWeek - pre, sealWeek), Range(sealWeek, sealWeek + post + 1);
    names := AppendWeekNames([], sealYear, sealWeek - pre, sealWeek, s, weeksInYear);
    assert names == WeekNames(s, sealYear, before, weeksInYear);
    names := AppendWeekNames(names, sealYear, sealWeek, sealWeek + post + 1, s, weeksInYear);
    MapAppend(WeekNameOf(s, sealYear, weeksInYear), before, from);
  }

  /** For nat pre and post: pre + post + 1 indices, ascending from sw - pre. */
  lemma WeekIndicesShape(sealWeek: int, pre: nat, post: nat)
    ensures |WeekIndices(sealWeek, pre, post)| == pre + post + 1
    ensures forall j :: 0 <= j < pre + post + 1 ==> WeekIndices(sealWeek, pre, post)[j] == sealWeek - pre + j
  {
    var a, b := Range(sealWeek - pre, sealWeek), Range(sealWeek, sealWeek + post + 1);
    forall j | 0 <= j < pre + post + 1 ensures (a + b)[j] == sealWeek - pre + j {
      if j >= |a| { assert (a + b)[j] == b[j - |a|]; }
    }
  }

  /** generate_weeks_around_seal never repeats a file name. */
  lemma WeekNamesDistinct(s: NameScheme, sealYear: int, sealWeek: int, pre: nat, post: nat, weeksInYear: int)
    requires WellSeparated(s)
    ensures var r := WeekNames(s, sealYear, WeekIndices(sealWeek, pre, post), weeksInYear);
      forall j1, j2 :: 0 <= j1 < j2 < |r| ==> r[j1] != r[j2]
  {
    var idx := WeekIndices(sealWeek, pre, post);
    var r := WeekNames(s, sealYear, idx, weeksInYear);
    WeekIndicesShape(sealWeek, pre, post);
    forall j1, j2 | 0 <= j1 < j2 < |r| ensures r[j1] != r[j2] {
      if r[j1] == r[j2] {
        var (y1, w1) := CalculateWeekYear(sealYear, idx[j1], weeksInYear);
        var (y2, w2) := CalculateWeekYear(sealYear, idx[j2], weeksInYear);
        FormatNameInjective(s, y1, w1, y2, w2);
        CalculateWeekYearInjective(sealYear, idx[j1], idx[j2], weeksInYear);
      }
    }
  }

  /** While the window stays within one year either side, every generated week number is 1..weeksInYear. */
  lemma WeekIndicesValidWeeks(sealYear: int, sealWeek: int, pre: nat, post: nat, weeksInYear: int)
    requires weeksInYear > 0 && sealWeek - pre > -weeksInYear && sealWeek + post <= 2 * weeksInYear
    ensures forall i :: i in WeekIndices(sealWeek, pre, post) ==>
      1 <= CalculateWeekYear(sealYear, i, weeksInYear).1 <= weeksInYear
  {
    WeekIndicesShape(sealWeek, pre, post);
    forall i | i in WeekIndices(sealWeek, pre, post)
      ensures 1 <= CalculateWeekYear(sealYear, i, weeksInYear).1 <= weeksInYear
    {
      CalculateWeekYearInRange(sealYear, i, weeksInYear);
    }
  }

  /** (year, month) that lies k calendar months after (year, month); month is 1..12. */
  function MonthShift(year: int, month: int, k: int): (int, int)
  {
    var idx := year * 12 + (month - 1) + k;
    (idx / 12, idx % 12 + 1)
  }

  function NextMonth(ym: (int, int)): (int, int)
  {
    if ym.1 == 12 then (ym.0 + 1, 1) else (ym.0, ym.1 + 1)
  }

  lemma MonthShiftProperties(year: int, month: int, k: int)
    requires 1 <= month <= 12
    ensures MonthShift(year, month, 0) == (year, month)
    ensures 1 <= MonthShift(year, month, k).1 <= 12
    ensures MonthShift(year, month, k + 1) == NextMonth(MonthShift(year, month, k))
  {
    var idx := year * 12 + (month - 1) + k;
    assert (year * 12 + (month - 1)) / 12 == year;
    assert (year * 12 + (month - 1)) % 12 == month - 1;
    var q, r := idx / 12, idx % 12;
    assert idx == 12 * q + r;
    if r == 11 {
      assert idx + 1 == 12 * (q + 1);
    } else {
      assert idx + 1 == 12 * q + (r + 1);
    }
  }

  lemma MonthShiftYearMonotone(year: int, month: int, k1: int, k2: int)
    requires k1 <= k2
    ensures MonthShift(year, month, k1).0 <= MonthShift(year, month, k2).0
  {
  }

  /** datetime accepts only years 1..9999 (MINYEAR..MAXYEAR). */
  predicate ValidYear(y: int) { 1 <= y <= 9999 }

  /** generate_months_around_seal raises ValueError unless every datetime it builds is valid. */
  predicate MonthsWindowValid(year: int, month: int, pre: int, post: int)
  {
    -pre > post ||
    (1 <= month <= 12 && ValidYear(year) && ValidYear(MonthShift(year, month, -pre).0) && ValidYear(MonthShift(year, month, post).0))
  }

  /** The file name of the month `k` months after (year, month), as a function of k. */
  function MonthNameOf(s: NameScheme, year: int, month: int): int -> string
  {
    k => var ym := MonthShift(year, month, k); FormatName(s, ym.0, ym.1)
  }

  /** One name per month offset -pre..post. */
  function MonthNames(s: NameScheme, year: int, month: int, pre: int, post: int): (r: seq<string>)
    ensures |r| == if -pre <= post then post + pre + 1 else 0
  {
    Map(MonthNameOf(s, year, month), Range(-pre, post + 1))
  }

  lemma MonthNamesSnoc(s: NameScheme, year: int, month: int, pre: int, i: int)
    requires -pre <= i
    ensures MonthNames(s, year, month, pre, i) == MonthNames(s, year, month, pre, i - 1) + [MonthNameOf(s, year, month)(i)]
  {
    RangeSnoc(-pre, i);
    MapSnoc(MonthNameOf(s, year, month), Range(-pre, i), i);
  }

  /** generate_months_around_seal: one name per month offset i in -pre..post, via datetime + relativedelta. */
  method MonthsAroundSeal(year: int, month: int, pre: int, post: int, s: NameScheme)
    returns (r: Result<seq<string>>)
    ensures r.Ok? <==> MonthsWindowValid(year, month, pre, post)
    ensures r.Ok? ==> r.value == MonthNames(s, year, month, pre, post)
  {
    var names: seq<string> := [];
    var i := -pre;
    while i <= post
      invariant -pre <= i && (i <= post + 1 || i == -pre)
      invariant i > -pre ==> 1 <= month <= 12 && ValidYear(year) && ValidYear(MonthShift(year, month, -pre).0)
      invariant forall k :: -pre <= k < i ==> ValidYear(MonthShift(year, month, k).0)
      invariant names == MonthNames(s, year, month, pre, i - 1)
    {
      if !(1 <= month <= 12 && ValidYear(year)) {
        return Err(ValueError("month must be in 1..12 and year in 1..9999"));
      }
      var ym := MonthShift(year, month, i);
      if !ValidYear(ym.0) {
        if i != -pre {
          MonthShiftYearMonotone(year, month, -pre, i);
          MonthShiftYearMonotone(year, month, i - 1, i);
          MonthShiftYearMonotone(year, month, i, post);
        }
        return Err(ValueError("year is out of range"));
      }
      MonthNamesSnoc(s, year, month, pre, i);
      assert MonthNameOf(s, year, month)(i) == FormatName(s, ym.0, ym.1);
      names := names + [FormatName(s, ym.0, ym.1)];
      i := i + 1;
    }
    if -pre <= post {
      assert ValidYear(MonthShift(year, month, post).0);
    }
    return Ok(names);
  }

  /** Consecutive names of generate_months_around_seal are one calendar month apart; the seal month sits at position pre. */
  lemma MonthNamesConsecutive(year: int, month: int, pre: nat, post: nat, j: int)
    requires 1 <= month <= 12 && 0 <= j < pre + post
    ensures MonthShift(year, month, (j + 1) - pre) == NextMonth(MonthShift(year, month, j - pre))
    ensures MonthShift(year, month, pre - pre) == (year, month)
    ensures 1 <= MonthShift(year, month, j - pre).1 <= 12
  {
    MonthShiftProperties(year, month, j - pre);
  }

  /** The file name of a (year, part) pair under a scheme. */
  function SchemeName(s: NameScheme): (int, int) -> string
  {
    (year, part) => FormatName(s, year, part)
  }

  /** Names for every year in [startYear, endYear] crossed with parts 1..partsPerYear, year-major. */
  function YearPartNames(name: (int, int) -> string, startYear: int, endYear: int, partsPerYear: nat): seq<string>
    decreases endYear - startYear
  {
    if startYear > endYear then []
    else seq(partsPerYear, j => name(startYear, j + 1)) + YearPartNames(name, startYear + 1, endYear, partsPerYear)
  }

  /** generate_weeks_range: every (year, week) with week in 1..weeks_in_year. */
  function WeeksRange(startYear: int, endYear: int, s: NameScheme, weeksInYear: int): seq<string>
  {
    YearPartNames(SchemeName(s), startYear, endYear, if weeksInYear > 0 then weeksInYear else 0)
  }

  /** generate_months_range: every (year, month) with month in 1..12. */
  function MonthsRange(startYear: int, endYear: int, s: NameScheme): seq<string>
  {
    YearPartNames(SchemeName(s), startYear, endYear, 12)
  }

  lemma DivModStep(k: int, n: int)
    requires n > 0 && k >= n
    ensures (k - n) / n == k / n - 1 && (k - n) % n == k % n
  {
    var q, r := (k - n) / n, (k - n) % n;
    assert k - n == q * n + r;
    assert k == (q + 1) * n + r;
    DivModUnique(k, n, q + 1, r);
  }

  /** The year-major listing holds n names for each year of the range. */
  lemma {:induction false} YearPartNamesLength(name: (int, int) -> string, startYear: int, endYear: int, n: nat)
    ensures |YearPartNames(name, startYear, endYear, n)| == (if startYear <= endYear then (endYear - startYear + 1) * n else 0)
    decreases endYear - startYear
  {
    if startYear <= endYear {
      YearPartNamesLength(name, startYear + 1, endYear, n);
      assert (endYear - startYear + 1) * n == n + (endYear - startYear) * n;
    }
  }

  /** Part p of year y comes right after the names of the years before y, in part order. */
  lemma {:induction false} YearPartNamesAt(name: (int, int) -> string, startYear: int, endYear: int, n: nat, y: int, p: int)
    requires startYear <= y <= endYear && 1 <= p <= n
    ensures |YearPartNames(name, startYear, y - 1, n)| + (p - 1) < |YearPartNames(name, startYear, endYear, n)|
    ensures YearPartNames(name, startYear, endYear, n)[|YearPartNames(name, startYear, y - 1, n)| + (p - 1)] == name(y, p)
    decreases y - startYear
  {
    if y == startYear {
      assert YearPartNames(name, startYear, y - 1, n) == [];
    } else {
      YearPartNamesAt(name, startYear + 1, endYear, n, y, p);
      assert |YearPartNames(name, startYear, y - 1, n)| == n + |YearPartNames(name, startYear + 1, y - 1, n)|;
    }
  }

  /** Every name of the listing is the name of a year of the range and a part in 1..n. */
  lemma {:induction false} YearPartNamesOnly(name: (int, int) -> string, startYear: int, endYear: int, n: nat, k: int)
    requires 0 <= k < |YearPartNames(name, startYear, endYear, n)|
    ensures exists y, p :: startYear <= y <= endYear && 1 <= p <= n && YearPartNames(name, startYear, endYear, n)[k] == name(y, p)
    decreases endYear - startYear
  {
    if k < n {
      assert YearPartNames(name, startYear, endYear, n)[k] == name(startYear, k + 1);
    } else {
      YearPartNamesOnly(name, startYear + 1, endYear, n, k - n);
    }
  }

  /** get_start_of_week: midnight of the latest `weekStartDay` (0 = Monday) on or before u. */
  function StartOfWeek(u: int, weekStartDay: int): (r: int)
    ensures r <= u < r + 7 * UnixDay
    ensures r % UnixDay == 0
    ensures Weekday(r / UnixDay) == weekStartDay % 7
  {
    var day := DayOf(u);
    var back := (Weekday(day) - weekStartDay) % 7;
    WeekdayShift(day, -back);
    (day - back) * UnixDay
  }

  /** get_unix_offer_data_inflow_time_range_from_seal_date: 52 weeks before to 26 weeks after the seal. */
  function InflowTimeRange(seal: int): (r: (int, int))
    ensures r.0 == seal - PreSealWeeks * UnixWeek && r.1 == seal + PostSealWeeks * UnixWeek
    ensures r.0 < seal < r.1
  {
    (seal - PreSealWeeks * UnixWeek, seal + PostSealWeeks * UnixWeek)
  }

  /** get_week_year_from_seal_date: the ISO (year, week) of the seal day. */
  function WeekYearFromSeal(seal: int): (int, int) { IsoYearWeek(DayOf(seal)) }

  /** get_year_month_from_seal_date: calendar year and month of the seal day. */
  function YearMonthFromSeal(seal: int): (int, int)
  {
    var c := CivilFromDays(DayOf(seal));
    (c.year, c.month)
  }

  /** CONFIG.PARQUET_FILES_DIR, Path("./data"), as os.path.join sees it. */
  const ParquetFilesDir: string := "data"
  /** CONFIG.ANGEBOTE_FOLDER */
  const AngeboteFolders: seq<string> := ["angebot_06_10", "angebot_11_15", "angebot"]

  /** posixpath.join(a, b): an absolute b replaces a; otherwise one '/' separates them. */
  function PathJoin(a: string, b: string): string
  {
    if StartsWith(b, "/") then b
    else if a == [] || EndsWith(a, "/") then a + b
    else a + "/" + b
  }

  function JoinPath3(base: string, folder: string, file: string): string
  {
    PathJoin(PathJoin(base, folder), file)
  }

  /** The `folders` argument: a list of folder names, or one str (which Python also iterates character by character). */
  datatype Folders = FolderList(items: seq<string>) | FolderString(name: string)

  /** The folder names the `for folder in folders` loop visits: the list items, or the characters of a str. */
  function LoopFolders(folders: Folders): seq<string>
  {
    match folders
    case FolderList(items) => items
    case FolderString(s) => seq(|s|, i requires 0 <= i < |s| => [s[i]])
  }

  function JoinAll(base: string, names: seq<string>, file: string): (r: seq<string>)
    ensures |r| == |names|
  {
    seq(|names|, i requires 0 <= i < |names| => JoinPath3(base, names[i], file))
  }

  /** The paths file_exists_in_folders tests, in the order it tests them. */
  function CandidatePaths(file: string, folders: Folders, base: string): seq<string>
  {
    (if folders.FolderString? then [JoinPath3(base, folders.name, file)] else []) + JoinAll(base, LoopFolders(folders), file)
  }

  /** The first path that exists, or None. */
  function FirstExisting(paths: seq<string>, existing: set<string>): Option<string>
    decreases |paths|
  {
    if paths == [] then None
    else if paths[0] in existing then Some(paths[0])
    else FirstExisting(paths[1..], existing)
  }

  /** A path FirstExisting answers is one of the paths and exists. */
  lemma {:induction false} FirstExistingMember(paths: seq<string>, existing: set<string>)
    ensures FirstExisting(paths, existing).Some? ==>
      FirstExisting(paths, existing).value in paths && FirstExisting(paths, existing).value in existing
    decreases |paths|
  {
    if paths != [] && paths[0] !in existing {
      FirstExistingMember(paths[1..], existing);
    }
  }

  /** FirstExisting finds nothing iff no path exists; otherwise its answer is the existing path of least index. */
  lemma {:induction false} FirstExistingSpec(paths: seq<string>, existing: set<string>)
    ensures FirstExisting(paths, existing).None? <==> forall i :: 0 <= i < |paths| ==> paths[i] !in existing
    ensures forall i :: 0 <= i < |paths| && paths[i] in existing && (forall k :: 0 <= k < i ==> paths[k] !in existing) ==>
      FirstExisting(paths, existing) == Some(paths[i])
    decreases |paths|
  {
    if paths != [] {
      FirstExistingSpec(paths[1..], existing);
      assert forall i :: 1 <= i < |paths| ==> paths[i] == paths[1..][i - 1];
      if paths[0] !in existing {
        forall i | 0 < i < |paths| && paths[i] in existing && (forall k :: 0 <= k < i ==> paths[k] !in existing)
          ensures FirstExisting(paths, existing) == Some(paths[i])
        {
          assert paths[1..][i - 1] in existing;
          assert forall k :: 0 <= k < i - 1 ==> paths[1..][k] == paths[k + 1];
        }
      }
    }
  }

  /**
   * file_exists_in_folders. `existing` is the set of paths os.path.isfile
   * accepts: the file system is an oracle here.
   */
  method FileExistsInFolders(file: string, folders: Folders, base: string, existing: set<string>)
    returns (r: Option<string>)
    ensures r == FirstExisting(CandidatePaths(file, folders, base), existing)
  {
    ghost var paths := CandidatePaths(file, folders, base);
    var names := LoopFolders(folders);
    ghost var joined := JoinAll(base, names, file);
    if folders.FolderString? {
      var p := JoinPath3(base, folders.name, file);
      assert paths == [p] + joined && paths[1..] == joined;
      if p in existing {
        return Some(p);
      }
    } else {
      assert paths == joined;
    }
    assert FirstExisting(paths, existing) == FirstExisting(joined, existing);
    assert joined[0..] == joined;
    var i := 0;
    while i < |names|
      invariant 0 <= i <= |names|
      invariant FirstExisting(joined[i..], existing) == FirstExisting(joined, existing)
    {
      var p := JoinPath3(base, names[i], file);
      assert joined[i..][0] == p && joined[i..][1..] == joined[i + 1..];
      if p in existing {
        return Some(p);
      }
      assert FirstExisting(joined[i..], existing) == FirstExisting(joined[i + 1..], existing);
      i := i + 1;
    }
    return None;
  }
}
