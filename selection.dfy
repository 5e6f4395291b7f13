// The rules the selection services share (impl/service/offers_service.py,
// impl/service/OffersService.py, impl/service/service.py, impl/static.py):
// the set of running weeks in which a firm offered a product, the ISO-week
// continuity admission, the counterfactual-firm pool and the two samplers.
// Each service module feeds these with its own repository query and its own
// constants; the loops live here once, as methods proved against the
// functions that specify them.

module Selection {
  import opened Wrappers
  import opened Seqs
  import opened Calendar
  import opened Helpers
  import opened Sampling
  import opened Repositories

  /** CONFIG.RANDOM_COUNTERFACTUAL_FIRMS_AMOUNT */
  const CounterfactualFirmsAmount: int := 10
  /** CONFIG.RANDOM_PRODUCTS_AMOUNTS */
  const RandomProductsAmount: int := 50
  /** CONFIG.RANDOM_SAMPLER_DETERMINISTIC_SEED */
  const SamplerSeed: int := 42
  /** CONFIG.HAS_WEEKS_BEFORE_AND_AFTER_PRODUCT_ANGEBOTEN_AMOUNT */
  const ContinuityWeeks: int := 8
  /** The literal 26 of the bound applied to the offered weeks. */
  const OfferedWeeksBound: int := 26

  function Max(a: int, b: int): int { if a < b then b else a }

  // ---------------------------------------------------------------------------
  // Offered weeks
  // ---------------------------------------------------------------------------

  /** The k-th step of a weekly walk from `cur`. */
  function WeekPoint(cur: int, k: nat): int { cur + k * UnixWeek }

  /** t(cur), t(cur + one week), ... for every step not past `end`. */
  function StepWeeks(cur: int, end: int): set<int>
    decreases end - cur
  {
    if cur > end then {} else {RunningVar(cur)} + StepWeeks(cur + UnixWeek, end)
  }

  lemma {:induction false} StepWeeksSpec(cur: int, end: int, w: int)
    ensures w in StepWeeks(cur, end) <==>
      exists k: nat :: WeekPoint(cur, k) <= end && w == RunningVar(WeekPoint(cur, k))
    decreases end - cur
  {
    if cur <= end {
      assert WeekPoint(cur, 0) == cur;
      StepWeeksSpec(cur + UnixWeek, end, w);
      if w in StepWeeks(cur + UnixWeek, end) {
        var k: nat :| WeekPoint(cur + UnixWeek, k) <= end && w == RunningVar(WeekPoint(cur + UnixWeek, k));
        assert WeekPoint(cur, k + 1) == WeekPoint(cur + UnixWeek, k);
      }
      if exists k: nat :: WeekPoint(cur, k) <= end && w == RunningVar(WeekPoint(cur, k)) {
        var k: nat :| WeekPoint(cur, k) <= end && w == RunningVar(WeekPoint(cur, k));
        if k > 0 {
          var k1: nat := k - 1;
          assert WeekPoint(cur + UnixWeek, k1) == WeekPoint(cur, k);
          assert w in StepWeeks(cur + UnixWeek, end);
        } else {
          assert WeekPoint(cur, k) == cur;
        }
      }
    }
  }

  /** Every week of a walk lies between the weeks of its two ends. */
  lemma {:induction false} StepWeeksBounds(cur: int, end: int, w: int)
    requires w in StepWeeks(cur, end)
    ensures RunningVar(cur) <= w <= RunningVar(end)
    decreases end - cur
  {
    if w != RunningVar(cur) {
      StepWeeksBounds(cur + UnixWeek, end, w);
      RunningVarMonotone(cur, cur + UnixWeek);
    } else {
      RunningVarMonotone(cur, end);
    }
  }

  /** The weeks one offer row contributes once clamped to [from, to]. */
  function RowWeeks(span: (int, int), from: int, to: int): set<int>
  {
    StepWeeks(Max(span.0, from), Min(span.1, to))
  }

  /**
   * A row contributes the weeks of the dates max(b, from), max(b, from) + one
   * week, ... up to min(e, to); a row whose clamped interval is empty
   * contributes nothing, so a row that does contribute overlaps [from, to].
   */
  lemma RowWeeksSpec(span: (int, int), from: int, to: int, w: int)
    ensures w in RowWeeks(span, from, to) <==>
      exists k: nat :: WeekPoint(Max(span.0, from), k) <= Min(span.1, to)
        && w == RunningVar(WeekPoint(Max(span.0, from), k))
    ensures w in RowWeeks(span, from, to) ==>
      span.0 <= to && span.1 >= from && RunningVar(Max(span.0, from)) <= w <= RunningVar(Min(span.1, to))
    ensures Max(span.0, from) > Min(span.1, to) ==> RowWeeks(span, from, to) == {}
  {
    StepWeeksSpec(Max(span.0, from), Min(span.1, to), w);
    if w in RowWeeks(span, from, to) {
      StepWeeksBounds(Max(span.0, from), Min(span.1, to), w);
    }
  }

  /** The union of the rows' clamped weeks (the two nested loops of get_offered_weeks). */
  function ClampedWeeks(spans: seq<(int, int)>, from: int, to: int): set<int>
    decreases |spans|
  {
    if spans == [] then {} else RowWeeks(spans[0], from, to) + ClampedWeeks(spans[1..], from, to)
  }

  lemma {:induction false} ClampedWeeksMember(spans: seq<(int, int)>, from: int, to: int, w: int)
    ensures w in ClampedWeeks(spans, from, to) <==>
      exists i :: 0 <= i < |spans| && w in RowWeeks(spans[i], from, to)
    decreases |spans|
  {
    if spans != [] {
      ClampedWeeksMember(spans[1..], from, to, w);
      if exists i :: 0 <= i < |spans| && w in RowWeeks(spans[i], from, to) {
        var i :| 0 <= i < |spans| && w in RowWeeks(spans[i], from, to);
        if i > 0 {
          assert spans[1..][i - 1] == spans[i];
        }
      }
      if exists i :: 0 <= i < |spans[1..]| && w in RowWeeks(spans[1..][i], from, to) {
        var i :| 0 <= i < |spans[1..]| && w in RowWeeks(spans[1..][i], from, to);
        assert spans[1..][i] == spans[i + 1];
      }
    }
  }

  /** The lower and upper week bounds: t(seal - 26 weeks) and t(seal + 26 weeks). */
  function LowerWeek(seal: int): int { RunningVar(seal - OfferedWeeksBound * UnixWeek) }
  function UpperWeek(seal: int): int { RunningVar(seal + OfferedWeeksBound * UnixWeek) }

  /**
   * get_offered_weeks on the rows the repository returned: clamp each row to
   * the inflow window [seal - 52 weeks, seal + 26 weeks], walk it weekly, and
   * keep the weeks within [t(seal - 26 weeks), t(seal + 26 weeks)].
   */
  function OfferedWeeksOf(spans: seq<(int, int)>, seal: int): (r: set<int>)
    ensures forall w :: w in r ==> LowerWeek(seal) <= w <= UpperWeek(seal)
  {
    var range := InflowTimeRange(seal);
    set w | w in ClampedWeeks(spans, range.0, range.1) && LowerWeek(seal) <= w <= UpperWeek(seal)
  }

  /** Walk each row and collect its weeks, then apply the bounds (offers_service.py:27-42). */
  method CollectOfferedWeeks(spans: seq<(int, int)>, seal: int) returns (weeks: set<int>)
    ensures weeks == OfferedWeeksOf(spans, seal)
  {
    var range := InflowTimeRange(seal);
    var from, to := range.0, range.1;
    var offered: set<int> := {};
    var i := 0;
    while i < |spans|
      invariant 0 <= i <= |spans|
      invariant offered + ClampedWeeks(spans[i..], from, to) == ClampedWeeks(spans, from, to)
    {
      var b := Max(spans[i].0, from);
      var e := Min(spans[i].1, to);
      assert ClampedWeeks(spans[i..], from, to) == StepWeeks(b, e) + ClampedWeeks(spans[i + 1..], from, to) by {
        assert spans[i..][1..] == spans[i + 1..];
      }
      var cur := b;
      while cur <= e
        invariant offered + StepWeeks(cur, e) + ClampedWeeks(spans[i + 1..], from, to) == ClampedWeeks(spans, from, to)
        decreases e - cur
      {
        offered := offered + {RunningVar(cur)};
        cur := cur + UnixWeek;
      }
      i := i + 1;
    }
    assert spans[|spans|..] == [];
    var lower, upper := LowerWeek(seal), UpperWeek(seal);
    weeks := set w | w in offered && lower <= w <= upper;
  }

  /** A week is offered iff it is within the bounds and some row's clamped weekly walk lands in it. */
  lemma OfferedWeeksOfMember(spans: seq<(int, int)>, seal: int, w: int)
    ensures w in OfferedWeeksOf(spans, seal) <==>
      LowerWeek(seal) <= w <= UpperWeek(seal) &&
      exists i :: 0 <= i < |spans| && w in RowWeeks(spans[i], InflowTimeRange(seal).0, InflowTimeRange(seal).1)
  {
    ClampedWeeksMember(spans, InflowTimeRange(seal).0, InflowTimeRange(seal).1, w);
  }

  /** The offered weeks of offer rows, by row membership rather than position. */
  lemma OfferedWeeksOfRows(rows: seq<Offer>, seal: int, w: int)
    ensures w in OfferedWeeksOf(SpansOf(rows), seal) <==>
      LowerWeek(seal) <= w <= UpperWeek(seal) &&
      exists o :: o in rows && w in RowWeeks((o.begin, o.end), InflowTimeRange(seal).0, InflowTimeRange(seal).1)
  {
    var from, to := InflowTimeRange(seal).0, InflowTimeRange(seal).1;
    var spans := SpansOf(rows);
    OfferedWeeksOfMember(spans, seal, w);
    if exists i :: 0 <= i < |spans| && w in RowWeeks(spans[i], from, to) {
      var i :| 0 <= i < |spans| && w in RowWeeks(spans[i], from, to);
      assert rows[i] in rows;
    }
    if exists o :: o in rows && w in RowWeeks((o.begin, o.end), from, to) {
      var o :| o in rows && w in RowWeeks((o.begin, o.end), from, to);
      var i :| 0 <= i < |rows| && rows[i] == o;
      assert spans[i] == (o.begin, o.end);
    }
  }

  /**
   * get_offered_weeks of offers_service.py, OffersService.py and service.py:
   * the rows of the closed-overlap query on the inflow window, then the walk.
   */
  function OfferedWeeks(offers: seq<Offer>, product: string, firm: string, seal: int): set<int>
  {
    var range := InflowTimeRange(seal);
    OfferedWeeksOf(SpansOf(OfferedWeekRows(offers, product, firm, range.0, range.1)), seal)
  }

  /**
   * What the offered weeks are, stated on the offer table: a week within the
   * bounds of an offer for the product at the firm (an empty id matching any)
   * whose clamped weekly walk lands in it.
   */
  lemma OfferedWeeksSpec(offers: seq<Offer>, product: string, firm: string, seal: int, w: int)
    ensures w in OfferedWeeks(offers, product, firm, seal) <==>
      LowerWeek(seal) <= w <= UpperWeek(seal) &&
      exists o :: o in offers && (product == "" || o.product == product) && (firm == "" || o.firm == firm)
        && w in RowWeeks((o.begin, o.end), InflowTimeRange(seal).0, InflowTimeRange(seal).1)
  {
    var from, to := InflowTimeRange(seal).0, InflowTimeRange(seal).1;
    var rows := OfferedWeekRows(offers, product, firm, from, to);
    OfferedWeeksOfRows(rows, seal, w);
    OfferedWeekRowsSpec(offers, product, firm, from, to);
    if exists o :: o in offers && (product == "" || o.product == product) && (firm == "" || o.firm == firm)
        && w in RowWeeks((o.begin, o.end), from, to) {
      var o :| o in offers && (product == "" || o.product == product) && (firm == "" || o.firm == firm)
        && w in RowWeeks((o.begin, o.end), from, to);
      RowWeeksSpec((o.begin, o.end), from, to, w);
      assert o in rows;
    }
  }

  // ---------------------------------------------------------------------------
  // Continuity admission
  // ---------------------------------------------------------------------------

  /**
   * How a continuity test walks an offer: the step length, and the window
   * [lo, hi] (or [lo, hi) when not closedHi) a date must fall in to count.
   */
  datatype Scan = Scan(step: int, lo: int, hi: int, closedHi: bool)

  predicate InWindow(sc: Scan, u: int)
  {
    sc.lo <= u && (if sc.closedHi then u <= sc.hi else u < sc.hi)
  }

  /** ISO week numbers (the year dropped) of the in-window dates cur, cur + step, ... up to end. */
  function ScanWeeks(sc: Scan, cur: int, end: int): set<int>
    requires sc.step > 0
    decreases end - cur
  {
    if cur > end then {}
    else (if InWindow(sc, cur) then {IsoWeek(DayOf(cur))} else {}) + ScanWeeks(sc, cur + sc.step, end)
  }

  /** The union of ScanWeeks over all offer rows. */
  function CollectWeeks(sc: Scan, spans: seq<(int, int)>): set<int>
    requires sc.step > 0
    decreases |spans|
  {
    if spans == [] then {} else ScanWeeks(sc, spans[0].0, spans[0].1) + CollectWeeks(sc, spans[1..])
  }

  /** The two nested loops that fill `offered_weeks`. */
  method CollectIsoWeeks(sc: Scan, spans: seq<(int, int)>) returns (offered: set<int>)
    requires sc.step > 0
    ensures offered == CollectWeeks(sc, spans)
  {
    offered := {};
    var i := 0;
    while i < |spans|
      invariant 0 <= i <= |spans|
      invariant offered + CollectWeeks(sc, spans[i..]) == CollectWeeks(sc, spans)
    {
      var cur, end := spans[i].0, spans[i].1;
      assert CollectWeeks(sc, spans[i..]) == ScanWeeks(sc, cur, end) + CollectWeeks(sc, spans[i + 1..]) by {
        assert spans[i..][1..] == spans[i + 1..];
      }
      while cur <= end
        invariant offered + ScanWeeks(sc, cur, end) + CollectWeeks(sc, spans[i + 1..]) == CollectWeeks(sc, spans)
        decreases end - cur
      {
        if sc.lo <= cur && (if sc.closedHi then cur <= sc.hi else cur < sc.hi) {
          offered := offered + {IsoWeek(DayOf(cur))};
        }
        cur := cur + sc.step;
      }
      i := i + 1;
    }
    assert spans[|spans|..] == [];
  }

  /** ISO week number of the i-th week start, start + i weeks. */
  function WeekStartIso(start: int, i: int): int { IsoWeek(DayOf(start + i * UnixWeek)) }

  /** datetime.utcfromtimestamp(u).isocalendar()[1] as a value the counting loop is handed. */
  function IsoWeekOfInstant(): int -> int
  {
    u => IsoWeek(DayOf(u))
  }

  /** The numbers a week numbering gives the week starts start, start + 1 week, ..., start + (n - 1) weeks. */
  function WeekNumbers(weekOf: int -> int, start: int, n: nat): (r: seq<int>)
    ensures |r| == n
  {
    seq(n, i requires 0 <= i < n => weekOf(start + i * UnixWeek))
  }

  /** The ISO week numbers of the week starts start, start + 1 week, ..., start + (n - 1) weeks. */
  function WeekStartNumbers(start: int, n: nat): (r: seq<int>)
    ensures |r| == n
  {
    WeekNumbers(IsoWeekOfInstant(), start, n)
  }

  lemma WeekStartNumbersAt(start: int, n: nat, i: int)
    requires 0 <= i < n
    ensures WeekStartNumbers(start, n)[i] == WeekStartIso(start, i)
  {
  }

  /** How many of `numbers` are absent from `offered`. */
  function MissingCount(offered: set<int>, numbers: seq<int>): nat
  {
    if numbers == [] then 0
    else MissingCount(offered, numbers[..|numbers| - 1]) + (if numbers[|numbers| - 1] in offered then 0 else 1)
  }

  /** At most one of the 2 * weeks + 1 week starts has a week number nobody offered in. */
  predicate Admits(offered: set<int>, start: int, weeks: nat)
  {
    MissingCount(offered, WeekStartNumbers(start, 2 * weeks + 1)) <= 1
  }

  /** The counting loop with its early exit once a second week is missing. */
  method CountMissingWeeks(offered: set<int>, start: int, weeks: nat) returns (ok: bool)
    ensures ok == Admits(offered, start, weeks)
  {
    ok := CountMissing(offered, start, weeks, IsoWeekOfInstant());
  }

  /**
   * The loop itself, for any week numbering `weekOf` of the week starts:
   * false as soon as a second week number is missing from `offered`.
   */
  method CountMissing(offered: set<int>, start: int, weeks: nat, weekOf: int -> int) returns (ok: bool)
    ensures ok == (MissingCount(offered, WeekNumbers(weekOf, start, 2 * weeks + 1)) <= 1)
  {
    ghost var numbers := WeekNumbers(weekOf, start, 2 * weeks + 1);
    var missing := 0;
    var i := 0;
    while i < weeks * 2 + 1
      invariant 0 <= i <= 2 * weeks + 1
      invariant missing == MissingCount(offered, numbers[..i]) && missing <= 1
    {
      var weekStart := start + i * UnixWeek;
      var weekNumber := weekOf(weekStart);
      assert weekNumber == numbers[i];
      MissingCountStep(offered, numbers, i);
      if weekNumber !in offered {
        missing := missing + 1;
        if missing > 1 {
          MissingCountPrefix(offered, numbers, i + 1);
          return false;
        }
      }
      i := i + 1;
    }
    assert numbers[..2 * weeks + 1] == numbers;
    return true;
  }

  lemma MissingCountStep(offered: set<int>, numbers: seq<int>, i: int)
    requires 0 <= i < |numbers|
    ensures MissingCount(offered, numbers[..i + 1])
         == MissingCount(offered, numbers[..i]) + (if numbers[i] in offered then 0 else 1)
  {
    assert numbers[..i + 1][..i] == numbers[..i];
  }

  lemma {:induction false} MissingCountPrefix(offered: set<int>, numbers: seq<int>, m: nat)
    requires m <= |numbers|
    ensures MissingCount(offered, numbers[..m]) <= MissingCount(offered, numbers)
    decreases |numbers|
  {
    if m < |numbers| {
      assert numbers[..|numbers| - 1][..m] == numbers[..m];
      MissingCountPrefix(offered, numbers[..|numbers| - 1], m);
    } else {
      assert numbers[..m] == numbers;
    }
  }

  /** More offered weeks never means more missing ones. */
  lemma {:induction false} MissingCountAntitone(a: set<int>, b: set<int>, numbers: seq<int>)
    requires a <= b
    ensures MissingCount(b, numbers) <= MissingCount(a, numbers)
    decreases |numbers|
  {
    if numbers != [] {
      MissingCountAntitone(a, b, numbers[..|numbers| - 1]);
    }
  }

  /** Nothing is missing when every number is offered. */
  lemma {:induction false} MissingCountNone(offered: set<int>, numbers: seq<int>)
    requires forall i :: 0 <= i < |numbers| ==> numbers[i] in offered
    ensures MissingCount(offered, numbers) == 0
    decreases |numbers|
  {
    if numbers != [] {
      MissingCountNone(offered, numbers[..|numbers| - 1]);
    }
  }

  /** With nothing offered every week start is missing. */
  lemma {:induction false} MissingCountEmpty(numbers: seq<int>)
    ensures MissingCount({}, numbers) == |numbers|
    decreases |numbers|
  {
    if numbers != [] {
      MissingCountEmpty(numbers[..|numbers| - 1]);
    }
  }

  /** A window of at least one week on each side is never admitted without an offered week. */
  lemma AdmitsNeedsOffers(offered: set<int>, start: int, weeks: nat)
    requires weeks >= 1 && Admits(offered, start, weeks)
    ensures offered != {}
  {
    if offered == {} {
      MissingCountEmpty(WeekStartNumbers(start, 2 * weeks + 1));
    }
  }

  lemma {:induction false} CollectWeeksMember(sc: Scan, spans: seq<(int, int)>, i: int)
    requires sc.step > 0 && 0 <= i < |spans|
    ensures ScanWeeks(sc, spans[i].0, spans[i].1) <= CollectWeeks(sc, spans)
    decreases |spans|
  {
    if i > 0 {
      CollectWeeksMember(sc, spans[1..], i - 1);
      assert spans[1..][i - 1] == spans[i];
    }
  }

  /** An in-window date reached by a weekly walk contributes its ISO week number. */
  lemma {:induction false} ScanReaches(sc: Scan, cur: int, end: int, k: nat)
    requires sc.step == UnixWeek
    requires WeekPoint(cur, k) <= end && InWindow(sc, WeekPoint(cur, k))
    ensures IsoWeek(DayOf(WeekPoint(cur, k))) in ScanWeeks(sc, cur, end)
    decreases k
  {
    if k > 0 {
      assert WeekPoint(cur, k) == WeekPoint(cur + sc.step, k - 1);
      ScanReaches(sc, cur + sc.step, end, k - 1);
    }
  }

  /** A wider window sees every week a narrower one sees. */
  lemma {:induction false} ScanWeeksWiden(a: Scan, b: Scan, cur: int, end: int)
    requires a.step > 0 && b.step == a.step
    requires forall u :: InWindow(a, u) ==> InWindow(b, u)
    ensures ScanWeeks(a, cur, end) <= ScanWeeks(b, cur, end)
    decreases end - cur
  {
    if cur <= end {
      ScanWeeksWiden(a, b, cur + a.step, end);
    }
  }

  /** Walking rows that are all among the rows of a wider collection, in a narrower window, sees no more weeks. */
  lemma {:induction false} CollectWeeksWiden(a: Scan, b: Scan, small: seq<(int, int)>, large: seq<(int, int)>)
    requires a.step > 0 && b.step == a.step
    requires forall u :: InWindow(a, u) ==> InWindow(b, u)
    requires forall i :: 0 <= i < |small| ==> small[i] in large
    ensures CollectWeeks(a, small) <= CollectWeeks(b, large)
    decreases |small|
  {
    if small != [] {
      var j :| 0 <= j < |large| && large[j] == small[0];
      CollectWeeksMember(b, large, j);
      ScanWeeksWiden(a, b, small[0].0, small[0].1);
      forall i | 0 <= i < |small[1..]| ensures small[1..][i] in large {
        assert small[1..][i] == small[i + 1];
      }
      CollectWeeksWiden(a, b, small[1..], large);
    }
  }

  /** A walk started j steps later sees no more weeks. */
  lemma {:induction false} ScanSuffix(sc: Scan, cur: int, end: int, j: nat)
    requires sc.step > 0
    ensures ScanWeeks(sc, cur + j * sc.step, end) <= ScanWeeks(sc, cur, end)
    decreases j
  {
    if j > 0 {
      assert cur + j * sc.step == (cur + sc.step) + (j - 1) * sc.step;
      ScanSuffix(sc, cur + sc.step, end, j - 1);
    }
  }

  /** Stepping by days reaches every date stepping by weeks reaches. */
  lemma {:induction false} WeekScanWithinDayScan(lo: int, hi: int, closedHi: bool, cur: int, end: int)
    ensures ScanWeeks(Scan(UnixWeek, lo, hi, closedHi), cur, end) <= ScanWeeks(Scan(UnixDay, lo, hi, closedHi), cur, end)
    decreases end - cur
  {
    if cur <= end {
      WeekScanWithinDayScan(lo, hi, closedHi, cur + UnixWeek, end);
      ScanSuffix(Scan(UnixDay, lo, hi, closedHi), cur, end, 7);
      assert cur + 7 * UnixDay == cur + UnixWeek;
    }
  }

  lemma {:induction false} WeekCollectWithinDayCollect(lo: int, hi: int, closedHi: bool, spans: seq<(int, int)>)
    ensures CollectWeeks(Scan(UnixWeek, lo, hi, closedHi), spans) <= CollectWeeks(Scan(UnixDay, lo, hi, closedHi), spans)
    decreases |spans|
  {
    if spans != [] {
      WeekScanWithinDayScan(lo, hi, closedHi, spans[0].0, spans[0].1);
      WeekCollectWithinDayCollect(lo, hi, closedHi, spans[1..]);
    }
  }

  /** Start and end of the continuity window: the seal's Monday +- `weeks` weeks. */
  function ContinuityStart(seal: int, weeks: int): int { StartOfWeek(seal, 0) - weeks * UnixWeek }
  function ContinuityEnd(seal: int, weeks: int): int { StartOfWeek(seal, 0) + weeks * UnixWeek }

  /** The window begins on a Monday at midnight. */
  lemma ContinuityStartMonday(seal: int, weeks: int)
    ensures ContinuityStart(seal, weeks) % UnixDay == 0
    ensures Weekday(ContinuityStart(seal, weeks) / UnixDay) == 0
  {
    var sow := StartOfWeek(seal, 0);
    assert ContinuityStart(seal, weeks) == sow + (-weeks * 7) * UnixDay;
    assert ContinuityStart(seal, weeks) / UnixDay == sow / UnixDay + 7 * (-weeks);
    WeekdayPeriodic(sow / UnixDay, -weeks);
  }

  /** The week start i weeks after a Monday midnight shares its ISO week with every date of that week. */
  lemma SameIsoWeek(start: int, i: int, p: int)
    requires start % UnixDay == 0 && Weekday(start / UnixDay) == 0
    requires start + i * UnixWeek <= p < start + i * UnixWeek + UnixWeek
    ensures IsoWeek(DayOf(p)) == WeekStartIso(start, i)
  {
    var d := MondayAfterWeeks(start, i);
    SameIsoWeekFrom(start + i * UnixWeek, d, p);
  }

  /** Whole weeks after a Monday midnight is again a Monday midnight. */
  lemma MondayAfterWeeks(start: int, i: int) returns (d: int)
    requires start % UnixDay == 0 && Weekday(start / UnixDay) == 0
    ensures start + i * UnixWeek == d * UnixDay && Weekday(d) == 0
  {
    d := start / UnixDay + 7 * i;
    WeekdayPeriodic(start / UnixDay, i);
  }

  /** Every instant of the week from a Monday midnight `ws` (day `d`) falls in the ISO week of `ws`. */
  lemma SameIsoWeekFrom(ws: int, d: int, p: int)
    requires ws == d * UnixDay && Weekday(d) == 0 && ws <= p < ws + UnixWeek
    ensures IsoWeek(DayOf(p)) == IsoWeek(DayOf(ws))
  {
    var j := DayWithinWeek(ws, d, p);
    IsoWeekConstantOnWeek(d, j);
  }

  /** The day of an instant of the week from midnight of day `d` is d plus 0 to 6. */
  lemma DayWithinWeek(ws: int, d: int, p: int) returns (j: int)
    requires ws == d * UnixDay && ws <= p < ws + UnixWeek
    ensures 0 <= j < 7 && DayOf(p) == d + j && DayOf(ws) == d
  {
    var r := p - ws;
    j := r / UnixDay;
    assert p == (d + j) * UnixDay + r % UnixDay;
    DivModUnique(p, UnixDay, d + j, r % UnixDay);
    DivModUnique(ws, UnixDay, d, 0);
  }

  /**
   * A weekly walk over an offer that runs from the window start (or earlier) to
   * the window end (or later) lands in every week of the window but possibly
   * the last, so at most one week start is missing.
   */
  lemma WholeWindowOfferAdmitted(spans: seq<(int, int)>, i: int, start: int, weeks: nat)
    requires start % UnixDay == 0 && Weekday(start / UnixDay) == 0
    requires 0 <= i < |spans| && spans[i].0 <= start && start + 2 * weeks * UnixWeek <= spans[i].1
    ensures Admits(CollectWeeks(Scan(UnixWeek, start, start + 2 * weeks * UnixWeek, true), spans), start, weeks)
  {
    var sc := Scan(UnixWeek, start, start + 2 * weeks * UnixWeek, true);
    var b, e := spans[i].0, spans[i].1;
    var offered := CollectWeeks(sc, spans);
    CollectWeeksMember(sc, spans, i);
    var numbers := WeekStartNumbers(start, 2 * weeks + 1);
    var front := numbers[..2 * weeks];
    forall n | 0 <= n < |front| ensures front[n] in offered {
      var ws := start + n * UnixWeek;
      var k := (ws - b + UnixWeek - 1) / UnixWeek;
      var p := WeekPoint(b, k);
      assert ws <= p < ws + UnixWeek;
      ScanReaches(sc, b, e, k);
      SameIsoWeek(start, n, p);
      WeekStartNumbersAt(start, 2 * weeks + 1, n);
    }
    MissingCountNone(offered, front);
  }

  /**
   * The continuity test of offers_service.py, OffersService.py and service.py:
   * window [Monday of the seal week - weeks, that Monday + weeks], both ends
   * included, over the rows of the product at the retailer overlapping the
   * window, each walked with `step` (one week, or one day in service.py).
   */
  function ContinuityScan(seal: int, weeks: int, step: int): Scan
  {
    Scan(step, ContinuityStart(seal, weeks), ContinuityEnd(seal, weeks), true)
  }

  /** The ISO week numbers the walk through the product's offers at the retailer lands in. */
  function ContinuityOfferedWeeks(offers: seq<Offer>, product: string, retailer: string, seal: int, weeks: int, step: int): set<int>
    requires step > 0
  {
    CollectWeeks(ContinuityScan(seal, weeks, step),
      ProductOfferSpans(offers, product, retailer, ContinuityStart(seal, weeks), ContinuityEnd(seal, weeks)))
  }

  /** False below four weeks; otherwise at most one of the 2 * weeks + 1 week starts is missing. */
  predicate ContinuouslyOffered(offers: seq<Offer>, product: string, retailer: string, seal: int, weeks: int, step: int)
    requires step > 0
  {
    weeks >= 4 && Admits(ContinuityOfferedWeeks(offers, product, retailer, seal, weeks, step), ContinuityStart(seal, weeks), weeks as nat)
  }

  /** The continuity test as a predicate on products, the guard of the filter comprehensions. */
  function Admitted(offers: seq<Offer>, retailer: string, seal: int, weeks: int, step: int): string -> bool
    requires step > 0
  {
    p => ContinuouslyOffered(offers, p, retailer, seal, weeks, step)
  }

  /** One offer covering the whole window is enough for admission by a weekly walk. */
  lemma CoveringOfferAdmitted(offers: seq<Offer>, product: string, retailer: string, seal: int, weeks: int, b: int, e: int)
    requires weeks >= 4 && Offer(product, retailer, b, e) in offers
    requires b <= ContinuityStart(seal, weeks) && ContinuityEnd(seal, weeks) <= e
    ensures ContinuouslyOffered(offers, product, retailer, seal, weeks, UnixWeek)
  {
    var start, end := ContinuityStart(seal, weeks), ContinuityEnd(seal, weeks);
    var spans := ProductOfferSpans(offers, product, retailer, start, end);
    ProductOfferSpansSpec(offers, product, retailer, start, end);
    assert (b, e) in spans;
    var i :| 0 <= i < |spans| && spans[i] == (b, e);
    ContinuityStartMonday(seal, weeks);
    assert end == start + 2 * weeks * UnixWeek;
    WholeWindowOfferAdmitted(spans, i, start, weeks);
  }

  /** Whatever a weekly walk admits, a daily walk admits too. */
  lemma WeeklyAdmissionImpliesDaily(offers: seq<Offer>, product: string, retailer: string, seal: int, weeks: int)
    requires ContinuouslyOffered(offers, product, retailer, seal, weeks, UnixWeek)
    ensures ContinuouslyOffered(offers, product, retailer, seal, weeks, UnixDay)
  {
    var start, end := ContinuityStart(seal, weeks), ContinuityEnd(seal, weeks);
    var spans := ProductOfferSpans(offers, product, retailer, start, end);
    WeekCollectWithinDayCollect(start, end, true, spans);
    MissingCountAntitone(ContinuityOfferedWeeks(offers, product, retailer, seal, weeks, UnixWeek),
      ContinuityOfferedWeeks(offers, product, retailer, seal, weeks, UnixDay), WeekStartNumbers(start, 2 * weeks + 1));
  }

  /** An admitted product has an offer at the retailer overlapping the window. */
  lemma AdmittedHasOffer(offers: seq<Offer>, product: string, retailer: string, seal: int, weeks: int, step: int)
    requires step > 0 && ContinuouslyOffered(offers, product, retailer, seal, weeks, step)
    ensures exists b, e :: (Offer(product, retailer, b, e) in offers
      && b <= ContinuityEnd(seal, weeks) && e >= ContinuityStart(seal, weeks))
  {
    var start, end := ContinuityStart(seal, weeks), ContinuityEnd(seal, weeks);
    var spans := ProductOfferSpans(offers, product, retailer, start, end);
    AdmitsNeedsOffers(ContinuityOfferedWeeks(offers, product, retailer, seal, weeks, step), start, weeks);
    assert spans != [];
    ProductOfferSpansSpec(offers, product, retailer, start, end);
    assert spans[0] in spans;
  }

  // ---------------------------------------------------------------------------
  // Counterfactual firms and samplers
  // ---------------------------------------------------------------------------

  /** The firms that are not seal firms and, when an allowed list is given, are allowed; order and repeats kept. */
  function CounterfactualPool(firms: seq<string>, sealFirms: seq<string>, allowed: Option<seq<string>>): seq<string>
  {
    Filter(firms, f => f !in sealFirms && (allowed.None? || f in allowed.value))
  }

  lemma CounterfactualPoolSpec(firms: seq<string>, sealFirms: seq<string>, allowed: Option<seq<string>>)
    ensures forall f :: f in CounterfactualPool(firms, sealFirms, allowed) <==>
      f in firms && f !in sealFirms && (allowed.None? || f in allowed.value)
    ensures Subseq(CounterfactualPool(firms, sealFirms, allowed), firms)
    ensures NoDup(firms) ==> NoDup(CounterfactualPool(firms, sealFirms, allowed))
  {
    var p := f => f !in sealFirms && (allowed.None? || f in allowed.value);
    FilterIsSubseq(firms, p);
    FilterMembers(firms, p);
    if NoDup(firms) {
      FilterNoDup(firms, p);
    }
  }

  /** One more firm extends the pool exactly when it passes (the append loop of OffersService.py). */
  lemma CounterfactualPoolSnoc(firms: seq<string>, f: string, sealFirms: seq<string>, allowed: Option<seq<string>>)
    ensures CounterfactualPool(firms + [f], sealFirms, allowed) == CounterfactualPool(firms, sealFirms, allowed)
      + (if f !in sealFirms && (allowed.None? || f in allowed.value) then [f] else [])
  {
    FilterSnoc(firms, f, g => g !in sealFirms && (allowed.None? || g in allowed.value));
  }

  /**
   * The pool of service.py and static.py: the firm of every offer row of the
   * product running at the seal instant (repeats kept), keeping the firms that
   * are not seal firms and are allowed.
   */
  function AllowedCounterfactualCandidates(offers: seq<Offer>, product: string, seal: int, sealFirms: seq<string>,
                                           allowedFirms: seq<string>): seq<string>
  {
    CounterfactualPool(CounterfactualFirms(offers, product, seal, false), sealFirms, Some(allowedFirms))
  }

  lemma AllowedCounterfactualCandidatesSpec(offers: seq<Offer>, product: string, seal: int, sealFirms: seq<string>,
                                            allowedFirms: seq<string>)
    ensures forall f :: f in AllowedCounterfactualCandidates(offers, product, seal, sealFirms, allowedFirms) <==>
      f !in sealFirms && f in allowedFirms &&
      exists o :: o in offers && o.product == product && o.begin <= seal <= o.end && o.firm == f
  {
    CounterfactualFirmsSpec(offers, product, seal, false);
    CounterfactualPoolSpec(CounterfactualFirms(offers, product, seal, false), sealFirms, Some(allowedFirms));
  }

  /** random.sample(pool, min(|pool|, 10)) after seeding with 42. */
  function SampleUpTo(pool: seq<string>): (r: seq<string>)
    ensures |r| == Min(|pool|, CounterfactualFirmsAmount)
    ensures multiset(r) <= multiset(pool)
    ensures NoDup(pool) ==> NoDup(r)
  {
    SampleAtMost(pool, CounterfactualFirmsAmount, SamplerSeed);
    SampleNoDup(pool, Min(CounterfactualFirmsAmount, |pool|), SamplerSeed);
    Sample(pool, Min(CounterfactualFirmsAmount, |pool|), SamplerSeed).value
  }

  /** The pool itself when it holds at most 10 firms, else random.sample(pool, 10) after seeding with 42. */
  function CappedSample(pool: seq<string>): (r: seq<string>)
    ensures |r| == Min(|pool|, CounterfactualFirmsAmount)
    ensures multiset(r) <= multiset(pool)
    ensures |pool| <= CounterfactualFirmsAmount ==> r == pool
  {
    if |pool| > CounterfactualFirmsAmount then
      Sample(pool, CounterfactualFirmsAmount, SamplerSeed).value
    else pool
  }

  /** Every element of a sub-multiset is an element of the whole. */
  lemma SubMultisetMembers(r: seq<string>, pool: seq<string>)
    requires multiset(r) <= multiset(pool)
    ensures forall f :: f in r ==> f in pool
  {
    forall f | f in r ensures f in pool {
      assert f in multiset(r);
    }
  }

  /**
   * get_random_n_products_deterministic once the candidates are known: `[]`
   * when there are none, else random.sample(candidates, min(n, |candidates|)),
   * which raises ValueError for a negative n.
   */
  function SampleProducts(candidates: seq<string>, n: int, seed: int): (r: Result<seq<string>>)
    ensures r.Ok? <==> candidates == [] || n >= 0
    ensures candidates == [] ==> r == Ok([])
    ensures candidates != [] && r.Ok? ==> |r.value| == Min(n, |candidates|)
    ensures r.Ok? ==> multiset(r.value) <= multiset(candidates)
  {
    if candidates == [] then Ok([])
    else Sample(candidates, Min(n, |candidates|), seed)
  }

  lemma SampleProductsNoDup(candidates: seq<string>, n: int, seed: int)
    requires SampleProducts(candidates, n, seed).Ok?
    ensures NoDup(candidates) ==> NoDup(SampleProducts(candidates, n, seed).value)
  {
    if candidates != [] {
      SampleNoDup(candidates, Min(n, |candidates|), seed);
    }
  }
}
