// impl/business/selector/space_selector.py: the selection of a sub-space of
// the (firm, product, running week) cube. Each axis is picked whole (None),
// by one value, or by a list of values; each pick is factorised against the
// distinct values of its column, and each axis gets a render strategy from
// its number of factors. impl/service/variable_renderer.py repeats this code
// under the names SelectionCriteria and RenderStrategy; the model states it
// once.
//
// Both files import calculate_u_from_running_var_t from impl/helpers.py,
// which defines no such name, so importing either module raises ImportError.
// The model takes the helper the name describes, the inverse of the running
// week: calculate_unix_time_from_running_var (Helpers.UnixTimeFromRunningVar).

module SpaceSelector {
  import opened Wrappers
  import opened Seqs
  import opened Text
  import opened Helpers
  import opened Calendar

  /** VariableRenderStrategy (and RenderStrategy of variable_renderer.py). */
  datatype Strategy = OuterSpace | InnerSpace | PositionalCoordinates

  /** The pick on one axis: None (the whole axis), a single value, or a list of values. */
  datatype Pick<V> = Whole | One(value: V) | Many(values: seq<V>)

  /** A row of the data frame the selector is given, in the three axis columns. */
  datatype Row = Row(firm: string, product: string, week: int)

  // ---------------------------------------------------------------------------
  // The timestamp range of the week pick
  // ---------------------------------------------------------------------------

  /** Python min() of a non-empty list. */
  function MinOf(xs: seq<int>): (m: int)
    requires xs != []
    ensures m in xs && forall x :: x in xs ==> m <= x
    decreases |xs|
  {
    if |xs| == 1 then xs[0]
    else
      var rest := MinOf(xs[1..]);
      assert xs == [xs[0]] + xs[1..];
      if xs[0] <= rest then xs[0] else rest
  }

  /** Python max() of a non-empty list. */
  function MaxOf(xs: seq<int>): (m: int)
    requires xs != []
    ensures m in xs && forall x :: x in xs ==> x <= m
    decreases |xs|
  {
    if |xs| == 1 then xs[0]
    else
      var rest := MaxOf(xs[1..]);
      assert xs == [xs[0]] + xs[1..];
      if xs[0] >= rest then xs[0] else rest
  }

  /** The start of a running week, the inverse the helper's name describes. */
  function WeekStart(t: int): int
  {
    UnixTimeFromRunningVar(IntArg(t)).value
  }

  /**
   * calculate_dtime_range_from_running_var without its cache: one week v
   * gives (u(v), u(v)), a list gives (u(min), u(max)). min() of an empty
   * list raises ValueError; None reaches the helper, which raises
   * NotImplementedError for anything but an int.
   */
  function DtimeRange(week: Pick<int>): Result<(int, int)>
  {
    match week
    case Whole => Err(UnixTimeFromRunningVar(NonIntArg).error)
    case One(v) => Ok((WeekStart(v), WeekStart(v)))
    case Many(vs) =>
      if vs == [] then Err(ValueError("min() arg is an empty sequence"))
      else Ok((WeekStart(MinOf(vs)), WeekStart(MaxOf(vs))))
  }

  /**
   * The range is defined for a single week or a non-empty list of weeks; it
   * starts no later than it ends, covers the start of every picked week,
   * and both ends are starts of picked weeks.
   */
  lemma DtimeRangeSpec(week: Pick<int>)
    ensures DtimeRange(week).Ok? <==> week.One? || (week.Many? && week.values != [])
    ensures DtimeRange(week).Ok? ==> DtimeRange(week).value.0 <= DtimeRange(week).value.1
    ensures week.One? ==> DtimeRange(week) == Ok((UnixTimeOrigin + week.value * UnixWeek, UnixTimeOrigin + week.value * UnixWeek))
    ensures week.Many? && DtimeRange(week).Ok? ==>
              var (b, e) := DtimeRange(week).value;
              (forall v :: v in week.values ==> b <= WeekStart(v) <= e)
              && (exists v :: v in week.values && WeekStart(v) == b)
              && (exists v :: v in week.values && WeekStart(v) == e)
  {
    if week.Many? && week.values != [] {
      var lo, hi := MinOf(week.values), MaxOf(week.values);
      assert UnixWeek > 0;
      forall v | v in week.values ensures WeekStart(lo) <= WeekStart(v) <= WeekStart(hi) {
        MulMonotone(lo, v, UnixWeek);
        MulMonotone(v, hi, UnixWeek);
      }
    }
  }

  lemma MulMonotone(a: int, b: int, k: int)
    requires a <= b && k >= 0
    ensures a * k <= b * k
  {
  }

  /**
   * The function as decorated: @lru_cache hashes its argument first, and a
   * list is unhashable, so a list of weeks raises TypeError before the body
   * runs; other picks reach the body.
   */
  function DtimeRangeAsWritten(week: Pick<int>): Result<(int, int)>
  {
    if week.Many? then Err(TypeError("unhashable type: 'list'")) else DtimeRange(week)
  }

  /** Every list of weeks is refused as written, including the non-empty ones the body is meant for. */
  lemma DtimeRangeAsWrittenRejectsLists(vs: seq<int>)
    ensures DtimeRangeAsWritten(Many(vs)) == Err(TypeError("unhashable type: 'list'"))
    ensures vs != [] ==> DtimeRange(Many(vs)).Ok?
  {
  }

  // ---------------------------------------------------------------------------
  // The selector
  // ---------------------------------------------------------------------------

  /** A SpaceSelector once built: the three picks, the data and the timestamp range of the week pick. */
  datatype Selector = Selector(firm: Pick<string>, product: Pick<string>, week: Pick<int>, data: seq<Row>,
                               dtime: Option<(int, int)>)

  /**
   * SpaceSelector.__init__ with the range computed as intended: no range
   * for a whole week axis, else the range of the week pick, whose error
   * the constructor raises.
   */
  function NewSelector(firm: Pick<string>, product: Pick<string>, week: Pick<int>, data: seq<Row>): (r: Result<Selector>)
    ensures r.Ok? <==> week != Many([])
    ensures r.Ok? ==> r.value.firm == firm && r.value.product == product && r.value.week == week && r.value.data == data
    ensures r.Ok? ==> (r.value.dtime.None? <==> week.Whole?)
    ensures r.Ok? && !week.Whole? ==> r.value.dtime == Some(DtimeRange(week).value)
  {
    if week.Whole? then Ok(Selector(firm, product, week, data, None))
    else
      match DtimeRange(week)
      case Err(e) => Err(e)
      case Ok(range) => Ok(Selector(firm, product, week, data, Some(range)))
  }

  // ---------------------------------------------------------------------------
  // Factorisation
  // ---------------------------------------------------------------------------

  /** The factor of a value: its position in the list of distinct values (factor_map[val]). */
  function IndexOf<V(==)>(xs: seq<V>, v: V): (i: int)
    requires v in xs
    ensures 0 <= i < |xs| && xs[i] == v
    ensures forall j :: 0 <= j < i ==> xs[j] != v
    decreases |xs|
  {
    if xs[0] == v then 0 else 1 + IndexOf(xs[1..], v)
  }

  /** The factors of a pick, or the first value not in the column (the KeyError the dictionary lookup raises). */
  datatype Factors<V> = Factors(factors: seq<int>) | UnknownValue(value: V)

  /** [factor_map[val] for val in value]: the lookups in list order, stopping at the first unknown value. */
  function FactorList<V(==)>(uniques: seq<V>, values: seq<V>): Factors<V>
    decreases |values|
  {
    if values == [] then Factors([])
    else if values[0] !in uniques then UnknownValue(values[0])
    else
      match FactorList(uniques, values[1..])
      case Factors(rest) => Factors([IndexOf(uniques, values[0])] + rest)
      case UnknownValue(v) => UnknownValue(v)
  }

  /**
   * factorize_column: the distinct values of the column (in first-occurrence
   * order), then all positions for None, or the position of each picked value.
   */
  function Factorize<V(==,!new)>(column: seq<V>, pick: Pick<V>): Factors<V>
  {
    var uniques := Distinct(column);
    match pick
    case Whole => Factors(Range(0, |uniques|))
    case One(v) => if v in uniques then Factors([IndexOf(uniques, v)]) else UnknownValue(v)
    case Many(vs) => FactorList(uniques, vs)
  }

  /**
   * The factors of a list are the positions of its values among the distinct
   * values, one per value and in order, so they decode back to the list;
   * the lookup fails exactly when some value is not in the column, and then
   * on the first such value.
   */
  lemma {:induction false} FactorListSpec<V>(uniques: seq<V>, values: seq<V>)
    ensures FactorList(uniques, values).Factors? <==> forall v :: v in values ==> v in uniques
    ensures FactorList(uniques, values).Factors? ==>
              var f := FactorList(uniques, values).factors;
              |f| == |values| && forall k :: 0 <= k < |f| ==> 0 <= f[k] < |uniques| && uniques[f[k]] == values[k]
    ensures FactorList(uniques, values).UnknownValue? ==>
              exists k :: 0 <= k < |values| && values[k] == FactorList(uniques, values).value
                          && values[k] !in uniques && forall j :: 0 <= j < k ==> values[j] in uniques
    decreases |values|
  {
    if values != [] {
      var tail := values[1..];
      FactorListSpec(uniques, tail);
      assert forall v :: v in values <==> v == values[0] || v in tail;
      var r := FactorList(uniques, values);
      if values[0] in uniques && r.UnknownValue? {
        var k :| 0 <= k < |tail| && tail[k] == r.value && tail[k] !in uniques
                 && forall j :: 0 <= j < k ==> tail[j] in uniques;
        assert values[k + 1] == tail[k];
        assert forall j :: 1 <= j < k + 1 ==> values[j] == tail[j - 1];
      }
      if values[0] !in uniques {
        assert values[0] == r.value;
      }
    }
  }

  /**
   * factorize_column: None gives every position 0..k-1 of the k distinct
   * values; a value or list gives the positions of the picked values, which
   * decode back to them; a value not in the column raises.
   */
  lemma FactorizeSpec<V(!new)>(column: seq<V>, pick: Pick<V>)
    ensures var u := Distinct(column);
            pick.Whole? ==> Factorize(column, pick) == Factors(Range(0, |u|))
    ensures pick.Whole? ==> Factorize(column, pick).Factors?
    ensures pick.One? ==> (Factorize(column, pick).Factors? <==> pick.value in column)
    ensures pick.Many? ==> (Factorize(column, pick).Factors? <==> forall v :: v in pick.values ==> v in column)
    ensures var u := Distinct(column);
            Factorize(column, pick).Factors? && !pick.Whole? ==>
              var values := if pick.One? then [pick.value] else pick.values;
              var f := Factorize(column, pick).factors;
              |f| == |values| && forall k :: 0 <= k < |f| ==> 0 <= f[k] < |u| && u[f[k]] == values[k]
    ensures Factorize(column, pick).UnknownValue? ==> Factorize(column, pick).value !in column
  {
    if pick.Many? {
      FactorListSpec(Distinct(column), pick.values);
    }
  }

  function Firms(data: seq<Row>): seq<string> { seq(|data|, i requires 0 <= i < |data| => data[i].firm) }
  function Products(data: seq<Row>): seq<string> { seq(|data|, i requires 0 <= i < |data| => data[i].product) }
  function Weeks(data: seq<Row>): seq<int> { seq(|data|, i requires 0 <= i < |data| => data[i].week) }

  /** The KeyError a string key raises: its repr. */
  function StrKeyError(v: string): PyError { KeyError("'" + v + "'") }

  function AxisFactors<V>(f: Factors<V>, err: V -> PyError): Result<seq<int>>
  {
    match f
    case Factors(xs) => Ok(xs)
    case UnknownValue(v) => Err(err(v))
  }

  /**
   * to_factor_representation: the factors of the firm, product and week
   * picks, in that order; the first axis with an unknown value raises.
   */
  function ToFactorRepresentation(s: Selector): (r: Result<seq<seq<int>>>)
    ensures r.Ok? ==> |r.value| == 3
  {
    var firms := AxisFactors(Factorize(Firms(s.data), s.firm), StrKeyError);
    var products := AxisFactors(Factorize(Products(s.data), s.product), StrKeyError);
    var weeks := AxisFactors(Factorize(Weeks(s.data), s.week), (v: int) => KeyError(IntToString(v)));
    if firms.Err? then Err(firms.error)
    else if products.Err? then Err(products.error)
    else if weeks.Err? then Err(weeks.error)
    else Ok([firms.value, products.value, weeks.value])
  }

  // ---------------------------------------------------------------------------
  // Strategies
  // ---------------------------------------------------------------------------

  /** determine_strategy: the axis is rendered by its number of factors against the number of rows. */
  function DetermineStrategy(rowCount: int, factors: seq<int>): Strategy
  {
    if |factors| == rowCount then OuterSpace
    else if |factors| > 1 then InnerSpace
    else PositionalCoordinates
  }

  /**
   * An axis is rendered in the outer space exactly when it has as many
   * factors as there are rows, in the inner space when it has more than one
   * factor otherwise, and by positional coordinates for one or no factor.
   */
  lemma DetermineStrategySpec(rowCount: int, factors: seq<int>)
    ensures DetermineStrategy(rowCount, factors) == OuterSpace <==> |factors| == rowCount
    ensures DetermineStrategy(rowCount, factors) == InnerSpace <==> |factors| != rowCount && |factors| > 1
    ensures DetermineStrategy(rowCount, factors) == PositionalCoordinates <==> |factors| != rowCount && |factors| <= 1
  {
  }

  function StrategyFor(rowCount: int): seq<int> -> Strategy
  {
    factors => DetermineStrategy(rowCount, factors)
  }

  /** determine_strategies: the factor lists, then the strategy of each appended in axis order. */
  method DetermineStrategies(s: Selector) returns (r: Result<seq<Strategy>>)
    ensures r.Err? <==> ToFactorRepresentation(s).Err?
    ensures r.Err? ==> r.error == ToFactorRepresentation(s).error
    ensures r.Ok? ==> r.value == Map(StrategyFor(|s.data|), ToFactorRepresentation(s).value)
  {
    var representation := ToFactorRepresentation(s);
    if representation.Err? {
      return Err(representation.error);
    }
    var axes := representation.value;
    var strategies: seq<Strategy> := [];
    var i := 0;
    while i < |axes|
      invariant 0 <= i <= |axes|
      invariant strategies == Map(StrategyFor(|s.data|), axes[..i])
    {
      MapSnoc(StrategyFor(|s.data|), axes[..i], axes[i]);
      assert axes[..i + 1] == axes[..i] + [axes[i]];
      strategies := strategies + [DetermineStrategy(|s.data|, axes[i])];
      i := i + 1;
    }
    assert axes[..i] == axes;
    return Ok(strategies);
  }

  // ---------------------------------------------------------------------------
  // Validation
  // ---------------------------------------------------------------------------

  predicate AllNonNegative(factors: seq<int>)
  {
    forall k :: 0 <= k < |factors| ==> factors[k] >= 0
  }

  /** The check of one axis: outer needs non-negative factors, inner more than one, positional exactly one. */
  predicate AxisValid(strategy: Strategy, factors: seq<int>)
  {
    match strategy
    case OuterSpace => AllNonNegative(factors)
    case InnerSpace => |factors| > 1 && AllNonNegative(factors)
    case PositionalCoordinates => |factors| == 1 && factors[0] >= 0
  }

  /**
   * The loop of validate_selection_space from axis i on: False at the first
   * axis that fails its check, IndexError when the strategy list runs out
   * first, True past the last axis.
   */
  function ValidateFrom(strategies: seq<Strategy>, axes: seq<seq<int>>, i: nat): Result<bool>
    decreases |axes| - i
  {
    if i >= |axes| then Ok(true)
    else if i >= |strategies| then Err(IndexError("list index out of range"))
    else if !AxisValid(strategies[i], axes[i]) then Ok(false)
    else ValidateFrom(strategies, axes, i + 1)
  }

  /** With a strategy for every axis, validation holds exactly when every axis passes its check. */
  lemma {:induction false} ValidateFromAll(strategies: seq<Strategy>, axes: seq<seq<int>>, i: nat)
    requires |strategies| >= |axes|
    ensures ValidateFrom(strategies, axes, i) == Ok(forall k :: i <= k < |axes| ==> AxisValid(strategies[k], axes[k]))
    decreases |axes| - i
  {
    if i < |axes| {
      ValidateFromAll(strategies, axes, i + 1);
    }
  }

  /** validate_selection_space: the factor lists, then each axis checked against its strategy in turn. */
  method ValidateSelectionSpace(strategies: seq<Strategy>, s: Selector) returns (r: Result<bool>)
    ensures ToFactorRepresentation(s).Err? ==> r == Err(ToFactorRepresentation(s).error)
    ensures ToFactorRepresentation(s).Ok? ==> r == ValidateFrom(strategies, ToFactorRepresentation(s).value, 0)
  {
    var representation := ToFactorRepresentation(s);
    if representation.Err? {
      return Err(representation.error);
    }
    var axes := representation.value;
    var i := 0;
    while i < |axes|
      invariant 0 <= i <= |axes|
      invariant ValidateFrom(strategies, axes, 0) == ValidateFrom(strategies, axes, i)
    {
      if i >= |strategies| {
        return Err(IndexError("list index out of range"));
      }
      var strategy := strategies[i];
      if strategy == OuterSpace {
        if !AllNonNegative(axes[i]) {
          return Ok(false);
        }
      } else if strategy == InnerSpace {
        if |axes[i]| <= 1 || !AllNonNegative(axes[i]) {
          return Ok(false);
        }
      } else if strategy == PositionalCoordinates {
        if |axes[i]| != 1 || axes[i][0] < 0 {
          return Ok(false);
        }
      }
      i := i + 1;
    }
    return Ok(true);
  }

  /** Factors are positions, so never negative. */
  lemma FactorsNonNegative<V(!new)>(column: seq<V>, pick: Pick<V>)
    requires Factorize(column, pick).Factors?
    ensures AllNonNegative(Factorize(column, pick).factors)
  {
    FactorizeSpec(column, pick);
  }

  /** An axis passes the check of its own strategy unless it has no factor while the data has rows. */
  lemma OwnStrategyValid(rowCount: int, factors: seq<int>)
    requires AllNonNegative(factors)
    ensures AxisValid(DetermineStrategy(rowCount, factors), factors) <==> !(|factors| == 0 && rowCount != 0)
  {
  }

  /** A pick has no factor exactly when it is an empty list, or None on an empty column. */
  lemma NoFactors<V(!new)>(column: seq<V>, pick: Pick<V>)
    requires Factorize(column, pick).Factors?
    ensures Factorize(column, pick).factors == [] <==> pick == Many([]) || (pick.Whole? && column == [])
  {
    FactorizeSpec(column, pick);
    if pick.Whole? && column != [] {
      assert column[0] in Distinct(column);
    }
  }

  /** Some axis is picked by an empty list while the data has rows. */
  predicate EmptyPickOnRows(s: Selector)
  {
    |s.data| > 0 && (s.firm == Many([]) || s.product == Many([]) || s.week == Many([]))
  }

  /**
   * The strategies a selector derives pass its own validation unless some
   * axis is picked by an empty list while the data has rows; when a value is
   * unknown, both raise the same KeyError.
   */
  lemma DerivedStrategiesValid(s: Selector)
    requires ToFactorRepresentation(s).Ok?
    ensures var axes := ToFactorRepresentation(s).value;
            ValidateFrom(Map(StrategyFor(|s.data|), axes), axes, 0)
              == Ok(!EmptyPickOnRows(s))
  {
    var axes := ToFactorRepresentation(s).value;
    var strategies := Map(StrategyFor(|s.data|), axes);
    ValidateFromAll(strategies, axes, 0);
    FactorsNonNegative(Firms(s.data), s.firm);
    FactorsNonNegative(Products(s.data), s.product);
    FactorsNonNegative(Weeks(s.data), s.week);
    NoFactors(Firms(s.data), s.firm);
    NoFactors(Products(s.data), s.product);
    NoFactors(Weeks(s.data), s.week);
    OwnStrategyValid(|s.data|, axes[0]);
    OwnStrategyValid(|s.data|, axes[1]);
    OwnStrategyValid(|s.data|, axes[2]);
    assert |Firms(s.data)| == |s.data| && |Products(s.data)| == |s.data| && |Weeks(s.data)| == |s.data|;
  }

  /** A whole axis is rendered in the outer space exactly when its column repeats no value. */
  lemma WholeAxisOuter<V(!new)>(column: seq<V>)
    ensures DetermineStrategy(|column|, Factorize(column, Whole).factors) == OuterSpace <==> NoDup(column)
  {
    DistinctFull(column);
  }
}
