// src/Matching.py (project 01): MatchingProcessor runs one matching
// criterion over the rows of a seal list and writes what it proposes into
// one column of that list, counting the proposals and collecting every
// proposed retailer name in a set shared by all runs.

module Matching {
  import opened Wrappers
  import opened Text
  import MatchingCriteria

  /** What a criterion returns in Python: None, a str, or a list of str. */
  datatype PyValue = PyNone | PyStr(s: string) | PyList(items: seq<string>)

  /** `if matched_retailers:` — None, "" and [] are false. */
  predicate Truthy(v: PyValue)
  {
    match v
    case PyNone => false
    case PyStr(s) => s != ""
    case PyList(items) => items != []
  }

  /** What a result adds to `matches`: 1 for a str, its length for a list, nothing when false. */
  function Weight(v: PyValue): nat
  {
    if !Truthy(v) then 0 else if v.PyStr? then 1 else |v.items|
  }

  /** What a result adds to the matched-retailer set. */
  function Members(v: PyValue): set<string>
  {
    if !Truthy(v) then {} else if v.PyStr? then {v.s} else set x | x in v.items
  }

  /** repr of a str without quotes or backslashes in it. */
  function Quote(s: string): string { "'" + s + "'" }

  function QuotedItems(items: seq<string>): string
  {
    if items == [] then ""
    else if |items| == 1 then Quote(items[0])
    else Quote(items[0]) + ", " + QuotedItems(items[1..])
  }

  /** The cell text: a str as it is, a list as str(list). */
  function Render(v: PyValue): string
  {
    match v
    case PyNone => "None"
    case PyStr(s) => s
    case PyList(items) => "[" + QuotedItems(items) + "]"
  }

  /** A criterion with the filtered retailer names as its second argument. */
  type Criterion = (string, seq<string>) -> PyValue

  /** The cells of a frame read with header=None: (row, column) to text; a missing key is NaN. */
  type Cells = map<(int, int), string>

  function Get(cells: Cells, key: (int, int)): Option<string>
  {
    if key in cells then Some(cells[key]) else None
  }

  /** Every matched row has a name in column 1. */
  predicate NamesPresent(cells: Cells, rows: int)
  {
    forall i :: 1 <= i < rows ==> (i, 1) in cells
  }

  /** The criterion's result for row i, from the name in column 1. */
  function Outcome(cells: Cells, i: int, criterion: Criterion, retailers: seq<string>): PyValue
    requires (i, 1) in cells
  {
    criterion(cells[(i, 1)], retailers)
  }

  /** The cells after the header is written and rows 1 .. k-1 are matched. */
  function Written(cells: Cells, column: int, header: string, criterion: Criterion, retailers: seq<string>, k: int): Cells
    requires NamesPresent(cells, k)
    decreases k
  {
    if k <= 1 then cells[(0, column) := header]
    else
      var prev := Written(cells, column, header, criterion, retailers, k - 1);
      var v := Outcome(cells, k - 1, criterion, retailers);
      if Truthy(v) then prev[(k - 1, column) := Render(v)] else prev
  }

  /** `matches` after rows 1 .. k-1. */
  function Score(cells: Cells, criterion: Criterion, retailers: seq<string>, k: int): nat
    requires NamesPresent(cells, k)
    decreases k
  {
    if k <= 1 then 0
    else Score(cells, criterion, retailers, k - 1) + Weight(Outcome(cells, k - 1, criterion, retailers))
  }

  /** The names added to the matched-retailer set by rows 1 .. k-1. */
  function Gained(cells: Cells, criterion: Criterion, retailers: seq<string>, k: int): set<string>
    requires NamesPresent(cells, k)
    decreases k
  {
    if k <= 1 then {}
    else Gained(cells, criterion, retailers, k - 1) + Members(Outcome(cells, k - 1, criterion, retailers))
  }

  /**
   * Only column `column` changes: row 0 gets the header, a row from 1 on
   * gets the text of its result when that is true and keeps its old cell
   * otherwise, and every other cell, of any column, stays as it was.
   */
  lemma {:induction false} WrittenSpec(cells: Cells, column: int, header: string, criterion: Criterion,
                                       retailers: seq<string>, k: int)
    requires NamesPresent(cells, k)
    ensures var w := Written(cells, column, header, criterion, retailers, k);
            forall r, c :: Get(w, (r, c))
                           == if c == column && r == 0 then Some(header)
                              else if c == column && 1 <= r < k && Truthy(Outcome(cells, r, criterion, retailers))
                              then Some(Render(Outcome(cells, r, criterion, retailers)))
                              else Get(cells, (r, c))
    decreases k
  {
    if k > 1 {
      WrittenSpec(cells, column, header, criterion, retailers, k - 1);
    }
  }

  /** A name in column 1 of a row not yet matched is still the original one. */
  lemma NameUnchanged(cells: Cells, column: int, header: string, criterion: Criterion,
                      retailers: seq<string>, k: int, i: int)
    requires NamesPresent(cells, k) && 1 <= k <= i && (i, 1) in cells
    ensures var w := Written(cells, column, header, criterion, retailers, k);
            (i, 1) in w && w[(i, 1)] == cells[(i, 1)]
  {
    WrittenSpec(cells, column, header, criterion, retailers, k);
    var w := Written(cells, column, header, criterion, retailers, k);
    assert Get(w, (i, 1)) == Get(cells, (i, 1));
  }

  /** Matching row i extends the cells, the count and the set by that row's result. */
  lemma RowStep(cells: Cells, column: int, header: string, criterion: Criterion, retailers: seq<string>, i: int)
    requires NamesPresent(cells, i + 1) && 1 <= i
    ensures var v := Outcome(cells, i, criterion, retailers);
            var w := Written(cells, column, header, criterion, retailers, i);
            Written(cells, column, header, criterion, retailers, i + 1) == (if Truthy(v) then w[(i, column) := Render(v)] else w)
            && Score(cells, criterion, retailers, i + 1) == Score(cells, criterion, retailers, i) + Weight(v)
            && Gained(cells, criterion, retailers, i + 1) == Gained(cells, criterion, retailers, i) + Members(v)
  {
  }

  /** A result adds at most as many names to the set as it adds to the count. */
  lemma MembersAtMostWeight(v: PyValue)
    ensures |Members(v)| <= Weight(v)
  {
    if Truthy(v) && v.PyList? {
      SetOfSeqCard(v.items);
    }
  }

  lemma {:induction false} SetOfSeqCard(xs: seq<string>)
    ensures |set x | x in xs| <= |xs|
    decreases |xs|
  {
    if xs != [] {
      SetOfSeqCard(xs[1..]);
      assert (set x | x in xs) == {xs[0]} + (set x | x in xs[1..]);
    }
  }

  /** The count is never smaller than the number of distinct names the run added to the set. */
  lemma {:induction false} GainedAtMostScore(cells: Cells, criterion: Criterion, retailers: seq<string>, k: int)
    requires NamesPresent(cells, k)
    ensures |Gained(cells, criterion, retailers, k)| <= Score(cells, criterion, retailers, k)
    decreases k
  {
    if k > 1 {
      GainedAtMostScore(cells, criterion, retailers, k - 1);
      MembersAtMostWeight(Outcome(cells, k - 1, criterion, retailers));
    }
  }

  /** A criterion that proposes only retailer names adds only retailer names to the set. */
  lemma {:induction false} GainedFromRetailers(cells: Cells, criterion: Criterion, retailers: seq<string>, k: int)
    requires NamesPresent(cells, k)
    requires forall name, x :: x in Members(criterion(name, retailers)) ==> x in retailers
    ensures forall x :: x in Gained(cells, criterion, retailers, k) ==> x in retailers
    decreases k
  {
    if k > 1 {
      GainedFromRetailers(cells, criterion, retailers, k - 1);
    }
  }

  /** A row counts exactly when its result is true. */
  lemma {:induction false} ScoreZero(cells: Cells, criterion: Criterion, retailers: seq<string>, k: int)
    requires NamesPresent(cells, k)
    ensures Score(cells, criterion, retailers, k) == 0
            <==> forall i :: 1 <= i < k ==> !Truthy(Outcome(cells, i, criterion, retailers))
    decreases k
  {
    if k > 1 {
      ScoreZero(cells, criterion, retailers, k - 1);
      var v := Outcome(cells, k - 1, criterion, retailers);
      assert Truthy(v) ==> Weight(v) > 0;
    }
  }

  // ---------------------------------------------------------------------------
  // The criteria as results, and the runs of the three seal lists
  // ---------------------------------------------------------------------------

  function FromOption(r: Option<string>): PyValue
  {
    if r.Some? then PyStr(r.value) else PyNone
  }

  function SimpleCriterion(): Criterion
  {
    (name, retailers) => FromOption(MatchingCriteria.Simple(name, retailers))
  }

  function HandelsverbandCriterion(): Criterion
  {
    (name, retailers) => FromOption(MatchingCriteria.Handelsverband(name, retailers))
  }

  function AdvancedCriterion(): Criterion
  {
    (name, retailers) => PyList(MatchingCriteria.AdvancedMatches(name, retailers, MatchingCriteria.AdvancedChars(name)))
  }

  function Advanced2Criterion(): Criterion
  {
    (name, retailers) => PyList(MatchingCriteria.AdvancedMatches(name, retailers, MatchingCriteria.Advanced2Chars(name)))
  }

  /** Every name a string criterion proposes is one of the retailer names it was given. */
  lemma SimpleProposesRetailers(name: string, retailers: seq<string>)
    ensures forall x :: x in Members(SimpleCriterion()(name, retailers)) ==> x in retailers
  {
  }

  lemma HandelsverbandProposesRetailers(name: string, retailers: seq<string>)
    ensures forall x :: x in Members(HandelsverbandCriterion()(name, retailers)) ==> x in retailers
  {
    MatchingCriteria.HandelsverbandSpec(name, retailers);
  }

  lemma AdvancedProposesRetailers(name: string, retailers: seq<string>)
    ensures forall x :: x in Members(AdvancedCriterion()(name, retailers)) ==> x in retailers
    ensures forall x :: x in Members(Advanced2Criterion()(name, retailers)) ==> x in retailers
  {
    MatchingCriteria.AdvancedMatchesSpec(name, retailers, MatchingCriteria.AdvancedChars(name));
    MatchingCriteria.AdvancedMatchesSpec(name, retailers, MatchingCriteria.Advanced2Chars(name));
  }

  /** One process_matching call of run_matching: the result column, its header and the criterion. */
  datatype Step = Step(column: int, header: string, criterion: Criterion)

  const ResultingMatchHeader := "RESULTING MATCH"
  const JaroTop1Header := "JARO Top-1"
  const JaroTop3Header := "JARO Top-3"
  const Advanced1Header := "first or last 5 chars or 3 chars if len <= 5 (without '-suffixes')"
  const Advanced2Header := "first or last 3 chars or 4 chars if 'Dot' Index long enough (without '-suffixes')"

  /** ECommerceMatching.run_matching; the two Jaro criteria are parameters. */
  function ECommerceSteps(jaroTop1: Criterion, jaroTop3: Criterion): seq<Step>
  {
    [Step(7, "matching_criteria_simple", SimpleCriterion()), Step(8, ResultingMatchHeader, SimpleCriterion()),
     Step(9, JaroTop1Header, jaroTop1), Step(10, JaroTop3Header, jaroTop3),
     Step(11, Advanced1Header, AdvancedCriterion()), Step(12, Advanced2Header, Advanced2Criterion())]
  }

  /** EhiBevhMatching.run_matching: both Jaro criteria write column 7. */
  function EhiBevhSteps(jaroTop1: Criterion, jaroTop3: Criterion): seq<Step>
  {
    [Step(5, "matching_criteria_simple", SimpleCriterion()), Step(6, ResultingMatchHeader, SimpleCriterion()),
     Step(7, JaroTop1Header, jaroTop1), Step(7, JaroTop3Header, jaroTop3),
     Step(8, Advanced1Header, AdvancedCriterion()), Step(9, Advanced2Header, Advanced2Criterion())]
  }

  /** HandelsverbandMatching.run_matching. */
  function HandelsverbandSteps(jaroTop1: Criterion, jaroTop3: Criterion): seq<Step>
  {
    [Step(12, "matching_criteria_handelsverband", HandelsverbandCriterion()),
     Step(13, ResultingMatchHeader, HandelsverbandCriterion()),
     Step(14, JaroTop1Header, jaroTop1), Step(15, JaroTop3Header, jaroTop3),
     Step(16, Advanced1Header, AdvancedCriterion()), Step(17, Advanced2Header, Advanced2Criterion())]
  }

  /** None of the steps writes the name column. */
  predicate KeepsNameColumn(steps: seq<Step>)
  {
    forall j :: 0 <= j < |steps| ==> steps[j].column != 1
  }

  /** Two frames with the same names in column 1 of rows 1 .. rows-1. */
  predicate SameNames(a: Cells, b: Cells, rows: int)
  {
    NamesPresent(a, rows) && NamesPresent(b, rows) && forall i :: 1 <= i < rows ==> a[(i, 1)] == b[(i, 1)]
  }

  /** A step that does not write column 1 leaves the names as they were. */
  lemma WrittenKeepsNames(cells: Cells, column: int, header: string, criterion: Criterion, retailers: seq<string>, rows: int)
    requires NamesPresent(cells, rows) && column != 1
    ensures SameNames(cells, Written(cells, column, header, criterion, retailers, rows), rows)
  {
    WrittenSpec(cells, column, header, criterion, retailers, rows);
    var w := Written(cells, column, header, criterion, retailers, rows);
    forall i | 1 <= i < rows ensures (i, 1) in w && w[(i, 1)] == cells[(i, 1)] {
      assert Get(w, (i, 1)) == Get(cells, (i, 1));
    }
  }

  /** The count and the names gained depend only on the names. */
  lemma {:induction false} SameNamesSameResults(a: Cells, b: Cells, criterion: Criterion, retailers: seq<string>, k: int)
    requires SameNames(a, b, k)
    ensures Score(a, criterion, retailers, k) == Score(b, criterion, retailers, k)
    ensures Gained(a, criterion, retailers, k) == Gained(b, criterion, retailers, k)
    decreases k
  {
    if k > 1 {
      SameNamesSameResults(a, b, criterion, retailers, k - 1);
    }
  }

  /** The cells after the steps, one after the other. */
  function AfterSteps(cells: Cells, steps: seq<Step>, retailers: seq<string>, rows: int): (w: Cells)
    requires NamesPresent(cells, rows) && KeepsNameColumn(steps)
    ensures SameNames(cells, w, rows)
    decreases |steps|
  {
    if steps == [] then cells
    else
      var prev := AfterSteps(cells, steps[..|steps| - 1], retailers, rows);
      var last := steps[|steps| - 1];
      WrittenKeepsNames(prev, last.column, last.header, last.criterion, retailers, rows);
      Written(prev, last.column, last.header, last.criterion, retailers, rows)
  }

  /** The names all the steps add to the matched-retailer set. */
  function GainedBySteps(cells: Cells, steps: seq<Step>, retailers: seq<string>, rows: int): set<string>
    requires NamesPresent(cells, rows)
    decreases |steps|
  {
    if steps == [] then {}
    else GainedBySteps(cells, steps[..|steps| - 1], retailers, rows)
         + Gained(cells, steps[|steps| - 1].criterion, retailers, rows)
  }

  /** When every criterion proposes only retailer names, so do the steps together. */
  lemma {:induction false} GainedByStepsFromRetailers(cells: Cells, steps: seq<Step>, retailers: seq<string>, rows: int)
    requires NamesPresent(cells, rows)
    requires forall j, name, x :: 0 <= j < |steps| && x in Members(steps[j].criterion(name, retailers)) ==> x in retailers
    ensures forall x :: x in GainedBySteps(cells, steps, retailers, rows) ==> x in retailers
    decreases |steps|
  {
    if steps != [] {
      var last := steps[|steps| - 1];
      GainedByStepsFromRetailers(cells, steps[..|steps| - 1], retailers, rows);
      GainedFromRetailers(cells, last.criterion, retailers, rows);
    }
  }

  /** The column-7 text after the two Jaro steps of EhiBevhMatching. */
  function JaroColumn(cells: Cells, retailers: seq<string>, rows: int, jaroTop1: Criterion, jaroTop3: Criterion, r: int)
    : Option<string>
    requires NamesPresent(cells, rows)
  {
    if r == 0 then Some(JaroTop3Header)
    else if 1 <= r < rows && Truthy(Outcome(cells, r, jaroTop3, retailers))
    then Some(Render(Outcome(cells, r, jaroTop3, retailers)))
    else if 1 <= r < rows && Truthy(Outcome(cells, r, jaroTop1, retailers))
    then Some(Render(Outcome(cells, r, jaroTop1, retailers)))
    else Get(cells, (r, 7))
  }

  /** After the first four steps column 7 already holds its final text. */
  lemma EhiBevhFirstFour(cells: Cells, retailers: seq<string>, rows: int, jaroTop1: Criterion, jaroTop3: Criterion, r: int)
    requires NamesPresent(cells, rows)
    ensures var steps := EhiBevhSteps(jaroTop1, jaroTop3);
            KeepsNameColumn(steps[..4])
            && Get(AfterSteps(cells, steps[..4], retailers, rows), (r, 7)) == JaroColumn(cells, retailers, rows, jaroTop1, jaroTop3, r)
  {
    var steps := EhiBevhSteps(jaroTop1, jaroTop3);
    assert KeepsNameColumn(steps);
    var w2 := AfterSteps(cells, steps[..2], retailers, rows);
    var w3 := AfterSteps(cells, steps[..3], retailers, rows);
    ColumnUntouched(cells, steps[..2], retailers, rows, r, 7);
    assert steps[..3][..2] == steps[..2] && steps[..4][..3] == steps[..3];
    StepOutcomes(cells, w2, jaroTop1, retailers, rows, r);
    WrittenSpec(w2, 7, JaroTop1Header, jaroTop1, retailers, rows);
    StepOutcomes(cells, w3, jaroTop3, retailers, rows, r);
    WrittenSpec(w3, 7, JaroTop3Header, jaroTop3, retailers, rows);
  }

  /**
   * In EhiBevhMatching both Jaro steps write column 7, so the top-3 header
   * replaces the top-1 header and a row keeps the top-1 result only where
   * the top-3 result is false.
   */
  lemma EhiBevhJaroColumn(cells: Cells, retailers: seq<string>, rows: int, jaroTop1: Criterion, jaroTop3: Criterion, r: int)
    requires NamesPresent(cells, rows)
    ensures Get(AfterSteps(cells, EhiBevhSteps(jaroTop1, jaroTop3), retailers, rows), (r, 7))
            == JaroColumn(cells, retailers, rows, jaroTop1, jaroTop3, r)
  {
    var steps := EhiBevhSteps(jaroTop1, jaroTop3);
    EhiBevhFirstFour(cells, retailers, rows, jaroTop1, jaroTop3, r);
    var w4 := AfterSteps(cells, steps[..4], retailers, rows);
    var w5 := AfterSteps(cells, steps[..5], retailers, rows);
    assert steps[..5][..4] == steps[..4] && steps[..6] == steps && steps[..6][..5] == steps[..5];
    WrittenSpec(w4, 8, Advanced1Header, AdvancedCriterion(), retailers, rows);
    WrittenSpec(w5, 9, Advanced2Header, Advanced2Criterion(), retailers, rows);
  }

  /** Row r's result is the same on two frames with the same names. */
  lemma StepOutcomes(a: Cells, b: Cells, criterion: Criterion, retailers: seq<string>, rows: int, r: int)
    requires SameNames(a, b, rows)
    ensures 1 <= r < rows ==> Outcome(a, r, criterion, retailers) == Outcome(b, r, criterion, retailers)
  {
  }

  /** Steps that all write other columns leave column c as it was. */
  lemma {:induction false} ColumnUntouched(cells: Cells, steps: seq<Step>, retailers: seq<string>, rows: int, r: int, c: int)
    requires NamesPresent(cells, rows) && KeepsNameColumn(steps)
    requires forall j :: 0 <= j < |steps| ==> steps[j].column != c
    ensures Get(AfterSteps(cells, steps, retailers, rows), (r, c)) == Get(cells, (r, c))
    decreases |steps|
  {
    if steps != [] {
      var prev := AfterSteps(cells, steps[..|steps| - 1], retailers, rows);
      var last := steps[|steps| - 1];
      ColumnUntouched(cells, steps[..|steps| - 1], retailers, rows, r, c);
      WrittenSpec(prev, last.column, last.header, last.criterion, retailers, rows);
    }
  }

  /** A seal list read with header=None: row count and cells. */
  class Sheet {
    var rows: nat
    var cells: Cells

    constructor (rows: nat, cells: Cells)
      ensures this.rows == rows && this.cells == cells
    {
      this.rows := rows;
      this.cells := cells;
    }
  }

  class MatchingProcessor {
    /** filtered_retailers_df, column 1. */
    const retailers: seq<string>
    var matchedRetailers: set<string>

    constructor (retailers: seq<string>, matchedRetailers: set<string>)
      ensures this.retailers == retailers && this.matchedRetailers == matchedRetailers
    {
      this.retailers := retailers;
      this.matchedRetailers := matchedRetailers;
    }

    /**
     * The body of match_and_append's loop for one row and its result: a true
     * str is written as it is, counted once and added to the set; a true list
     * is written as str(list), counted by its length and all its names are
     * added; a false result changes nothing.
     */
    method AppendResult(sheet: Sheet, row: int, column: int, matched: PyValue) returns (added: nat)
      modifies this, sheet
      ensures sheet.rows == old(sheet.rows)
      ensures sheet.cells == if Truthy(matched) then old(sheet.cells)[(row, column) := Render(matched)] else old(sheet.cells)
      ensures added == Weight(matched)
      ensures matchedRetailers == old(matchedRetailers) + Members(matched)
    {
      added := 0;
      if Truthy(matched) {
        if matched.PyStr? {
          sheet.cells := sheet.cells[(row, column) := matched.s];
          added := 1;
          matchedRetailers := matchedRetailers + {matched.s};
        } else {
          sheet.cells := sheet.cells[(row, column) := Render(matched)];
          added := |matched.items|;
          matchedRetailers := matchedRetailers + set x | x in matched.items;
        }
      }
    }

    /**
     * match_and_append: writes the header into row 0 of the column, then
     * matches every row from 1 on; the frame's write to the output file is
     * left out.
     */
    method MatchAndAppend(sheet: Sheet, column: int, header: string, criterion: Criterion)
      returns (matches: nat)
      requires NamesPresent(sheet.cells, sheet.rows)
      modifies this, sheet
      ensures sheet.rows == if old(sheet.rows) == 0 then 1 else old(sheet.rows)
      ensures sheet.cells == Written(old(sheet.cells), column, header, criterion, retailers, old(sheet.rows))
      ensures matches == Score(old(sheet.cells), criterion, retailers, old(sheet.rows))
      ensures matchedRetailers == old(matchedRetailers) + Gained(old(sheet.cells), criterion, retailers, old(sheet.rows))
    {
      var cells0 := sheet.cells;
      var n := sheet.rows;
      sheet.cells := sheet.cells[(0, column) := header];
      if sheet.rows == 0 {
        sheet.rows := 1;
      }
      matches := 0;
      var i := 1;
      while i < n
        invariant 1 <= i <= if n == 0 then 1 else n
        invariant sheet.rows == if n == 0 then 1 else n
        invariant cells0 == old(sheet.cells) && n == old(sheet.rows) && NamesPresent(cells0, n)
        invariant sheet.cells == Written(cells0, column, header, criterion, retailers, i)
        invariant matches == Score(cells0, criterion, retailers, i)
        invariant matchedRetailers == old(matchedRetailers) + Gained(cells0, criterion, retailers, i)
      {
        NameUnchanged(cells0, column, header, criterion, retailers, i, i);
        var matched := criterion(sheet.cells[(i, 1)], retailers);
        RowStep(cells0, column, header, criterion, retailers, i);
        var added := AppendResult(sheet, i, column, matched);
        matches := matches + added;
        i := i + 1;
      }
    }

    /**
     * run_matching: the steps one after the other on the same frame (the
     * round trip through the output file between two steps is taken to give
     * back the frame that was written); the counts are the list it displays.
     */
    method RunSteps(sheet: Sheet, steps: seq<Step>) returns (counts: seq<nat>)
      requires sheet.rows >= 1 && NamesPresent(sheet.cells, sheet.rows) && KeepsNameColumn(steps)
      modifies this, sheet
      ensures sheet.rows == old(sheet.rows)
      ensures sheet.cells == AfterSteps(old(sheet.cells), steps, retailers, old(sheet.rows))
      ensures |counts| == |steps|
      ensures forall j :: 0 <= j < |steps| ==> counts[j] == Score(old(sheet.cells), steps[j].criterion, retailers, old(sheet.rows))
      ensures matchedRetailers == old(matchedRetailers) + GainedBySteps(old(sheet.cells), steps, retailers, old(sheet.rows))
    {
      var cells0 := sheet.cells;
      var n := sheet.rows;
      counts := [];
      var j := 0;
      while j < |steps|
        invariant 0 <= j <= |steps| && sheet.rows == n && n >= 1
        invariant cells0 == old(sheet.cells) && n == old(sheet.rows) && NamesPresent(cells0, n)
        invariant sheet.cells == AfterSteps(cells0, steps[..j], retailers, n)
        invariant |counts| == j
        invariant forall m :: 0 <= m < j ==> counts[m] == Score(cells0, steps[m].criterion, retailers, n)
        invariant matchedRetailers == old(matchedRetailers) + GainedBySteps(cells0, steps[..j], retailers, n)
      {
        var step := steps[j];
        var before := sheet.cells;
        SameNamesSameResults(cells0, before, step.criterion, retailers, n);
        var c := MatchAndAppend(sheet, step.column, step.header, step.criterion);
        assert steps[..j + 1][..j] == steps[..j];
        counts := counts + [c];
        j := j + 1;
      }
      assert steps[..|steps|] == steps;
    }
  }
}
