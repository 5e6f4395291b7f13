// The rows of results.csv that the panel scripts (02_calculate_index_space.py,
// 01_calculate_index_space.py, impl/main.py) write: one line per
// (product, firm, running week) with the seal flag, after a fixed header.

module PanelRows {
  import opened Wrappers
  import opened Seqs
  import opened Text

  /** One panel row: product i, firm j, running week t, and 1 for the seal firm of the task, 0 for a counterfactual. */
  datatype PanelRow = PanelRow(product: string, firm: string, week: int, hasSeal: int)

  /** The fields separated by commas and ended by a newline. */
  function CsvRecord(fields: seq<string>): string
    decreases |fields|
  {
    if |fields| <= 1 then (if fields == [] then "" else fields[0]) + "\n"
    else fields[0] + "," + CsvRecord(fields[1..])
  }

  /** "produkt_id,haendler_bez,week_running_var,firm_has_seal_j\n". */
  const CsvHeader: string := CsvRecord(["produkt_id", "haendler_bez", "week_running_var", "firm_has_seal_j"])

  /** write_results_to_csv: "p,f,t,flag\n", the integers as str() prints them. */
  function CsvLine(r: PanelRow): string
  {
    CsvRecord([r.product, r.firm, IntToString(r.week), IntToString(r.hasSeal)])
  }

  /** The lines written for a list of rows, in order. */
  function CsvLines(rows: seq<PanelRow>): (lines: seq<string>)
    ensures |lines| == |rows|
    decreases |rows|
  {
    if rows == [] then [] else CsvLines(rows[..|rows| - 1]) + [CsvLine(rows[|rows| - 1])]
  }

  lemma {:induction false} CsvLinesAppend(a: seq<PanelRow>, b: seq<PanelRow>)
    ensures CsvLines(a + b) == CsvLines(a) + CsvLines(b)
    decreases |b|
  {
    if b == [] {
      assert a + b == a;
    } else {
      var init := b[..|b| - 1];
      assert (a + b)[..|a + b| - 1] == a + init;
      assert (a + b)[|a + b| - 1] == b[|b| - 1];
      CsvLinesAppend(a, init);
    }
  }

  /**
   * results.csv as the panel scripts write it: the header written when the
   * file is opened with 'w', then lines appended. `rows` are the rows behind
   * the lines after the header.
   */
  class ResultsFile {
    var lines: seq<string>
    ghost var rows: seq<PanelRow>

    ghost predicate Valid()
      reads this
    {
      lines == [CsvHeader] + CsvLines(rows)
    }

    /** open('results.csv', 'w') and the header line. */
    constructor()
      ensures Valid()
      ensures lines == [CsvHeader] && rows == []
    {
      lines := [CsvHeader];
      rows := [];
    }

    /** The row-writing loop (write_results_to_csv and its inline copies): one line per row, in order. */
    method WriteResults(results: seq<PanelRow>)
      modifies this
      ensures lines == old(lines) + CsvLines(results)
      ensures rows == old(rows) + results
      ensures old(Valid()) ==> Valid()
    {
      var i := 0;
      while i < |results|
        invariant 0 <= i <= |results|
        invariant lines == old(lines) + CsvLines(results[..i])
        invariant rows == old(rows) + results[..i]
      {
        assert results[..i + 1][..i] == results[..i];
        assert results[..i + 1] == results[..i] + [results[i]];
        assert CsvLines(results[..i + 1]) == CsvLines(results[..i]) + [CsvLine(results[i])];
        AppendAssoc(old(lines), CsvLines(results[..i]), [CsvLine(results[i])]);
        AppendAssoc(old(rows), results[..i], [results[i]]);
        lines := lines + [CsvLine(results[i])];
        rows := rows + [results[i]];
        i := i + 1;
      }
      assert results[..i] == results;
      if old(Valid()) {
        CsvLinesAppend(old(rows), results);
        AppendAssoc([CsvHeader], CsvLines(old(rows)), CsvLines(results));
      }
    }
  }

  // ---------------------------------------------------------------------------
  // Reading a line back
  // ---------------------------------------------------------------------------

  predicate NoComma(s: string) { forall k :: 0 <= k < |s| ==> s[k] != ',' }

  /** str.split(','). */
  function SplitFields(s: string): (r: seq<string>)
    ensures |r| >= 1
    decreases |s|
  {
    var i := Find(s, ',');
    if i < 0 then [s] else [s[..i]] + SplitFields(s[i + 1..])
  }

  /** A line of the file read back as a row: four comma-separated fields and two integers, ended by a newline. */
  function ParseCsvLine(line: string): Option<PanelRow>
  {
    if |line| == 0 || line[|line| - 1] != '\n' then None
    else
      var fields := SplitFields(line[..|line| - 1]);
      if |fields| != 4 then None
      else
        match (ParseInt(fields[2]), ParseInt(fields[3]))
        case (Some(week), Some(flag)) => Some(PanelRow(fields[0], fields[1], week, flag))
        case _ => None
  }

  lemma SplitFieldsNoComma(x: string)
    requires NoComma(x)
    ensures SplitFields(x) == [x]
  {
  }

  lemma SplitFieldsCons(x: string, rest: string)
    requires NoComma(x)
    ensures SplitFields(x + "," + rest) == [x] + SplitFields(rest)
  {
    var s := x + "," + rest;
    assert s[|x|] == ',';
    var i := Find(s, ',');
    assert i == |x|;
    assert s[..i] == x && s[i + 1..] == rest;
  }

  lemma NumeralNoComma(n: int)
    ensures NoComma(IntToString(n))
  {
  }

  lemma SplitFieldsFour(a: string, b: string, c: string, d: string)
    requires NoComma(a) && NoComma(b) && NoComma(c) && NoComma(d)
    ensures SplitFields(a + "," + (b + "," + (c + "," + d))) == [a, b, c, d]
  {
    var t3 := c + "," + d;
    var t2 := b + "," + t3;
    SplitFieldsNoComma(d);
    SplitFieldsCons(c, d);
    assert SplitFields(t3) == [c, d];
    SplitFieldsCons(b, t3);
    assert SplitFields(t2) == [b, c, d];
    SplitFieldsCons(a, t2);
  }

  /** A record read back gives its four fields, when none of them holds a comma. */
  lemma CsvRecordFields(a: string, b: string, c: string, d: string)
    requires NoComma(a) && NoComma(b) && NoComma(c) && NoComma(d)
    ensures var line := CsvRecord([a, b, c, d]);
            |line| > 0 && line[|line| - 1] == '\n' && SplitFields(line[..|line| - 1]) == [a, b, c, d]
  {
    var fields := [a, b, c, d];
    assert fields[1..] == [b, c, d] && fields[1..][1..] == [c, d] && fields[1..][1..][1..] == [d];
    var body := a + "," + (b + "," + (c + "," + d));
    assert CsvRecord([d]) == d + "\n";
    assert CsvRecord([c, d]) == (c + "," + d) + "\n";
    assert CsvRecord([b, c, d]) == (b + "," + (c + "," + d)) + "\n";
    assert CsvRecord(fields) == body + "\n";
    assert (body + "\n")[..|body|] == body;
    SplitFieldsFour(a, b, c, d);
  }

  /** Reading back a written row gives the row, when product and firm hold no comma. */
  lemma CsvLineRoundTrip(r: PanelRow)
    requires NoComma(r.product) && NoComma(r.firm)
    ensures ParseCsvLine(CsvLine(r)) == Some(r)
  {
    NumeralNoComma(r.week);
    NumeralNoComma(r.hasSeal);
    CsvRecordFields(r.product, r.firm, IntToString(r.week), IntToString(r.hasSeal));
    assert CsvLine(r) == CsvRecord([r.product, r.firm, IntToString(r.week), IntToString(r.hasSeal)]);
    IntToStringRoundTrip(r.week);
    IntToStringRoundTrip(r.hasSeal);
  }

  /** The header line does not read as a row, so rows and header cannot be confused. */
  lemma CsvHeaderIsNoRow()
    ensures ParseCsvLine(CsvHeader) == None
  {
    var week := "week_running_var";
    assert NoComma(week) && !IsDigit(week[0]) && week[0] != '-';
    CsvRecordFields("produkt_id", "haendler_bez", week, "firm_has_seal_j");
  }

  // ---------------------------------------------------------------------------
  // Enumerating a set of weeks
  // ---------------------------------------------------------------------------

  predicate StrictlyIncreasing(xs: seq<int>) { forall i, j :: 0 <= i < j < |xs| ==> xs[i] < xs[j] }

  /**
   * The order in which a set of running weeks within [lo, hi] is iterated.
   * Python iterates a set in its hash-table order; the model fixes ascending
   * order.
   */
  function Ascending(s: set<int>, lo: int, hi: int): (r: seq<int>)
    ensures forall w :: w in r <==> w in s && lo <= w <= hi
    ensures StrictlyIncreasing(r)
    ensures forall i :: 0 <= i < |r| ==> lo <= r[i]
    decreases hi - lo
  {
    if lo > hi then []
    else (if lo in s then [lo] else []) + Ascending(s, lo + 1, hi)
  }
}
