// impl/EMPTY_ROW.py: the 84 columns of the panel data set, the row of
// "CalculationError" values that marks a failed computation, and
// append_empty_row, which stacks that row under a frame of the same width.

module EmptyRow {
  import opened Wrappers
  import opened Seqs
  import opened Text

  /**
   * The module's column list. Lines 73-74 lack a comma between
   * "vfb_in_others_ijt" and "m_vfb_ijt", so Python joins the two adjacent
   * literals into the one name "vfb_in_others_ijtm_vfb_ijt" and the list
   * holds 84 names, not 85.
   */
  const Columns: seq<string> := [
    "haendler_j", "produkt_id_i", "zeit_t",
    "siegel_ehi_jt", "siegel_ecom", "siegel_hv",
    "datum_t", "Unixtime_t",
    "missing _data_week_t", "missing _data_day_t",
    "is_at_jt", "is_de_jt", "is_other_jt", "liefert_at_jt", "liefert_de_jt", "liefert_other_jt",
    "m_liefert_jt", "laden_jt", "abhol_jt",
    "yshop_jt", "yversand,jt", "ylagerbestand_jt", "ybestellstatus_jt", "ykundenservice_jt",
    "ym_shop_jt", "ym_versand_jt", "ym_lagerbestand_jt", "ym_bestellstatus_jt", "ym_kundenservice_jt",
    "ygesamtbewertung_jt", "ym_gesamtbewertung_jt",
    "firm_assortment_jt", "firm_specialization_jt", "sum_clicks_jt", "firm_birth_j",
    "Produkt_bez_i", "subsubkat_i", "subkat_i", "kat_i", "Top200rang_i",
    "preis_ijt", "avail_ijt", "price_ranking_ijt", "price_ranking_de_ijt", "price_ranking_at_ijt",
    "bestpreis_it", "bestpreis_de_it", "bestpreis_at_it",
    "vfb_in_at_ijt", "vfb_in_de_ijt", "vfb_in_others_ijtm_vfb_ijt",
    "vk_vork_at_ijt", "vk_vork_de_ijt", "vk_nachn_at_ijt", "vk_nachn_de_ijt", "m_vk_var",
    "clicks_ijt", "clicks_de_ijt", "clicks_at_ijt",
    "lct_produkt_ijt", "lct_subsubkat_ijt", "lct_subcat_ijt", "lct_cat_ijt",
    "lct_produkt_de_ijt", "lct_subsubkat_de_ijt", "lct_subcat_de_ijt", "lct_cat_de_ijt",
    "lct_produkt__at_ijt", "lct_subsubkat__at_ijt", "lct_subcat_at__ijt", "lct_cat_at_ijt",
    "share_clicks_ijt",
    "share_lct_produkt_ijt", "share_lct_subsubkat_ijt", "share_clicks_de_ijt",
    "share_lct_produkt__de_ijt", "share_lct_subsubkat__de_ijt", "share_clicks__at_ijt",
    "share_lct_produkt__at_ijt", "share_lct_subsubkat__at_ijt",
    "Instrument1_ijt", "Instrument2_ijt", "Instrument3_ijt", "Instrument4_ijt"
  ]

  /** The list as Python parses it has 84 names. */
  lemma ColumnsLength()
    ensures |Columns| == 84
  {
  }

  const ErrorValue: string := "CalculationError"

  /**
   * The columns of the one-row frame built from {col: "CalculationError"
   * for col in cols}: the keys of the dictionary, in first-insertion order.
   */
  function ErrorColumns(): (r: seq<string>)
    ensures NoDup(r) && |r| <= |Columns| && forall c :: c in r <==> c in Columns
  {
    Distinct(Columns)
  }

  /** The single row of that frame: "CalculationError" in every column. */
  function ErrorCells(): (r: seq<string>)
    ensures |r| == |ErrorColumns()| && forall k :: 0 <= k < |r| ==> r[k] == ErrorValue
  {
    seq(|ErrorColumns()|, _ => ErrorValue)
  }

  /** A Polars frame: its column names and its rows of cells. */
  datatype Frame = Frame(columns: seq<string>, rows: seq<seq<string>>)

  function Width(df: Frame): nat { |df.columns| }

  function MismatchMessage(width: int, expected: int): string
  {
    "DataFrame has " + IntToString(width) + " columns, but the empty row has " + IntToString(expected) + " columns."
  }

  /**
   * append_empty_row: a frame whose width differs from the error row's
   * raises ColumnMismatchError; otherwise vstack returns a new frame with
   * the error row under the input's rows. vstack itself raises when the
   * column names differ, which the function's own check does not look at.
   */
  function AppendEmptyRow(df: Frame): Result<Frame>
  {
    var width := |ErrorColumns()|;
    if Width(df) != width then Err(ColumnMismatchError(MismatchMessage(Width(df), width)))
    else if df.columns != ErrorColumns() then Err(ShapeError("unable to vstack, column names don't match"))
    else Ok(Frame(df.columns, df.rows + [ErrorCells()]))
  }

  /**
   * A width mismatch raises ColumnMismatchError naming both widths, and no
   * frame is returned; a frame with the error row's columns gets exactly one
   * more row, the same columns and the same leading rows, and the new row
   * holds "CalculationError" in every column.
   */
  lemma AppendEmptyRowSpec(df: Frame)
    ensures var r := AppendEmptyRow(df);
            (r.Err? && r.error.ColumnMismatchError? <==> Width(df) != |ErrorColumns()|)
            && (r.Err? && r.error.ColumnMismatchError? ==> r.error.message == MismatchMessage(Width(df), |ErrorColumns()|))
            && (r.Ok? <==> df.columns == ErrorColumns())
            && (r.Ok? ==>
                  r.value.columns == df.columns
                  && |r.value.rows| == |df.rows| + 1
                  && r.value.rows[..|df.rows|] == df.rows
                  && |r.value.rows[|df.rows|]| == Width(df)
                  && forall k :: 0 <= k < Width(df) ==> r.value.rows[|df.rows|][k] == ErrorValue)
  {
    var r := AppendEmptyRow(df);
    if r.Ok? {
      assert r.value.rows[..|df.rows|] == df.rows;
    }
  }

  /** Dropping the appended row gives back the input frame. */
  lemma AppendEmptyRowUndo(df: Frame)
    requires AppendEmptyRow(df).Ok?
    ensures var r := AppendEmptyRow(df).value;
            Frame(r.columns, r.rows[..|r.rows| - 1]) == df
  {
    var r := AppendEmptyRow(df).value;
    assert r.rows[..|r.rows| - 1] == df.rows;
  }
}
