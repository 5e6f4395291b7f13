// impl/static.py: the frame-based predecessor of the services, working on
// in-memory offer and click tables instead of repository queries.
//
// The functions at static.py lines 42, 82, 112, 173 and 224 carry the decorator
// @DeprecationWarning, which replaces each function by a DeprecationWarning
// instance: calling one raises TypeError, so these entry points cannot be
// called. The members below model their bodies, the behaviour they were
// written to have. select_seal_change_firms and
// get_rand_max_N_counterfactual_firms are undecorated.

module StaticSelection {
  import opened Wrappers
  import opened Seqs
  import opened Text
  import opened Calendar
  import opened Helpers
  import opened Sampling
  import opened Repositories
  import opened Selection

  /** A row of the seal-change table: the firm and its 'Guetesiegel First Date' cell (None when null). */
  datatype SealChangeRow = SealChangeRow(firm: string, firstDate: Option<string>)

  /** A full match of ^\d{2}\.\d{2}\.\d{4}$ (ASCII digits). */
  predicate IsSealDate(s: string)
  {
    |s| == 10 && IsDigit(s[0]) && IsDigit(s[1]) && s[2] == '.' && IsDigit(s[3]) && IsDigit(s[4]) && s[5] == '.'
    && IsDigit(s[6]) && IsDigit(s[7]) && IsDigit(s[8]) && IsDigit(s[9])
  }

  /** select_seal_change_firms: the rows whose date is present and has the DD.MM.YYYY shape, in table order. */
  function SelectSealChangeFirms(rows: seq<SealChangeRow>): (r: seq<SealChangeRow>)
    ensures forall x :: x in r <==> x in rows && x.firstDate.Some? && IsSealDate(x.firstDate.value)
    ensures Subseq(r, rows)
  {
    var keep := (x: SealChangeRow) => x.firstDate.Some? && IsSealDate(x.firstDate.value);
    FilterIsSubseq(rows, keep);
    FilterMembers(rows, keep);
    Filter(rows, keep)
  }

  /** A one-digit month is not a seal date; a zero-padded one is. */
  lemma SealDateShapes()
    ensures IsSealDate("17.01.2022")
    ensures !IsSealDate("17.1.2022")
    ensures SelectSealChangeFirms([SealChangeRow("a", Some("17.1.2022")), SealChangeRow("b", Some("17.01.2022")),
      SealChangeRow("c", None)]) == [SealChangeRow("b", Some("17.01.2022"))]
  {
    var rows := [SealChangeRow("a", Some("17.1.2022")), SealChangeRow("b", Some("17.01.2022")), SealChangeRow("c", None)];
    assert !IsSealDate("17.1.2022");
    assert IsSealDate("17.01.2022");
    assert rows[1..][1..] == [rows[2]];
  }

  /** How often the retailer's product was clicked in [lo, hi]. */
  function ClickCount(clicks: seq<Click>, retailer: string, lo: int, hi: int, p: string): nat
  {
    multiset(ClickedProducts(MatchingClicks(clicks, retailer, lo, hi)))[p]
  }

  /**
   * get_top_n_products_by_clicks (default top_n 200, window 8 weeks): the
   * retailer's clicks in [seal - window, seal + window] grouped by product,
   * sorted by count descending, the first top_n product ids.
   */
  function TopNProductsByClicks(clicks: seq<Click>, retailer: string, seal: int, topN: nat, window: int): (r: seq<string>)
    ensures |r| <= topN
    ensures NoDup(r)
    ensures forall i :: 0 <= i < |r| ==>
      ClickCount(clicks, retailer, seal - window * UnixWeek, seal + window * UnixWeek, r[i]) >= 1
    ensures forall i, j :: 0 <= i < j < |r| ==>
      ClickCount(clicks, retailer, seal - window * UnixWeek, seal + window * UnixWeek, r[i])
      >= ClickCount(clicks, retailer, seal - window * UnixWeek, seal + window * UnixWeek, r[j])
  {
    var lo, hi := seal - window * UnixWeek, seal + window * UnixWeek;
    TopProductsByClicksSpec(clicks, retailer, lo, hi, topN);
    KeysOf(TopProductsByClicks(clicks, retailer, lo, hi, topN))
  }

  /** A product clicked in the window is left out only when top_n products with at least as many clicks fill the list. */
  lemma TopNProductsByClicksMaximal(clicks: seq<Click>, retailer: string, seal: int, topN: nat, window: int, p: string)
    requires ClickCount(clicks, retailer, seal - window * UnixWeek, seal + window * UnixWeek, p) >= 1
    requires p !in TopNProductsByClicks(clicks, retailer, seal, topN, window)
    ensures |TopNProductsByClicks(clicks, retailer, seal, topN, window)| == topN
    ensures forall q :: q in TopNProductsByClicks(clicks, retailer, seal, topN, window) ==>
      ClickCount(clicks, retailer, seal - window * UnixWeek, seal + window * UnixWeek, q)
      >= ClickCount(clicks, retailer, seal - window * UnixWeek, seal + window * UnixWeek, p)
  {
    var lo, hi := seal - window * UnixWeek, seal + window * UnixWeek;
    assert p in multiset(ClickedProducts(MatchingClicks(clicks, retailer, lo, hi)));
    var rows := TopProductsByClicks(clicks, retailer, lo, hi, topN);
    TopProductsByClicksSpec(clicks, retailer, lo, hi, topN);
    TopProductsByClicksMaximal(clicks, retailer, lo, hi, topN, p);
    forall q | q in KeysOf(rows) ensures ClickCount(clicks, retailer, lo, hi, q) >= ClickCount(clicks, retailer, lo, hi, p) {
      var i :| 0 <= i < |rows| && KeysOf(rows)[i] == q;
    }
  }

  /** The retailer's distinct products over the whole table (no time window). */
  function FirmProducts(offers: seq<Offer>, retailer: string): seq<string>
  {
    Distinct(ProductsOf(Where(offers, [FirmIs(retailer)])))
  }

  lemma FirmProductsSpec(offers: seq<Offer>, retailer: string)
    ensures forall p :: p in FirmProducts(offers, retailer) <==> exists o :: o in offers && o.firm == retailer && o.product == p
    ensures NoDup(FirmProducts(offers, retailer))
  {
    var cs := [FirmIs(retailer)];
    var rows := Where(offers, cs);
    forall p ensures p in ProductsOf(rows) <==> exists o :: o in offers && o.firm == retailer && o.product == p {
      if p in ProductsOf(rows) {
        var i :| 0 <= i < |rows| && ProductsOf(rows)[i] == p;
        assert rows[i] in rows;
        assert Holds(cs[0], rows[i]);
      }
      if exists o :: o in offers && o.firm == retailer && o.product == p {
        var o :| o in offers && o.firm == retailer && o.product == p;
        assert HoldsAll(cs, o);
        assert o in rows;
        var i :| 0 <= i < |rows| && rows[i] == o;
        assert ProductsOf(rows)[i] == p;
      }
    }
  }

  /**
   * get_random_n_products_deterministic (default n 200): [] when the retailer
   * has no products, else random.sample of min(n, count) of its distinct products.
   */
  function RandomNProducts(offers: seq<Offer>, retailer: string, n: int, seed: int): (r: Result<seq<string>>)
    ensures r.Ok? <==> FirmProducts(offers, retailer) == [] || n >= 0
    ensures FirmProducts(offers, retailer) == [] ==> r == Ok([])
    ensures r.Ok? && FirmProducts(offers, retailer) != [] ==> |r.value| == Min(n, |FirmProducts(offers, retailer)|)
    ensures r.Ok? ==> NoDup(r.value)
    ensures r.Ok? ==> forall p :: p in r.value ==> exists o :: o in offers && o.firm == retailer && o.product == p
  {
    var candidates := FirmProducts(offers, retailer);
    FirmProductsSpec(offers, retailer);
    var r := Selection.SampleProducts(candidates, n, seed);
    if r.Ok? then
      SampleProductsNoDup(candidates, n, seed);
      SubMultisetMembers(r.value, candidates);
      r
    else r
  }

  /** The collection window: [Monday of the seal week - 26 weeks, that Monday + 27 weeks), whatever `weeks` is. */
  function StaticScan(seal: int): Scan
  {
    Scan(UnixDay, StartOfWeek(seal, 0) - PostSealWeeks * UnixWeek, StartOfWeek(seal, 0) + (PostSealWeeks + 1) * UnixWeek, false)
  }

  /** (dtimebegin, dtimeend) of every row of the product at the retailer, with no time filter. */
  function ProductRetailerSpans(offers: seq<Offer>, product: string, retailer: string): seq<(int, int)>
  {
    SpansOf(Where(offers, [ProductIs(product), FirmIs(retailer)]))
  }

  lemma ProductRetailerSpansSpec(offers: seq<Offer>, product: string, retailer: string)
    ensures forall b, e :: (b, e) in ProductRetailerSpans(offers, product, retailer) <==> Offer(product, retailer, b, e) in offers
  {
    var cs := [ProductIs(product), FirmIs(retailer)];
    var rows := Where(offers, cs);
    forall b, e ensures (b, e) in SpansOf(rows) <==> Offer(product, retailer, b, e) in offers {
      var o := Offer(product, retailer, b, e);
      if (b, e) in SpansOf(rows) {
        var i :| 0 <= i < |rows| && SpansOf(rows)[i] == (b, e);
        assert rows[i] in rows;
        assert Holds(cs[0], rows[i]) && Holds(cs[1], rows[i]);
        assert rows[i] == o;
      }
      if o in offers {
        assert HoldsAll(cs, o);
        assert o in rows;
        var i :| 0 <= i < |rows| && rows[i] == o;
        assert SpansOf(rows)[i] == (b, e);
      }
    }
  }

  /**
   * is_product_continuously_offered: false below four weeks; else the ISO week
   * numbers of every day of every row within the collection window, and at most
   * one of the 2 * weeks + 1 week starts from Monday of the seal week - weeks missing.
   */
  predicate ContinuouslyOffered(offers: seq<Offer>, product: string, retailer: string, seal: int, weeks: int)
  {
    weeks >= 4 && Admits(CollectWeeks(StaticScan(seal), ProductRetailerSpans(offers, product, retailer)),
      ContinuityStart(seal, weeks), weeks as nat)
  }

  method IsProductContinuouslyOffered(offers: seq<Offer>, product: string, retailer: string, seal: int, weeks: int)
    returns (ok: bool)
    ensures ok == ContinuouslyOffered(offers, product, retailer, seal, weeks)
    ensures weeks < 4 ==> !ok
  {
    if weeks < 4 {
      return false;
    }
    var spans := ProductRetailerSpans(offers, product, retailer);
    var offered := CollectIsoWeeks(StaticScan(seal), spans);
    ok := CountMissingWeeks(offered, ContinuityStart(seal, weeks), weeks);
  }

  /**
   * For windows of up to 26 weeks this test admits whatever service.py's daily
   * test admits: it walks every row of the product over a window containing
   * service.py's.
   */
  lemma DailyAdmissionImpliesStatic(offers: seq<Offer>, product: string, retailer: string, seal: int, weeks: int)
    requires weeks <= PostSealWeeks
    requires Selection.ContinuouslyOffered(offers, product, retailer, seal, weeks, UnixDay)
    ensures ContinuouslyOffered(offers, product, retailer, seal, weeks)
  {
    var start, end := ContinuityStart(seal, weeks), ContinuityEnd(seal, weeks);
    var small := ProductOfferSpans(offers, product, retailer, start, end);
    var large := ProductRetailerSpans(offers, product, retailer);
    ProductOfferSpansSpec(offers, product, retailer, start, end);
    ProductRetailerSpansSpec(offers, product, retailer);
    forall i | 0 <= i < |small| ensures small[i] in large {
      assert small[i] in small;
    }
    var a := ContinuityScan(seal, weeks, UnixDay);
    var b := StaticScan(seal);
    forall u | InWindow(a, u) ensures InWindow(b, u) {
    }
    CollectWeeksWiden(a, b, small, large);
    MissingCountAntitone(CollectWeeks(a, small), CollectWeeks(b, large), WeekStartNumbers(start, 2 * weeks + 1));
  }

  /** filter_continuously_offered_products: narrow the table to the retailer, then keep the admitted products in order. */
  method FilterContinuouslyOfferedProducts(offers: seq<Offer>, retailer: string, products: seq<string>, seal: int,
                                           weekAmount: int) returns (kept: seq<string>)
    ensures kept == Filter(products, p => ContinuouslyOffered(offers, p, retailer, seal, weekAmount))
    ensures Subseq(kept, products)
    ensures forall p :: p in kept <==> p in products && ContinuouslyOffered(offers, p, retailer, seal, weekAmount)
  {
    ghost var admitted := p => ContinuouslyOffered(offers, p, retailer, seal, weekAmount);
    var narrowed := Where(offers, [FirmIs(retailer)]);
    kept := [];
    var i := 0;
    while i < |products|
      invariant 0 <= i <= |products|
      invariant kept == Filter(products[..i], admitted)
    {
      NarrowingKeepsSpans(offers, products[i], retailer);
      var ok := IsProductContinuouslyOffered(narrowed, products[i], retailer, seal, weekAmount);
      FilterSnoc(products[..i], products[i], admitted);
      assert products[..i + 1] == products[..i] + [products[i]];
      if ok {
        kept := kept + [products[i]];
      }
      i := i + 1;
    }
    assert products[..i] == products;
    FilterIsSubseq(products, admitted);
    FilterMembers(products, admitted);
  }

  lemma NarrowingKeepsSpans(offers: seq<Offer>, product: string, retailer: string)
    ensures ProductRetailerSpans(Where(offers, [FirmIs(retailer)]), product, retailer) == ProductRetailerSpans(offers, product, retailer)
  {
    var cs := [ProductIs(product), FirmIs(retailer)];
    forall o | HoldsAll(cs, o) ensures HoldsAll([FirmIs(retailer)], o) {
      assert Holds(cs[1], o);
    }
    WhereAbsorb(offers, [FirmIs(retailer)], cs);
  }

  /**
   * get_rand_max_N_counterfactual_firms: the allowed, non-seal firms of every
   * row running at the seal instant (repeats kept); random.sample of 10 only
   * when there are more than 10.
   */
  function RandMaxCounterfactualFirms(offers: seq<Offer>, product: string, seal: int, sealFirms: seq<string>,
                                      allowedFirms: seq<string>): (r: seq<string>)
    ensures |r| == Min(|AllowedCounterfactualCandidates(offers, product, seal, sealFirms, allowedFirms)|, CounterfactualFirmsAmount)
    ensures multiset(r) <= multiset(AllowedCounterfactualCandidates(offers, product, seal, sealFirms, allowedFirms))
    ensures |AllowedCounterfactualCandidates(offers, product, seal, sealFirms, allowedFirms)| <= CounterfactualFirmsAmount ==>
      r == AllowedCounterfactualCandidates(offers, product, seal, sealFirms, allowedFirms)
    ensures forall f :: f in r ==> (f !in sealFirms && f in allowedFirms &&
      exists o :: o in offers && o.product == product && o.begin <= seal <= o.end && o.firm == f)
  {
    var pool := AllowedCounterfactualCandidates(offers, product, seal, sealFirms, allowedFirms);
    AllowedCounterfactualCandidatesSpec(offers, product, seal, sealFirms, allowedFirms);
    var r := CappedSample(pool);
    SubMultisetMembers(r, pool);
    r
  }

  /** The rows get_offered_weeks keeps: the product at the firm (exact ids) beginning by the end of the inflow window. */
  function StaticOfferedWeekRows(offers: seq<Offer>, product: string, firm: string, seal: int): seq<Offer>
  {
    Where(offers, [ProductIs(product), FirmIs(firm), BeginsBy(InflowTimeRange(seal).1)])
  }

  /** get_offered_weeks: the same clamp, weekly walk and +-26-week bound over those rows. */
  method GetOfferedWeeks(offers: seq<Offer>, product: string, firm: string, seal: int) returns (weeks: set<int>)
    ensures weeks == OfferedWeeksOf(SpansOf(StaticOfferedWeekRows(offers, product, firm, seal)), seal)
    ensures forall w :: w in weeks ==> LowerWeek(seal) <= w <= UpperWeek(seal)
  {
    weeks := CollectOfferedWeeks(SpansOf(StaticOfferedWeekRows(offers, product, firm, seal)), seal);
  }

  /**
   * Without the end-of-row condition the same weeks come out as the services'
   * closed-overlap query gives, for non-empty ids: a row ending before the
   * window clamps to an empty walk.
   */
  lemma StaticOfferedWeeksAgree(offers: seq<Offer>, product: string, firm: string, seal: int, w: int)
    requires product != "" && firm != ""
    ensures w in OfferedWeeksOf(SpansOf(StaticOfferedWeekRows(offers, product, firm, seal)), seal)
      <==> w in OfferedWeeks(offers, product, firm, seal)
  {
    var from, to := InflowTimeRange(seal).0, InflowTimeRange(seal).1;
    OfferedWeeksOfRows(StaticOfferedWeekRows(offers, product, firm, seal), seal, w);
    OfferedWeeksSpec(offers, product, firm, seal, w);
    StaticRowsWeeks(offers, product, firm, from, to, w);
  }

  /** The row-level half: a row of the static query walks onto `w` exactly when a row of the product at the firm does. */
  lemma StaticRowsWeeks(offers: seq<Offer>, product: string, firm: string, from: int, to: int, w: int)
    ensures (exists o :: o in Where(offers, [ProductIs(product), FirmIs(firm), BeginsBy(to)]) && w in RowWeeks((o.begin, o.end), from, to))
      <==> (exists o :: o in offers && o.product == product && o.firm == firm && w in RowWeeks((o.begin, o.end), from, to))
  {
    var cs := [ProductIs(product), FirmIs(firm), BeginsBy(to)];
    var rows := Where(offers, cs);
    if exists o :: o in rows && w in RowWeeks((o.begin, o.end), from, to) {
      var o :| o in rows && w in RowWeeks((o.begin, o.end), from, to);
      assert HoldsAll(cs, o);
      assert Holds(cs[0], o) && Holds(cs[1], o);
    }
    if exists o :: o in offers && o.product == product && o.firm == firm && w in RowWeeks((o.begin, o.end), from, to) {
      var o :| o in offers && o.product == product && o.firm == firm && w in RowWeeks((o.begin, o.end), from, to);
      RowWeeksSpec((o.begin, o.end), from, to, w);
      assert Holds(cs[0], o) && Holds(cs[1], o) && Holds(cs[2], o);
      assert HoldsAll(cs, o);
      assert o in rows;
    }
  }
}
