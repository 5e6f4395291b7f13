// ProductService (impl/service/service.py): the variant built on
// ProductRepository (impl/repository/repository.py). Its queries carry no
// DISTINCT, its counterfactual pool also requires membership in the allowed
// firms, and its continuity test walks the offers one day at a time.

module ProductService {
  import opened Wrappers
  import opened Seqs
  import opened Calendar
  import opened Helpers
  import opened Sampling
  import opened Repositories
  import opened Selection
  import StaticSelection
  import ClickService

  /** The message validate_params raises for a missing parameter. */
  function MissingParameterMessage(name: string): string
  {
    "Parameter '" + name + "' must be provided."
  }

  /**
   * validate_params(**params): the keyword arguments in call order, each value
   * None or present; ValueError naming the first None one, else nothing.
   */
  method ValidateParams(params: seq<(string, Option<string>)>) returns (r: Result<()>)
    ensures r.Ok? <==> forall i :: 0 <= i < |params| ==> params[i].1.Some?
    ensures r.Err? ==> exists i :: (0 <= i < |params| && params[i].1.None?
      && (forall j :: 0 <= j < i ==> params[j].1.Some?)
      && r.error == ValueError(MissingParameterMessage(params[i].0)))
  {
    var i := 0;
    while i < |params|
      invariant 0 <= i <= |params|
      invariant forall j :: 0 <= j < i ==> params[j].1.Some?
    {
      if params[i].1.None? {
        return Err(ValueError(MissingParameterMessage(params[i].0)));
      }
      i := i + 1;
    }
    return Ok(());
  }

  /** get_offered_weeks, with get_unix_time_range giving the inflow window. */
  method GetOfferedWeeks(offers: seq<Offer>, product: string, firm: string, seal: int) returns (weeks: set<int>)
    ensures weeks == OfferedWeeks(offers, product, firm, seal)
  {
    var range := InflowTimeRange(seal);
    var rows := OfferedWeekRows(offers, product, firm, range.0, range.1);
    weeks := CollectOfferedWeeks(SpansOf(rows), seal);
  }

  /**
   * get_rand_max_N_counterfactual_firms as written: the size guard is commented
   * out, so it always draws exactly 10, which raises ValueError for a smaller pool.
   */
  function RandMaxCounterfactualFirms(offers: seq<Offer>, product: string, seal: int, sealFirms: seq<string>,
                                      allowedFirms: seq<string>): (r: Result<seq<string>>)
    ensures r.Ok? <==> |AllowedCounterfactualCandidates(offers, product, seal, sealFirms, allowedFirms)| >= CounterfactualFirmsAmount
    ensures r.Err? ==> r.error.ValueError?
    ensures r.Ok? ==> (|r.value| == CounterfactualFirmsAmount
      && multiset(r.value) <= multiset(AllowedCounterfactualCandidates(offers, product, seal, sealFirms, allowedFirms)))
  {
    Sample(AllowedCounterfactualCandidates(offers, product, seal, sealFirms, allowedFirms), CounterfactualFirmsAmount, SamplerSeed)
  }

  /**
   * A product offered at the seal instant by a single allowed firm makes the
   * sampler raise, where the guarded sampler returns that firm.
   */
  lemma SmallPoolRaises()
    ensures RandMaxCounterfactualFirms([Offer("p", "f", 0, 10)], "p", 5, [], ["f"]).Err?
    ensures StaticSelection.RandMaxCounterfactualFirms([Offer("p", "f", 0, 10)], "p", 5, [], ["f"]) == ["f"]
  {
    var offers := [Offer("p", "f", 0, 10)];
    var rows := Where(offers, [ProductIs("p"), Overlaps(5, 5)]);
    assert HoldsAll([ProductIs("p"), Overlaps(5, 5)], offers[0]);
    assert rows == [offers[0]];
    assert FirmsOf(rows) == ["f"];
    var pool := AllowedCounterfactualCandidates(offers, "p", 5, [], ["f"]);
    assert pool == ["f"];
  }

  /** Where the code as written does not raise, static.py's guarded sampler returns the same firms. */
  lemma GuardedAgreesWhenPoolLarge(offers: seq<Offer>, product: string, seal: int, sealFirms: seq<string>,
                                   allowedFirms: seq<string>)
    requires |AllowedCounterfactualCandidates(offers, product, seal, sealFirms, allowedFirms)| > CounterfactualFirmsAmount
    ensures RandMaxCounterfactualFirms(offers, product, seal, sealFirms, allowedFirms)
      == Ok(StaticSelection.RandMaxCounterfactualFirms(offers, product, seal, sealFirms, allowedFirms))
  {
  }

  /** get_top_n_products_by_clicks' default top_n. */
  const ServiceTopProductsAmount: nat := 10

  /**
   * get_top_n_products_by_clicks issues the ranked click query of ClicksService
   * over the same eight weeks either side of the seal, so with its default
   * of 10 it lists the first ten of ClicksService's default 200.
   */
  lemma ServiceTopProductsLeadClicksService(clicks: seq<Click>, retailer: string, seal: int)
    ensures var r := ClickService.TopNProductsByClicks(clicks, retailer, seal, ServiceTopProductsAmount);
            |r| <= ServiceTopProductsAmount && r <= ClickService.TopNProductsByClicks(clicks, retailer, seal, ClickService.TopProductsAmount)
  {
    ClickService.TopNProductsByClicksPrefix(clicks, retailer, seal, ServiceTopProductsAmount, ClickService.TopProductsAmount);
  }

  /** The retailer's products with an offer overlapping [seal - window, seal + window], one per offer row. */
  function ProductCandidates(offers: seq<Offer>, retailer: string, seal: int, window: int): seq<string>
  {
    RetailerProducts(offers, retailer, seal - window * UnixWeek, seal + window * UnixWeek, false)
  }

  /**
   * get_random_n_products_deterministic: [] without candidates, else
   * random.sample(candidates, min(n, |candidates|)); a product with several
   * offers in the window is a candidate several times.
   */
  function RandomNProducts(offers: seq<Offer>, retailer: string, seal: int, n: int, seed: int, window: int): (r: Result<seq<string>>)
    ensures r.Ok? <==> ProductCandidates(offers, retailer, seal, window) == [] || n >= 0
    ensures ProductCandidates(offers, retailer, seal, window) == [] ==> r == Ok([])
    ensures r.Ok? && ProductCandidates(offers, retailer, seal, window) != [] ==>
      |r.value| == Min(n, |ProductCandidates(offers, retailer, seal, window)|)
    ensures r.Ok? ==> multiset(r.value) <= multiset(ProductCandidates(offers, retailer, seal, window))
  {
    Selection.SampleProducts(ProductCandidates(offers, retailer, seal, window), n, seed)
  }

  /** Every sampled product was offered by the retailer in the window. */
  lemma RandomNProductsOffered(offers: seq<Offer>, retailer: string, seal: int, n: int, seed: int, window: int, p: string)
    requires RandomNProducts(offers, retailer, seal, n, seed, window).Ok?
    requires p in RandomNProducts(offers, retailer, seal, n, seed, window).value
    ensures exists o :: (o in offers && o.firm == retailer && o.product == p
      && o.begin <= seal + window * UnixWeek && o.end >= seal - window * UnixWeek)
  {
    SampledCandidateOffered(offers, retailer, seal, window, RandomNProducts(offers, retailer, seal, n, seed, window).value, p);
  }

  /** A product drawn from the candidates, with repeats no more often than there, was offered in the window. */
  lemma SampledCandidateOffered(offers: seq<Offer>, retailer: string, seal: int, window: int, sample: seq<string>, p: string)
    requires multiset(sample) <= multiset(ProductCandidates(offers, retailer, seal, window)) && p in sample
    ensures exists o :: (o in offers && o.firm == retailer && o.product == p
      && o.begin <= seal + window * UnixWeek && o.end >= seal - window * UnixWeek)
  {
    var lo, hi := seal - window * UnixWeek, seal + window * UnixWeek;
    SubMultisetMembers(sample, ProductCandidates(offers, retailer, seal, window));
    assert p in RetailerProducts(offers, retailer, lo, hi, false);
    RetailerProductsSpec(offers, retailer, lo, hi, false);
    var o :| o in offers && o.firm == retailer && o.begin <= hi && o.end >= lo && o.product == p;
  }

  /** is_product_continuously_offered (default weeks 4), stepping through each offer one day at a time. */
  method IsProductContinuouslyOffered(offers: seq<Offer>, product: string, retailer: string, seal: int, weeks: int)
    returns (ok: bool)
    ensures ok == ContinuouslyOffered(offers, product, retailer, seal, weeks, UnixDay)
    ensures weeks < 4 ==> !ok
  {
    if weeks < 4 {
      return false;
    }
    var start, end := ContinuityStart(seal, weeks), ContinuityEnd(seal, weeks);
    var spans := ProductOfferSpans(offers, product, retailer, start, end);
    var offered := CollectIsoWeeks(ContinuityScan(seal, weeks, UnixDay), spans);
    ok := CountMissingWeeks(offered, start, weeks);
  }

  /** filter_continuously_offered_products (default week_amount 4): the admitted products, in input order. */
  method FilterContinuouslyOfferedProducts(offers: seq<Offer>, retailer: string, products: seq<string>, seal: int,
                                           weekAmount: int) returns (kept: seq<string>)
    ensures kept == Filter(products, Admitted(offers, retailer, seal, weekAmount, UnixDay))
    ensures Subseq(kept, products)
    ensures forall p :: p in kept <==> p in products && ContinuouslyOffered(offers, p, retailer, seal, weekAmount, UnixDay)
  {
    ghost var admitted := Admitted(offers, retailer, seal, weekAmount, UnixDay);
    kept := [];
    var i := 0;
    while i < |products|
      invariant 0 <= i <= |products|
      invariant kept == Filter(products[..i], admitted)
    {
      var ok := IsProductContinuouslyOffered(offers, products[i], retailer, seal, weekAmount);
      FilterSnoc(products[..i], products[i], admitted);
      assert products[..i + 1] == products[..i] + [products[i]];
      if ok {
        kept := kept + [products[i]];
      }
      i := i + 1;
    }
    assert products[..i] == products;
    FilterIsSubseq(products, admitted);
    FilterMembers(products, admitted);
  }
}
