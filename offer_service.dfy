// OffersService (impl/service/offers_service.py): the selection service the
// panel scripts use. Each method issues one repository query, given here as
// the in-memory table `offers`, and post-processes the rows. Seal dates are
// Unix seconds; the string parsing and local-time conversions of the source
// are not part of this model.

module OfferService {
  import opened Wrappers
  import opened Seqs
  import opened Calendar
  import opened Helpers
  import opened Repositories
  import opened Selection

  /** get_offered_weeks: the repository rows, then the clamped weekly walk and the +-26-week bound. */
  method GetOfferedWeeks(offers: seq<Offer>, product: string, firm: string, seal: int) returns (weeks: set<int>)
    ensures weeks == OfferedWeeks(offers, product, firm, seal)
    ensures forall w :: w in weeks ==> LowerWeek(seal) <= w <= UpperWeek(seal)
  {
    var range := InflowTimeRange(seal);
    var rows := OfferedWeekRows(offers, product, firm, range.0, range.1);
    weeks := CollectOfferedWeeks(SpansOf(rows), seal);
  }

  /** The firms other than the seal firms that offered the product at the seal instant (DISTINCT). */
  function CounterfactualCandidates(offers: seq<Offer>, product: string, seal: int, sealFirms: seq<string>): seq<string>
  {
    CounterfactualPool(CounterfactualFirms(offers, product, seal, true), sealFirms, None)
  }

  /**
   * get_rand_max_N_counterfactual_firms: random.sample of min(|pool|, 10) from the
   * candidates. `allowedFirms` is accepted and never consulted.
   */
  function RandMaxCounterfactualFirms(offers: seq<Offer>, product: string, seal: int, sealFirms: seq<string>,
                                      allowedFirms: seq<string>): (r: seq<string>)
    ensures |r| == Min(|CounterfactualCandidates(offers, product, seal, sealFirms)|, CounterfactualFirmsAmount)
    ensures NoDup(r)
    ensures forall f :: f in r ==> (f !in sealFirms &&
      exists o :: o in offers && o.product == product && o.begin <= seal <= o.end && o.firm == f)
  {
    var firms := CounterfactualFirms(offers, product, seal, true);
    CounterfactualFirmsSpec(offers, product, seal, true);
    CounterfactualPoolSpec(firms, sealFirms, None);
    var r := SampleUpTo(CounterfactualCandidates(offers, product, seal, sealFirms));
    SubMultisetMembers(r, CounterfactualCandidates(offers, product, seal, sealFirms));
    r
  }

  /**
   * The older OffersService (impl/service/OffersService.py) builds the same pool
   * with an append loop (its allowed-firm test is commented out) and samples
   * min(|pool|, 10) after seeding: the same draw as the current service.
   */
  method LegacyRandMaxCounterfactualFirms(offers: seq<Offer>, product: string, seal: int, sealFirms: seq<string>,
                                          allowedFirms: seq<string>) returns (sample: seq<string>)
    ensures sample == RandMaxCounterfactualFirms(offers, product, seal, sealFirms, allowedFirms)
    ensures |sample| <= CounterfactualFirmsAmount
  {
    var firms := CounterfactualFirms(offers, product, seal, true);
    var counterfactualFirms := [];
    var i := 0;
    while i < |firms|
      invariant 0 <= i <= |firms|
      invariant counterfactualFirms == CounterfactualPool(firms[..i], sealFirms, None)
    {
      CounterfactualPoolSnoc(firms[..i], firms[i], sealFirms, None);
      assert firms[..i + 1] == firms[..i] + [firms[i]];
      if firms[i] !in sealFirms {
        counterfactualFirms := counterfactualFirms + [firms[i]];
      }
      i := i + 1;
    }
    assert firms[..i] == firms;
    sample := SampleUpTo(counterfactualFirms);
  }

  /** A pool of at most ten candidates is returned whole, as a reordering. */
  lemma SmallPoolTakenWhole(offers: seq<Offer>, product: string, seal: int, sealFirms: seq<string>, allowedFirms: seq<string>)
    requires |CounterfactualCandidates(offers, product, seal, sealFirms)| <= CounterfactualFirmsAmount
    ensures multiset(RandMaxCounterfactualFirms(offers, product, seal, sealFirms, allowedFirms))
      == multiset(CounterfactualCandidates(offers, product, seal, sealFirms))
  {
    var pool := CounterfactualCandidates(offers, product, seal, sealFirms);
    Sampling.SampleAll(pool, SamplerSeed);
    assert Min(|pool|, CounterfactualFirmsAmount) == |pool|;
  }

  /** The products the retailer offered in [seal - window, seal + window] (DISTINCT). */
  function ProductCandidates(offers: seq<Offer>, retailer: string, seal: int, window: int): seq<string>
  {
    RetailerProducts(offers, retailer, seal - window * UnixWeek, seal + window * UnixWeek, true)
  }

  /**
   * get_random_n_products_deterministic: [] when the retailer offered nothing in
   * the window, else random.sample(candidates, min(n, |candidates|)) after
   * seeding, which raises ValueError for a negative n.
   */
  function RandomNProducts(offers: seq<Offer>, retailer: string, seal: int, n: int, seed: int, window: int): (r: Result<seq<string>>)
    ensures r.Ok? <==> ProductCandidates(offers, retailer, seal, window) == [] || n >= 0
    ensures ProductCandidates(offers, retailer, seal, window) == [] ==> r == Ok([])
    ensures r.Ok? && ProductCandidates(offers, retailer, seal, window) != [] ==>
      |r.value| == Min(n, |ProductCandidates(offers, retailer, seal, window)|)
    ensures r.Ok? ==> NoDup(r.value)
    ensures r.Ok? ==> forall p :: p in r.value ==>
      exists o :: o in offers && o.firm == retailer && o.product == p
        && o.begin <= seal + window * UnixWeek && o.end >= seal - window * UnixWeek
  {
    var candidates := ProductCandidates(offers, retailer, seal, window);
    var r := Selection.SampleProducts(candidates, n, seed);
    SampledProductsOffered(offers, retailer, seal, n, seed, window);
    r
  }

  lemma ProductCandidateOffered(offers: seq<Offer>, retailer: string, seal: int, window: int, p: string)
    requires p in ProductCandidates(offers, retailer, seal, window)
    ensures exists o :: o in offers && o.firm == retailer && o.product == p
                        && o.begin <= seal + window * UnixWeek && o.end >= seal - window * UnixWeek
  {
    RetailerProductsSpec(offers, retailer, seal - window * UnixWeek, seal + window * UnixWeek, true);
  }

  lemma SampledProductsOffered(offers: seq<Offer>, retailer: string, seal: int, n: int, seed: int, window: int)
    ensures Selection.SampleProducts(ProductCandidates(offers, retailer, seal, window), n, seed).Ok? ==>
      var r := Selection.SampleProducts(ProductCandidates(offers, retailer, seal, window), n, seed).value;
      NoDup(r) && forall p :: p in r ==>
        exists o :: o in offers && o.firm == retailer && o.product == p
          && o.begin <= seal + window * UnixWeek && o.end >= seal - window * UnixWeek
  {
    var lo, hi := seal - window * UnixWeek, seal + window * UnixWeek;
    var candidates := ProductCandidates(offers, retailer, seal, window);
    var r := Selection.SampleProducts(candidates, n, seed);
    if r.Ok? {
      RetailerProductsSpec(offers, retailer, lo, hi, true);
      SampleProductsNoDup(candidates, n, seed);
      SubMultisetMembers(r.value, candidates);
      forall p | p in r.value
        ensures exists o :: o in offers && o.firm == retailer && o.product == p
                            && o.begin <= seal + window * UnixWeek && o.end >= seal - window * UnixWeek
      {
        ProductCandidateOffered(offers, retailer, seal, window, p);
      }
    }
  }

  /** is_product_continuously_offered, stepping through each offer one week at a time. */
  method IsProductContinuouslyOffered(offers: seq<Offer>, product: string, retailer: string, seal: int, weeks: int)
    returns (ok: bool)
    ensures ok == ContinuouslyOffered(offers, product, retailer, seal, weeks, UnixWeek)
    ensures weeks < 4 ==> !ok
  {
    if weeks < 4 {
      return false;
    }
    var start, end := ContinuityStart(seal, weeks), ContinuityEnd(seal, weeks);
    var spans := ProductOfferSpans(offers, product, retailer, start, end);
    var offered := CollectIsoWeeks(ContinuityScan(seal, weeks, UnixWeek), spans);
    ok := CountMissingWeeks(offered, start, weeks);
  }

  /** filter_continuously_offered_products: the admitted products, in input order. */
  method FilterContinuouslyOfferedProducts(offers: seq<Offer>, retailer: string, products: seq<string>, seal: int,
                                           weekAmount: int) returns (kept: seq<string>)
    ensures kept == Filter(products, Admitted(offers, retailer, seal, weekAmount, UnixWeek))
    ensures Subseq(kept, products)
    ensures forall p :: p in kept <==> p in products && ContinuouslyOffered(offers, p, retailer, seal, weekAmount, UnixWeek)
  {
    ghost var admitted := Admitted(offers, retailer, seal, weekAmount, UnixWeek);
    kept := [];
    var i := 0;
    while i < |products|
      invariant 0 <= i <= |products|
      invariant kept == Filter(products[..i], admitted)
    {
      var ok := IsProductContinuouslyOffered(offers, products[i], retailer, seal, weekAmount);
      FilterSnoc(products[..i], products[i], admitted);
      assert products[..i + 1] == products[..i] + [products[i]];
      if ok {
        kept := kept + [products[i]];
      }
      i := i + 1;
    }
    assert products[..i] == products;
    FilterIsSubseq(products, admitted);
    FilterMembers(products, admitted);
  }
}
