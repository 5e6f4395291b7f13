// ClicksService (impl/service/clicks_service.py and the older
// impl/service/ClicksService.py): the retailer's most-clicked products in the
// eight weeks either side of the seal date, as the click repository ranks them.
// service.py's ProductService issues the same query with a default of 10.

module ClickService {
  import opened Wrappers
  import opened Seqs
  import opened Calendar
  import opened Repositories
  import opened Selection

  /** CONFIG.TOP_PRODUCTS_OF_SEAL_CHANGE_FIRM_BY_CLICKS_AMOUNT, the default top_n. */
  const TopProductsAmount: nat := 200

  /** The observation window: seal - 8 weeks to seal + 8 weeks, both ends passed on inclusive. */
  function ObservationStart(seal: int): int { seal - ContinuityWeeks * UnixWeek }
  function ObservationEnd(seal: int): int { seal + ContinuityWeeks * UnixWeek }

  /** How often the retailer's product was clicked in the observation window. */
  function WindowClicks(clicks: seq<Click>, retailer: string, seal: int, p: string): nat
  {
    multiset(ClickedProducts(MatchingClicks(clicks, retailer, ObservationStart(seal), ObservationEnd(seal))))[p]
  }

  /**
   * get_top_n_products_by_clicks: the product column of the ranked repository
   * result, at most top_n products, each clicked in the window, most clicked first.
   */
  function TopNProductsByClicks(clicks: seq<Click>, retailer: string, seal: int, topN: nat): (r: seq<string>)
    ensures |r| <= topN
    ensures NoDup(r)
    ensures forall i :: 0 <= i < |r| ==> WindowClicks(clicks, retailer, seal, r[i]) >= 1
    ensures forall i, j :: 0 <= i < j < |r| ==>
      WindowClicks(clicks, retailer, seal, r[i]) >= WindowClicks(clicks, retailer, seal, r[j])
  {
    var rows := TopProductsByClicks(clicks, retailer, ObservationStart(seal), ObservationEnd(seal), topN);
    TopProductsByClicksSpec(clicks, retailer, ObservationStart(seal), ObservationEnd(seal), topN);
    KeysOf(rows)
  }

  /** A clicked product is left out only when top_n products with at least as many clicks fill the list. */
  lemma TopNProductsByClicksMaximal(clicks: seq<Click>, retailer: string, seal: int, topN: nat, p: string)
    requires WindowClicks(clicks, retailer, seal, p) >= 1
    requires p !in TopNProductsByClicks(clicks, retailer, seal, topN)
    ensures |TopNProductsByClicks(clicks, retailer, seal, topN)| == topN
    ensures forall q :: q in TopNProductsByClicks(clicks, retailer, seal, topN) ==>
      WindowClicks(clicks, retailer, seal, q) >= WindowClicks(clicks, retailer, seal, p)
  {
    var lo, hi := ObservationStart(seal), ObservationEnd(seal);
    var sel := MatchingClicks(clicks, retailer, lo, hi);
    assert p in multiset(ClickedProducts(sel));
    var rows := TopProductsByClicks(clicks, retailer, lo, hi, topN);
    TopProductsByClicksSpec(clicks, retailer, lo, hi, topN);
    TopProductsByClicksMaximal(clicks, retailer, lo, hi, topN, p);
    forall q | q in KeysOf(rows) ensures WindowClicks(clicks, retailer, seal, q) >= WindowClicks(clicks, retailer, seal, p) {
      var i :| 0 <= i < |rows| && KeysOf(rows)[i] == q;
    }
  }

  /**
   * A smaller top_n gives a prefix of the larger list: service.py's default
   * of 10 returns the first ten of the 200 that ClicksService returns.
   */
  lemma TopNProductsByClicksPrefix(clicks: seq<Click>, retailer: string, seal: int, m: nat, n: nat)
    requires m <= n
    ensures TopNProductsByClicks(clicks, retailer, seal, m) <= TopNProductsByClicks(clicks, retailer, seal, n)
  {
    var s := SortByCountDesc(Groups(MatchingClicks(clicks, retailer, ObservationStart(seal), ObservationEnd(seal))));
    var a := KeysOf(Take(s, m));
    var b := KeysOf(Take(s, n));
    forall i | 0 <= i < |a| ensures a[i] == b[i] {
      assert Take(s, m)[i] == s[i] == Take(s, n)[i];
    }
  }

  /** A product has window clicks exactly when the retailer's click table holds a click on it in the window. */
  lemma WindowClicksMeaning(clicks: seq<Click>, retailer: string, seal: int, p: string)
    ensures WindowClicks(clicks, retailer, seal, p) >= 1 <==>
      exists c :: c in clicks && c.firm == retailer && c.product == p
        && ObservationStart(seal) <= c.timestamp <= ObservationEnd(seal)
  {
    var lo, hi := ObservationStart(seal), ObservationEnd(seal);
    var sel := MatchingClicks(clicks, retailer, lo, hi);
    var ps := ClickedProducts(sel);
    MatchingClicksMembers(clicks, retailer, lo, hi);
    if WindowClicks(clicks, retailer, seal, p) >= 1 {
      assert p in multiset(ps);
      var i :| 0 <= i < |ps| && ps[i] == p;
      assert sel[i] in sel;
    }
    if exists c :: c in clicks && c.firm == retailer && c.product == p && lo <= c.timestamp <= hi {
      var c :| c in clicks && c.firm == retailer && c.product == p && lo <= c.timestamp <= hi;
      assert c in sel;
      var i :| 0 <= i < |sel| && sel[i] == c;
      assert ps[i] == p;
      assert p in multiset(ps);
    }
  }

  /** The older ClicksService is no Singleton: every construction is a new object holding its own repository. */
  class LegacyClicksService {
    var repository: int

    constructor (repository: int)
      ensures this.repository == repository
    {
      this.repository := repository;
    }
  }
}
