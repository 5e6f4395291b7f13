// The offer and click repositories, read as what their SQL returns from an
// in-memory table. An offer row is (produkt_id, haendler_bez, dtimebegin,
// dtimeend); a click row is (produkt_id, haendler_bez, timestamp). A WHERE
// clause is a list of conditions that must all hold; the query builders
// render the same conditions as text. Row order is table order; SQL leaves
// DISTINCT and ORDER BY ties unordered, and the model resolves them by first
// occurrence.

module Repositories {
  import opened Wrappers
  import opened Seqs

  datatype Offer = Offer(product: string, firm: string, begin: int, end: int)
  datatype Click = Click(product: string, firm: string, timestamp: int)

  /** One WHERE condition over the offer table. */
  datatype Cond =
    | ProductIs(product: string)       // produkt_id = 'p'
    | FirmIs(firm: string)             // haendler_bez = 'f'
    | Overlaps(start: int, end: int)   // dtimebegin <= end AND dtimeend >= start
    | EndsFrom(start: int)             // dtimeend >= start
    | BeginsBy(end: int)               // dtimebegin <= end

  predicate Holds(c: Cond, o: Offer)
  {
    match c
    case ProductIs(p) => o.product == p
    case FirmIs(f) => o.firm == f
    case Overlaps(s, e) => o.begin <= e && o.end >= s
    case EndsFrom(s) => o.end >= s
    case BeginsBy(e) => o.begin <= e
  }

  predicate HoldsAll(cs: seq<Cond>, o: Offer)
  {
    forall i :: 0 <= i < |cs| ==> Holds(cs[i], o)
  }

  /** SELECT ... FROM offers WHERE cs: the rows meeting every condition, in table order. */
  function Where(offers: seq<Offer>, cs: seq<Cond>): (r: seq<Offer>)
    ensures forall o :: o in r <==> o in offers && HoldsAll(cs, o)
  {
    FilterMembers(offers, o => HoldsAll(cs, o));
    Filter(offers, o => HoldsAll(cs, o))
  }

  /**
   * The conditions `build_ijt_where_clause` adds: product and firm only when
   * truthy (a non-empty string), then the time condition chosen by which
   * bounds are present.
   */
  function IjtConds(product: string, firm: string, start: Option<int>, end: Option<int>): seq<Cond>
  {
    (if product != "" then [ProductIs(product)] else [])
    + (if firm != "" then [FirmIs(firm)] else [])
    + (if start.Some? && end.Some? then [Overlaps(start.value, end.value)]
       else if start.Some? then [EndsFrom(start.value)]
       else if end.Some? then [BeginsBy(end.value)]
       else [])
  }

  /** What the generated clause means: an absent filter drops that test. */
  lemma IjtCondsMeaning(product: string, firm: string, start: Option<int>, end: Option<int>, o: Offer)
    ensures HoldsAll(IjtConds(product, firm, start, end), o) <==>
      (product == "" || o.product == product) && (firm == "" || o.firm == firm)
      && (start.Some? ==> o.end >= start.value) && (end.Some? ==> o.begin <= end.value)
  {
    var cs := IjtConds(product, firm, start, end);
    var a := if product != "" then [ProductIs(product)] else [];
    var b := if firm != "" then [FirmIs(firm)] else [];
    var c := cs[|a| + |b|..];
    assert cs == a + b + c;
    assert HoldsAll(cs, o) <==> HoldsAll(a, o) && HoldsAll(b, o) && HoldsAll(c, o) by {
      HoldsAllAppend(a + b, c, o);
      HoldsAllAppend(a, b, o);
    }
    assert HoldsAll(a, o) <==> (product == "" || o.product == product) by {
      if product != "" { assert a[0] == ProductIs(product); }
    }
    assert HoldsAll(b, o) <==> (firm == "" || o.firm == firm) by {
      if firm != "" { assert b[0] == FirmIs(firm); }
    }
    assert HoldsAll(c, o) <==> (start.Some? ==> o.end >= start.value) && (end.Some? ==> o.begin <= end.value) by {
      if start.Some? || end.Some? { assert |c| == 1 && Holds(c[0], o) == HoldsAll(c, o); }
    }
  }

  lemma HoldsAllAppend(a: seq<Cond>, b: seq<Cond>, o: Offer)
    ensures HoldsAll(a + b, o) <==> HoldsAll(a, o) && HoldsAll(b, o)
  {
    if HoldsAll(a, o) && HoldsAll(b, o) {
      forall i | 0 <= i < |a + b| ensures Holds((a + b)[i], o) {
        if i >= |a| {
          assert (a + b)[i] == b[i - |a|];
        }
      }
    }
    if HoldsAll(a + b, o) {
      forall i | 0 <= i < |b| ensures Holds(b[i], o) {
        assert (a + b)[|a| + i] == b[i];
      }
      forall i | 0 <= i < |a| ensures Holds(a[i], o) {
        assert (a + b)[i] == a[i];
      }
    }
  }

  /** Narrowing the table by conditions that the query already implies changes no query result. */
  lemma WhereAbsorb(offers: seq<Offer>, narrow: seq<Cond>, cs: seq<Cond>)
    requires forall o :: HoldsAll(cs, o) ==> HoldsAll(narrow, o)
    ensures Where(Where(offers, narrow), cs) == Where(offers, cs)
  {
    FilterAbsorb(offers, o => HoldsAll(narrow, o), o => HoldsAll(cs, o));
  }

  function FirmsOf(rows: seq<Offer>): (r: seq<string>)
    ensures |r| == |rows| && forall i :: 0 <= i < |rows| ==> r[i] == rows[i].firm
  {
    seq(|rows|, i requires 0 <= i < |rows| => rows[i].firm)
  }

  function ProductsOf(rows: seq<Offer>): (r: seq<string>)
    ensures |r| == |rows| && forall i :: 0 <= i < |rows| ==> r[i] == rows[i].product
  {
    seq(|rows|, i requires 0 <= i < |rows| => rows[i].product)
  }

  function SpansOf(rows: seq<Offer>): (r: seq<(int, int)>)
    ensures |r| == |rows| && forall i :: 0 <= i < |rows| ==> r[i] == (rows[i].begin, rows[i].end)
  {
    seq(|rows|, i requires 0 <= i < |rows| => (rows[i].begin, rows[i].end))
  }

  // ---- offer queries (offers_repository.py; OffersRepository.py and repository.py issue the same ones) ----

  /** fetch_offered_weeks / get_offered_weeks: the product's rows at the firm overlapping [start, end]. */
  function OfferedWeekRows(offers: seq<Offer>, product: string, firm: string, start: int, end: int): seq<Offer>
  {
    Where(offers, IjtConds(product, firm, Some(start), Some(end)))
  }

  lemma OfferedWeekRowsSpec(offers: seq<Offer>, product: string, firm: string, start: int, end: int)
    ensures forall o :: o in OfferedWeekRows(offers, product, firm, start, end) <==>
      o in offers && (product == "" || o.product == product) && (firm == "" || o.firm == firm)
      && o.begin <= end && o.end >= start
    ensures Subseq(OfferedWeekRows(offers, product, firm, start, end), offers)
  {
    forall o {
      IjtCondsMeaning(product, firm, Some(start), Some(end), o);
    }
    FilterIsSubseq(offers, o => HoldsAll(IjtConds(product, firm, Some(start), Some(end)), o));
  }

  /**
   * fetch_counterfactual_firms / get_counterfactual_firms: firms with an offer of
   * the product running at the seal instant. `distinct` is the DISTINCT of the
   * newer repositories; repository.py returns one firm per matching row.
   */
  function CounterfactualFirms(offers: seq<Offer>, product: string, seal: int, distinct: bool): seq<string>
  {
    var firms := FirmsOf(Where(offers, [ProductIs(product), Overlaps(seal, seal)]));
    if distinct then Distinct(firms) else firms
  }

  lemma CounterfactualFirmsSpec(offers: seq<Offer>, product: string, seal: int, distinct: bool)
    ensures forall f :: f in CounterfactualFirms(offers, product, seal, distinct) <==>
      exists o :: o in offers && o.product == product && o.begin <= seal <= o.end && o.firm == f
    ensures distinct ==> NoDup(CounterfactualFirms(offers, product, seal, distinct))
    ensures !distinct ==>
      |CounterfactualFirms(offers, product, seal, distinct)| == |Where(offers, [ProductIs(product), Overlaps(seal, seal)])|
  {
    forall f {
      ActiveFirm(offers, product, seal, f);
    }
  }

  lemma ActiveFirm(offers: seq<Offer>, product: string, seal: int, f: string)
    ensures f in FirmsOf(Where(offers, [ProductIs(product), Overlaps(seal, seal)])) <==>
      exists o :: o in offers && o.product == product && o.begin <= seal <= o.end && o.firm == f
  {
    var cs := [ProductIs(product), Overlaps(seal, seal)];
    var rows := Where(offers, cs);
    if f in FirmsOf(rows) {
      var i :| 0 <= i < |rows| && FirmsOf(rows)[i] == f;
      assert rows[i] in rows;
      assert HoldsAll(cs, rows[i]);
      assert Holds(cs[0], rows[i]) && Holds(cs[1], rows[i]);
    }
    if exists o :: o in offers && o.product == product && o.begin <= seal <= o.end && o.firm == f {
      var o :| o in offers && o.product == product && o.begin <= seal <= o.end && o.firm == f;
      assert HoldsAll(cs, o);
      assert o in rows;
      var i :| 0 <= i < |rows| && rows[i] == o;
      assert FirmsOf(rows)[i] == f;
    }
  }

  /** fetch_product_offer_data / get_product_offer_data: (dtimebegin, dtimeend) of the product at the retailer overlapping the window. */
  function ProductOfferSpans(offers: seq<Offer>, product: string, retailer: string, start: int, end: int): seq<(int, int)>
  {
    SpansOf(Where(offers, [ProductIs(product), FirmIs(retailer), Overlaps(start, end)]))
  }

  lemma ProductOfferSpansSpec(offers: seq<Offer>, product: string, retailer: string, start: int, end: int)
    ensures forall b, e :: (b, e) in ProductOfferSpans(offers, product, retailer, start, end) <==>
      Offer(product, retailer, b, e) in offers && b <= end && e >= start
  {
    var cs := [ProductIs(product), FirmIs(retailer), Overlaps(start, end)];
    var rows := Where(offers, cs);
    forall b, e ensures (b, e) in SpansOf(rows) <==> Offer(product, retailer, b, e) in offers && b <= end && e >= start
    {
      var o := Offer(product, retailer, b, e);
      if (b, e) in SpansOf(rows) {
        var i :| 0 <= i < |rows| && SpansOf(rows)[i] == (b, e);
        assert rows[i] in rows;
        assert HoldsAll(cs, rows[i]);
        assert Holds(cs[0], rows[i]) && Holds(cs[1], rows[i]) && Holds(cs[2], rows[i]);
        assert rows[i] == o;
      }
      if o in offers && b <= end && e >= start {
        assert HoldsAll(cs, o);
        assert o in rows;
        var i :| 0 <= i < |rows| && rows[i] == o;
        assert SpansOf(rows)[i] == (b, e);
      }
    }
  }

  /**
   * fetch_random_products / get_random_products: products the retailer offered
   * overlapping the window, DISTINCT in the newer repositories. OffersRepository.py
   * quotes the two bounds; DuckDB casts the literals to the BIGINT column, so the
   * comparison is the same.
   */
  function RetailerProducts(offers: seq<Offer>, retailer: string, start: int, end: int, distinct: bool): seq<string>
  {
    var products := ProductsOf(Where(offers, [FirmIs(retailer), Overlaps(start, end)]));
    if distinct then Distinct(products) else products
  }

  lemma RetailerProductsSpec(offers: seq<Offer>, retailer: string, start: int, end: int, distinct: bool)
    ensures forall p :: p in RetailerProducts(offers, retailer, start, end, distinct) <==>
      exists o :: o in offers && o.firm == retailer && o.begin <= end && o.end >= start && o.product == p
    ensures distinct ==> NoDup(RetailerProducts(offers, retailer, start, end, distinct))
  {
    var cs := [FirmIs(retailer), Overlaps(start, end)];
    var rows := Where(offers, cs);
    forall o ensures o in rows <==> o in offers && o.firm == retailer && o.begin <= end && o.end >= start {
      HoldsPair(cs, o);
    }
    forall p ensures p in ProductsOf(rows) <==>
      exists o :: o in offers && o.firm == retailer && o.begin <= end && o.end >= start && o.product == p
    {
      ProductsOfMember(rows, p);
    }
  }

  lemma HoldsPair(cs: seq<Cond>, o: Offer)
    requires |cs| == 2
    ensures HoldsAll(cs, o) <==> Holds(cs[0], o) && Holds(cs[1], o)
  {
  }

  /** A product is listed exactly when some row has it. */
  lemma ProductsOfMember(rows: seq<Offer>, p: string)
    ensures p in ProductsOf(rows) <==> exists o :: o in rows && o.product == p
  {
    if p in ProductsOf(rows) {
      var i :| 0 <= i < |rows| && ProductsOf(rows)[i] == p;
      assert rows[i] in rows;
    }
    if exists o :: o in rows && o.product == p {
      var o :| o in rows && o.product == p;
      var i :| 0 <= i < |rows| && rows[i] == o;
      assert ProductsOf(rows)[i] == p;
    }
  }

  // ---- top products by clicks (clicks_repository.py, ClicksRepository.py, repository.py) ----

  /** WHERE haendler_bez = r AND timestamp >= start AND timestamp <= end. */
  function MatchingClicks(clicks: seq<Click>, retailer: string, start: int, end: int): seq<Click>
  {
    Filter(clicks, (c: Click) => c.firm == retailer && start <= c.timestamp <= end)
  }

  lemma MatchingClicksMembers(clicks: seq<Click>, retailer: string, start: int, end: int)
    ensures forall c :: c in MatchingClicks(clicks, retailer, start, end) <==>
      c in clicks && c.firm == retailer && start <= c.timestamp <= end
  {
    FilterMembers(clicks, (c: Click) => c.firm == retailer && start <= c.timestamp <= end);
  }

  function ClickedProducts(clicks: seq<Click>): (r: seq<string>)
    ensures |r| == |clicks| && forall i :: 0 <= i < |clicks| ==> r[i] == clicks[i].product
  {
    seq(|clicks|, i requires 0 <= i < |clicks| => clicks[i].product)
  }

  /** GROUP BY produkt_id with COUNT(*): one (product, count) per clicked product. */
  function Groups(clicks: seq<Click>): (r: seq<(string, nat)>)
    ensures forall i :: 0 <= i < |r| ==> r[i].1 == multiset(ClickedProducts(clicks))[r[i].0]
  {
    var keys := Distinct(ClickedProducts(clicks));
    seq(|keys|, i requires 0 <= i < |keys| => (keys[i], multiset(ClickedProducts(clicks))[keys[i]]))
  }

  function KeysOf(rows: seq<(string, nat)>): (r: seq<string>)
    ensures |r| == |rows| && forall i :: 0 <= i < |rows| ==> r[i] == rows[i].0
  {
    seq(|rows|, i requires 0 <= i < |rows| => rows[i].0)
  }

  predicate SortedByCountDesc(rows: seq<(string, nat)>)
  {
    forall i, j :: 0 <= i < j < |rows| ==> rows[i].1 >= rows[j].1
  }

  /** Insert behind every row with a larger count (earlier rows stay first among equal counts). */
  function InsertByCount(x: (string, nat), rows: seq<(string, nat)>): seq<(string, nat)>
  {
    if rows == [] || rows[0].1 <= x.1 then [x] + rows
    else [rows[0]] + InsertByCount(x, rows[1..])
  }

  /** ORDER BY count DESC. */
  function SortByCountDesc(rows: seq<(string, nat)>): seq<(string, nat)>
  {
    if rows == [] then [] else InsertByCount(rows[0], SortByCountDesc(rows[1..]))
  }

  lemma {:induction false} InsertByCountMultiset(x: (string, nat), rows: seq<(string, nat)>)
    ensures multiset(InsertByCount(x, rows)) == multiset([x] + rows)
    ensures forall y :: y in InsertByCount(x, rows) ==> y == x || y in rows
  {
    if rows != [] && rows[0].1 > x.1 {
      InsertByCountMultiset(x, rows[1..]);
      assert rows == [rows[0]] + rows[1..];
    }
  }

  lemma {:induction false} InsertByCountSorted(x: (string, nat), rows: seq<(string, nat)>)
    requires SortedByCountDesc(rows)
    ensures SortedByCountDesc(InsertByCount(x, rows))
  {
    if rows != [] && rows[0].1 > x.1 {
      var rest := InsertByCount(x, rows[1..]);
      InsertByCountSorted(x, rows[1..]);
      InsertByCountMultiset(x, rows[1..]);
      var r := [rows[0]] + rest;
      forall i, j | 0 <= i < j < |r| ensures r[i].1 >= r[j].1 {
        if i == 0 {
          assert r[j] in rest;
        } else {
          assert r[i] == rest[i - 1] && r[j] == rest[j - 1];
        }
      }
    }
  }

  lemma {:induction false} SortByCountDescSpec(rows: seq<(string, nat)>)
    ensures SortedByCountDesc(SortByCountDesc(rows))
    ensures multiset(SortByCountDesc(rows)) == multiset(rows)
  {
    if rows != [] {
      SortByCountDescSpec(rows[1..]);
      InsertByCountSorted(rows[0], SortByCountDesc(rows[1..]));
      InsertByCountMultiset(rows[0], SortByCountDesc(rows[1..]));
      assert rows == [rows[0]] + rows[1..];
    }
  }

  /**
   * fetch_top_products_by_clicks / get_top_n_products_by_clicks: count the
   * retailer's clicks in [start, end] per product, order by count descending,
   * keep the first `limit` rows.
   */
  function TopProductsByClicks(clicks: seq<Click>, retailer: string, start: int, end: int, limit: nat): seq<(string, nat)>
  {
    Take(SortByCountDesc(Groups(MatchingClicks(clicks, retailer, start, end))), limit)
  }

  /** Ordered by non-increasing count, at most `limit` rows, one row per product, each carrying its true count. */
  lemma TopProductsByClicksSpec(clicks: seq<Click>, retailer: string, start: int, end: int, limit: nat)
    ensures var r := TopProductsByClicks(clicks, retailer, start, end, limit);
      var sel := MatchingClicks(clicks, retailer, start, end);
      && SortedByCountDesc(r)
      && |r| == Min(limit, |Distinct(ClickedProducts(sel))|)
      && NoDup(KeysOf(r))
      && (forall i :: 0 <= i < |r| ==> r[i].1 == multiset(ClickedProducts(sel))[r[i].0] && r[i].1 >= 1)
  {
    var sel := MatchingClicks(clicks, retailer, start, end);
    var g := Groups(sel);
    var s := SortByCountDesc(g);
    SortByCountDescSpec(g);
    var r := Take(s, limit);
    assert |s| == |g| by {
      assert |multiset(s)| == |multiset(g)|;
    }
    GroupsNoDup(sel);
    forall i | 0 <= i < |r| ensures r[i].1 == multiset(ClickedProducts(sel))[r[i].0] && r[i].1 >= 1 {
      assert r[i] == s[i];
      assert s[i] in multiset(g);
      var k :| 0 <= k < |g| && g[k] == s[i];
      GroupCountPositive(sel, k);
    }
    SameKeySameRow(g, s);
    forall i, j | 0 <= i < j < |r| ensures KeysOf(r)[i] != KeysOf(r)[j] {
      assert r[i] == s[i] && r[j] == s[j];
      NoDupRowsMultiset(g, s, i, j);
    }
  }

  lemma GroupsNoDup(sel: seq<Click>)
    ensures NoDup(KeysOf(Groups(sel)))
  {
    var keys := Distinct(ClickedProducts(sel));
    assert KeysOf(Groups(sel)) == keys;
  }

  lemma GroupCountPositive(sel: seq<Click>, k: int)
    requires 0 <= k < |Groups(sel)|
    ensures Groups(sel)[k].1 >= 1
  {
    var keys := Distinct(ClickedProducts(sel));
    assert Groups(sel)[k].0 == keys[k];
    assert keys[k] in ClickedProducts(sel);
  }

  /** Rows of the permutation `s` of `g` with equal products are equal rows (a product's count is fixed). */
  lemma SameKeySameRow(g: seq<(string, nat)>, s: seq<(string, nat)>)
    requires multiset(s) == multiset(g)
    requires NoDup(KeysOf(g))
    ensures forall i :: 0 <= i < |s| ==> s[i] in g
  {
    forall i | 0 <= i < |s| ensures s[i] in g {
      assert s[i] in multiset(g);
    }
  }

  lemma NoDupRowsMultiset(g: seq<(string, nat)>, s: seq<(string, nat)>, i: int, j: int)
    requires multiset(s) == multiset(g) && NoDup(KeysOf(g))
    requires 0 <= i < j < |s|
    ensures s[i].0 != s[j].0
  {
    NoDupKeysNoDup(g);
    NoDupMultiset(g);
    MultisetTwice(s, i, j);
    assert s[i] in multiset(g) && s[j] in multiset(g);
    var a :| 0 <= a < |g| && g[a] == s[i];
    var b :| 0 <= b < |g| && g[b] == s[j];
    assert KeysOf(g)[a] == s[i].0 && KeysOf(g)[b] == s[j].0;
    assert s[i].0 == s[j].0 ==> a == b;
  }

  lemma TakeKeys(s: seq<(string, nat)>, limit: nat, j: int)
    requires 0 <= j < |s|
    ensures j < limit ==> s[j].0 in KeysOf(Take(s, limit))
  {
    if j < limit {
      assert Take(s, limit)[j] == s[j];
      assert KeysOf(Take(s, limit))[j] == s[j].0;
    }
  }

  lemma NoDupKeysNoDup(g: seq<(string, nat)>)
    requires NoDup(KeysOf(g))
    ensures NoDup(g)
  {
    forall i, j | 0 <= i < j < |g| ensures g[i] != g[j] {
      assert KeysOf(g)[i] != KeysOf(g)[j];
    }
  }

  /**
   * The ranking keeps the most-clicked products: a product with clicks in the
   * window that is not returned means the limit was reached by products with at
   * least as many clicks.
   */
  lemma TopProductsByClicksMaximal(clicks: seq<Click>, retailer: string, start: int, end: int, limit: nat, p: string)
    requires p in ClickedProducts(MatchingClicks(clicks, retailer, start, end))
    requires p !in KeysOf(TopProductsByClicks(clicks, retailer, start, end, limit))
    ensures |TopProductsByClicks(clicks, retailer, start, end, limit)| == limit
    ensures forall i :: 0 <= i < limit ==>
      TopProductsByClicks(clicks, retailer, start, end, limit)[i].1
      >= multiset(ClickedProducts(MatchingClicks(clicks, retailer, start, end)))[p]
  {
    var sel := MatchingClicks(clicks, retailer, start, end);
    var g := Groups(sel);
    var s := SortByCountDesc(g);
    SortByCountDescSpec(g);
    var r := Take(s, limit);
    var keys := Distinct(ClickedProducts(sel));
    var k :| 0 <= k < |keys| && keys[k] == p;
    assert g[k] == (p, multiset(ClickedProducts(sel))[p]);
    assert g[k] in multiset(s);
    var j :| 0 <= j < |s| && s[j] == g[k];
    TakeKeys(s, limit, j);
    assert j >= limit;
    forall i | 0 <= i < limit
      ensures r[i].1 >= multiset(ClickedProducts(sel))[p]
    {
      assert r[i] == s[i];
    }
  }
}
