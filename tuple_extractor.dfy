// impl/gz_business/unique_tuple_extractor.py: the index space of the panel
// as cartesian products of the firm set J, the product set I and the week
// set T. Python sets are given by an enumeration of their elements (a
// sequence without repetitions); the result sets are Dafny sets.

module TupleExtractor {
  import opened Wrappers
  import opened Seqs

  // ---------------------------------------------------------------------------
  // sorted()
  // ---------------------------------------------------------------------------

  predicate Sorted(xs: seq<int>)
  {
    forall a, b :: 0 <= a < b < |xs| ==> xs[a] <= xs[b]
  }

  /** x placed before the first element not smaller than it. */
  function Insert(x: int, xs: seq<int>): (r: seq<int>)
    requires Sorted(xs)
    ensures Sorted(r) && multiset(r) == multiset(xs) + multiset{x}
    decreases |xs|
  {
    if xs == [] || x <= xs[0] then
      [x] + xs
    else
      var rest := Insert(x, xs[1..]);
      assert xs == [xs[0]] + xs[1..];
      InsertLowerBound(xs[0], x, xs[1..], rest);
      SortedCons(xs[0], rest);
      [xs[0]] + rest
  }

  /** A bound below x and below a sorted list stays below the list with x inserted. */
  lemma InsertLowerBound(m: int, x: int, xs: seq<int>, rest: seq<int>)
    requires m <= x && forall k :: 0 <= k < |xs| ==> m <= xs[k]
    requires multiset(rest) == multiset(xs) + multiset{x}
    ensures forall k :: 0 <= k < |rest| ==> m <= rest[k]
  {
    forall k | 0 <= k < |rest| ensures m <= rest[k] {
      assert rest[k] in multiset(rest);
      if rest[k] != x {
        assert rest[k] in multiset(xs);
      }
    }
  }

  lemma SortedCons(m: int, xs: seq<int>)
    requires Sorted(xs) && forall k :: 0 <= k < |xs| ==> m <= xs[k]
    ensures Sorted([m] + xs)
  {
  }

  /** Python sorted(): the elements in ascending order, as an insertion sort. */
  function Sort(xs: seq<int>): (r: seq<int>)
    ensures Sorted(r) && multiset(r) == multiset(xs)
    decreases |xs|
  {
    if xs == [] then []
    else
      assert xs == [xs[0]] + xs[1..];
      Insert(xs[0], Sort(xs[1..]))
  }

  /** Sorting a set's elements keeps them all, each once, ascending. */
  lemma SortOfSet(xs: seq<int>)
    requires NoDup(xs)
    ensures var r := Sort(xs);
            |r| == |xs| && NoDup(r) && (forall x :: x in r <==> x in xs)
            && forall a, b :: 0 <= a < b < |r| ==> r[a] < r[b]
  {
    var r := Sort(xs);
    assert |r| == |multiset(r)| == |multiset(xs)| == |xs|;
    NoDupMultiset(xs);
    forall x ensures x in r <==> x in xs {
      assert x in r <==> x in multiset(r);
    }
    forall a, b | 0 <= a < b < |r| ensures r[a] != r[b] {
      MultisetTwice(r, a, b);
    }
  }

  // ---------------------------------------------------------------------------
  // The extractor
  // ---------------------------------------------------------------------------

  /** A UniqueTupleExtractor: the firms as given, the products and weeks sorted. */
  datatype Extractor = Extractor(j: seq<string>, i: seq<int>, t: seq<int>)

  /** UniqueTupleExtractor.__init__: keeps J, sorts I and T. */
  function NewExtractor(jSet: seq<string>, iSet: seq<int>, tSet: seq<int>): (e: Extractor)
    ensures e.j == jSet && Sorted(e.i) && Sorted(e.t)
    ensures multiset(e.i) == multiset(iSet) && multiset(e.t) == multiset(tSet)
  {
    Extractor(jSet, Sort(iSet), Sort(tSet))
  }

  function FirmProductPairs(e: Extractor): set<(string, int)> { PairSet(e.j, e.i) }

  function FirmWeekPairs(e: Extractor): set<(string, int)> { PairSet(e.j, e.t) }

  function ProductWeekPairs(e: Extractor): set<(int, int)> { PairSet(e.i, e.t) }

  /** get_unique_tuples: J × I × T. */
  function UniqueTuples(e: Extractor): set<(string, int, int)> { TripleSet(e.j, e.i, e.t) }

  /** The sets get_unique_combinations returns: pairs of a firm and an index, pairs of indices, or triples. */
  datatype Combinations =
    | FirmIndexPairs(fi: set<(string, int)>)
    | IndexPairs(ii: set<(int, int)>)
    | Triples(jit: set<(string, int, int)>)

  const CombinationCountMessage: string := "You need to specify either 2 or 3 sets for combinations."

  /**
   * get_unique_combinations: two names choose (j, i), (j, t) or (i, t) in
   * that order of tests, whatever order the names come in; two names that
   * match none of these fall off the end and give None; three names of any
   * kind give J × I × T; any other count raises ValueError.
   */
  function UniqueCombinations(e: Extractor, names: seq<string>): Result<Option<Combinations>>
  {
    if |names| == 2 then
      if "j" in names && "i" in names then Ok(Some(FirmIndexPairs(FirmProductPairs(e))))
      else if "j" in names && "t" in names then Ok(Some(FirmIndexPairs(FirmWeekPairs(e))))
      else if "i" in names && "t" in names then Ok(Some(IndexPairs(ProductWeekPairs(e))))
      else Ok(None)
    else if |names| == 3 then Ok(Some(Triples(UniqueTuples(e))))
    else Err(ValueError(CombinationCountMessage))
  }

  /**
   * The outcome of get_unique_combinations by the names: it raises exactly
   * for a count other than 2 or 3, gives None exactly for two names that
   * are not two distinct ones of "j", "i", "t", takes the same pair
   * whichever order the two names come in, and for three names always
   * returns get_unique_tuples.
   */
  lemma UniqueCombinationsSpec(e: Extractor, names: seq<string>)
    ensures UniqueCombinations(e, names).Err? <==> |names| != 2 && |names| != 3
    ensures |names| == 2 ==>
              (UniqueCombinations(e, names) == Ok(None) <==>
                 !(names[0] != names[1] && names[0] in ["j", "i", "t"] && names[1] in ["j", "i", "t"]))
    ensures |names| == 2 ==> UniqueCombinations(e, names) == UniqueCombinations(e, [names[1], names[0]])
    ensures |names| == 3 ==> UniqueCombinations(e, names) == Ok(Some(Triples(UniqueTuples(e))))
  {
    if |names| == 2 {
      var swapped := [names[1], names[0]];
      assert forall x :: x in names <==> x in swapped;
    }
  }

  /** Each pair of the two-name results is made of an element of each chosen set. */
  lemma PairsMembers(e: Extractor, j: string, i: int, t: int)
    ensures (j, i) in FirmProductPairs(e) <==> j in e.j && i in e.i
    ensures (j, t) in FirmWeekPairs(e) <==> j in e.j && t in e.t
    ensures (i, t) in ProductWeekPairs(e) <==> i in e.i && t in e.t
    ensures (j, i, t) in UniqueTuples(e) <==> j in e.j && i in e.i && t in e.t
  {
  }

  // ---------------------------------------------------------------------------
  // Cartesian products and their sizes
  // ---------------------------------------------------------------------------

  function PairSet<X(==), Y(==)>(xs: seq<X>, ys: seq<Y>): set<(X, Y)>
  {
    set x, y | x in xs && y in ys :: (x, y)
  }

  function TripleSet<X(==), Y(==), W(==)>(xs: seq<X>, ys: seq<Y>, ws: seq<W>): set<(X, Y, W)>
  {
    set x, y, w | x in xs && y in ys && w in ws :: (x, y, w)
  }

  /** The triples whose first component is x. */
  function Layer<X(==), Y(==), W(==)>(x: X, ys: seq<Y>, ws: seq<W>): set<(X, Y, W)>
  {
    set y, w | y in ys && w in ws :: (x, y, w)
  }

  lemma NoDupInit<T>(xs: seq<T>)
    requires NoDup(xs) && xs != []
    ensures NoDup(xs[..|xs| - 1]) && xs[|xs| - 1] !in xs[..|xs| - 1]
  {
    var init := xs[..|xs| - 1];
    forall a, b | 0 <= a < b < |init| ensures init[a] != init[b] { assert init[a] == xs[a] && init[b] == xs[b]; }
    forall k | 0 <= k < |init| ensures init[k] != xs[|xs| - 1] { assert init[k] == xs[k]; }
  }

  lemma MulSucc(a: int, b: int)
    ensures (a + 1) * b == a * b + b
  {
  }

  lemma DisjointUnionCard<T>(a: set<T>, b: set<T>)
    requires a * b == {}
    ensures |a + b| == |a| + |b|
  {
  }

  /** The pairs whose first component is x. */
  function Row<X(==), Y(==)>(x: X, ys: seq<Y>): set<(X, Y)>
  {
    set y | y in ys :: (x, y)
  }

  lemma {:induction false} RowCard<X, Y>(x: X, ys: seq<Y>)
    requires NoDup(ys)
    ensures |Row(x, ys)| == |ys|
  {
    if ys != [] {
      var init, last := ys[..|ys| - 1], ys[|ys| - 1];
      assert ys == init + [last];
      NoDupInit(ys);
      RowCard(x, init);
      assert Row(x, ys) == Row(x, init) + {(x, last)};
    }
  }

  lemma PairSetSnoc<X, Y>(xs: seq<X>, x: X, ys: seq<Y>)
    ensures PairSet(xs + [x], ys) == PairSet(xs, ys) + Row(x, ys)
  {
  }

  /** J × I over enumerations without repetitions has |J|·|I| pairs. */
  lemma {:induction false} PairCard<X, Y>(xs: seq<X>, ys: seq<Y>)
    requires NoDup(xs) && NoDup(ys)
    ensures |PairSet(xs, ys)| == |xs| * |ys|
  {
    if xs != [] {
      var init, last := xs[..|xs| - 1], xs[|xs| - 1];
      assert xs == init + [last];
      NoDupInit(xs);
      PairCard(init, ys);
      PairSetSnoc(init, last, ys);
      RowCard(last, ys);
      DisjointUnionCard(PairSet(init, ys), Row(last, ys));
      calc {
        |PairSet(xs, ys)|;
        |PairSet(init, ys)| + |Row(last, ys)|;
        |init| * |ys| + |ys|;
        { MulSucc(|init|, |ys|); }
        |xs| * |ys|;
      }
    }
  }

  /** The triples whose first two components are x and y. */
  function Fiber<X(==), Y(==), W(==)>(x: X, y: Y, ws: seq<W>): set<(X, Y, W)>
  {
    set w | w in ws :: (x, y, w)
  }

  lemma {:induction false} FiberCard<X, Y, W>(x: X, y: Y, ws: seq<W>)
    requires NoDup(ws)
    ensures |Fiber(x, y, ws)| == |ws|
  {
    if ws != [] {
      var init, last := ws[..|ws| - 1], ws[|ws| - 1];
      assert ws == init + [last];
      NoDupInit(ws);
      FiberCard(x, y, init);
      assert Fiber(x, y, ws) == Fiber(x, y, init) + {(x, y, last)};
    }
  }

  lemma LayerSnoc<X, Y, W>(x: X, ys: seq<Y>, y: Y, ws: seq<W>)
    ensures Layer(x, ys + [y], ws) == Layer(x, ys, ws) + Fiber(x, y, ws)
  {
  }

  /** The triples with a fixed first component number |I|·|T|. */
  lemma {:induction false} LayerCard<X, Y, W>(x: X, ys: seq<Y>, ws: seq<W>)
    requires NoDup(ys) && NoDup(ws)
    ensures |Layer(x, ys, ws)| == |ys| * |ws|
  {
    if ys != [] {
      var init, last := ys[..|ys| - 1], ys[|ys| - 1];
      assert ys == init + [last];
      NoDupInit(ys);
      LayerCard(x, init, ws);
      LayerSnoc(x, init, last, ws);
      FiberCard(x, last, ws);
      DisjointUnionCard(Layer(x, init, ws), Fiber(x, last, ws));
      calc {
        |Layer(x, ys, ws)|;
        |Layer(x, init, ws)| + |Fiber(x, last, ws)|;
        |init| * |ws| + |ws|;
        { MulSucc(|init|, |ws|); }
        |ys| * |ws|;
      }
    }
  }

  lemma TripleSetSnoc<X, Y, W>(xs: seq<X>, x: X, ys: seq<Y>, ws: seq<W>)
    ensures TripleSet(xs + [x], ys, ws) == TripleSet(xs, ys, ws) + Layer(x, ys, ws)
  {
  }

  /** J × I × T over enumerations without repetitions has |J|·|I|·|T| triples. */
  lemma {:induction false} TripleCard<X, Y, W>(xs: seq<X>, ys: seq<Y>, ws: seq<W>)
    requires NoDup(xs) && NoDup(ys) && NoDup(ws)
    ensures |TripleSet(xs, ys, ws)| == |xs| * (|ys| * |ws|)
  {
    if xs != [] {
      var init, last := xs[..|xs| - 1], xs[|xs| - 1];
      assert xs == init + [last];
      NoDupInit(xs);
      TripleCard(init, ys, ws);
      TripleSetSnoc(init, last, ys, ws);
      LayerCard(last, ys, ws);
      DisjointUnionCard(TripleSet(init, ys, ws), Layer(last, ys, ws));
      calc {
        |TripleSet(xs, ys, ws)|;
        |TripleSet(init, ys, ws)| + |Layer(last, ys, ws)|;
        |init| * (|ys| * |ws|) + |ys| * |ws|;
        { MulSucc(|init|, |ys| * |ws|); }
        |xs| * (|ys| * |ws|);
      }
    }
  }

  /**
   * Built from three sets, get_unique_tuples holds |J|·|I|·|T| triples and
   * each pair result |J|·|I|, |J|·|T| or |I|·|T| pairs.
   */
  lemma UniqueTuplesCount(jSet: seq<string>, iSet: seq<int>, tSet: seq<int>)
    requires NoDup(jSet) && NoDup(iSet) && NoDup(tSet)
    ensures var e := NewExtractor(jSet, iSet, tSet);
            |UniqueTuples(e)| == |jSet| * (|iSet| * |tSet|)
            && |FirmProductPairs(e)| == |jSet| * |iSet|
            && |FirmWeekPairs(e)| == |jSet| * |tSet|
            && |ProductWeekPairs(e)| == |iSet| * |tSet|
  {
    var e := NewExtractor(jSet, iSet, tSet);
    SortOfSet(iSet);
    SortOfSet(tSet);
    TripleCard(e.j, e.i, e.t);
    PairCard(e.j, e.i);
    PairCard(e.j, e.t);
    PairCard(e.i, e.t);
  }
}
