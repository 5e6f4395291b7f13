// Finite-collection vocabulary shared by the queries, the services and the
// retailer-name matcher: duplicate-free sequences, order-preserving filters,
// first-occurrence de-duplication (SQL DISTINCT) and prefixes (SQL LIMIT).

module Seqs {

  predicate NoDup<T(==)>(xs: seq<T>)
  {
    forall i, j :: 0 <= i < j < |xs| ==> xs[i] != xs[j]
  }

  /** `a` is `b` with some elements deleted, order kept. */
  predicate Subseq<T(==)>(a: seq<T>, b: seq<T>)
    decreases |b|
  {
    if a == [] then true
    else if b == [] then false
    else (a[0] == b[0] && Subseq(a[1..], b[1..])) || Subseq(a, b[1..])
  }

  lemma {:induction false} SubseqMembers<T>(a: seq<T>, b: seq<T>)
    requires Subseq(a, b)
    ensures forall x :: x in a ==> x in b
    ensures |a| <= |b|
    decreases |b|
  {
    if a != [] && b != [] {
      if a[0] == b[0] && Subseq(a[1..], b[1..]) {
        SubseqMembers(a[1..], b[1..]);
        forall x | x in a ensures x in b {
          if x != a[0] {
            assert x in a[1..];
          }
        }
      } else {
        SubseqMembers(a, b[1..]);
      }
    }
  }

  /** The elements of `xs` satisfying `p`, in their original order (a list comprehension with a guard). */
  function Filter<T(!new)>(xs: seq<T>, p: T -> bool): (r: seq<T>)
    ensures |r| <= |xs|
    decreases |xs|
  {
    if xs == [] then []
    else (if p(xs[0]) then [xs[0]] else []) + Filter(xs[1..], p)
  }

  /** An element is kept exactly when it is in the sequence and passes the test. */
  lemma {:induction false} FilterMembers<T(!new)>(xs: seq<T>, p: T -> bool)
    ensures forall x :: x in Filter(xs, p) <==> x in xs && p(x)
    decreases |xs|
  {
    if xs != [] {
      FilterMembers(xs[1..], p);
      forall x | x in xs ensures x == xs[0] || x in xs[1..] {
        if x != xs[0] {
          var k :| 0 <= k < |xs| && xs[k] == x;
          assert xs[1..][k - 1] == x;
        }
      }
    }
  }

  lemma {:induction false} FilterIsSubseq<T(!new)>(xs: seq<T>, p: T -> bool)
    ensures Subseq(Filter(xs, p), xs)
    decreases |xs|
  {
    if xs != [] {
      FilterIsSubseq(xs[1..], p);
      var rest := Filter(xs[1..], p);
      if p(xs[0]) {
        assert Filter(xs, p) == [xs[0]] + rest;
        assert ([xs[0]] + rest)[1..] == rest;
      } else {
        assert Filter(xs, p) == rest;
        SubseqSkip(rest, xs);
      }
    }
  }

  /** Filtering a duplicate-free sequence leaves it duplicate-free. */
  lemma {:induction false} FilterNoDup<T(!new)>(xs: seq<T>, p: T -> bool)
    requires NoDup(xs)
    ensures NoDup(Filter(xs, p))
    decreases |xs|
  {
    if xs != [] {
      assert NoDup(xs[1..]);
      FilterNoDup(xs[1..], p);
      FilterMembers(xs[1..], p);
      var rest := Filter(xs[1..], p);
      assert xs[0] !in xs[1..] by {
        forall k | 0 <= k < |xs[1..]| ensures xs[1..][k] != xs[0] {
          assert xs[1..][k] == xs[k + 1];
        }
      }
      if p(xs[0]) {
        var r := [xs[0]] + rest;
        forall i, j | 0 <= i < j < |r| ensures r[i] != r[j] {
          assert r[j] == rest[j - 1];
          if i > 0 {
            assert r[i] == rest[i - 1];
          }
        }
      }
    }
  }

  /** Filtering by a weaker test first changes nothing. */
  lemma {:induction false} FilterAbsorb<T(!new)>(xs: seq<T>, p: T -> bool, q: T -> bool)
    requires forall x :: q(x) ==> p(x)
    ensures Filter(Filter(xs, p), q) == Filter(xs, q)
    decreases |xs|
  {
    if xs != [] {
      FilterAbsorb(xs[1..], p, q);
      var r := Filter(xs, p);
      if p(xs[0]) {
        assert r == [xs[0]] + Filter(xs[1..], p);
        assert r[0] == xs[0] && r[1..] == Filter(xs[1..], p);
        assert Filter(r, q) == (if q(xs[0]) then [xs[0]] else []) + Filter(r[1..], q);
      } else {
        assert r == Filter(xs[1..], p);
        assert !q(xs[0]);
      }
    }
  }

  lemma SubseqSkip<T>(a: seq<T>, b: seq<T>)
    requires b != [] && Subseq(a, b[1..])
    ensures Subseq(a, b)
  {
  }

  /** Appending one more element to the input appends it to the output exactly when it passes. */
  lemma {:induction false} FilterSnoc<T(!new)>(xs: seq<T>, x: T, p: T -> bool)
    ensures Filter(xs + [x], p) == Filter(xs, p) + (if p(x) then [x] else [])
    decreases |xs|
  {
    if xs == [] {
      assert [x][1..] == [];
    } else {
      var ys := xs + [x];
      assert ys[0] == xs[0] && ys[1..] == xs[1..] + [x];
      FilterSnoc(xs[1..], x, p);
      var head := if p(xs[0]) then [xs[0]] else [];
      assert Filter(ys, p) == head + (Filter(xs[1..], p) + (if p(x) then [x] else []));
      AppendAssoc(head, Filter(xs[1..], p), if p(x) then [x] else []);
    }
  }

  /** Filtering keeps every element whose test passes, so a test true everywhere changes nothing. */
  lemma {:induction false} FilterAll<T(!new)>(xs: seq<T>, p: T -> bool)
    requires forall i :: 0 <= i < |xs| ==> p(xs[i])
    ensures Filter(xs, p) == xs
    decreases |xs|
  {
    if xs != [] {
      assert p(xs[0]);
      FilterAll(xs[1..], p);
      assert [xs[0]] + xs[1..] == xs;
    }
  }

  /** The number of elements dropped by a filter is the number of elements that fail the test. */
  lemma {:induction false} FilterCount<T(!new)>(xs: seq<T>, p: T -> bool)
    ensures |Filter(xs, p)| + |Filter(xs, x => !p(x))| == |xs|
    decreases |xs|
  {
    if xs != [] {
      FilterCount(xs[1..], p);
    }
  }

  /** First-occurrence de-duplication: what SQL DISTINCT returns when ties keep table order. */
  function Distinct<T(==,!new)>(xs: seq<T>): (r: seq<T>)
    ensures NoDup(r)
    ensures forall x :: x in r <==> x in xs
    ensures |r| <= |xs|
    decreases |xs|
  {
    if xs == [] then []
    else
      var d := Distinct(xs[..|xs| - 1]);
      var last := xs[|xs| - 1];
      assert forall x :: x in xs <==> x in xs[..|xs| - 1] || x == last by {
        assert xs == xs[..|xs| - 1] + [last];
      }
      if last in d then d else d + [last]
  }

  /** A duplicate-free input is returned unchanged by DISTINCT. */
  lemma {:induction false} DistinctOfNoDup<T(!new)>(xs: seq<T>)
    requires NoDup(xs)
    ensures Distinct(xs) == xs
    decreases |xs|
  {
    if xs != [] {
      var init := xs[..|xs| - 1];
      assert NoDup(init);
      DistinctOfNoDup(init);
      assert xs[|xs| - 1] !in init;
      assert init + [xs[|xs| - 1]] == xs;
    }
  }

  /** DISTINCT drops nothing exactly when nothing repeats. */
  lemma {:induction false} DistinctFull<T(!new)>(xs: seq<T>)
    ensures |Distinct(xs)| == |xs| <==> NoDup(xs)
    decreases |xs|
  {
    if NoDup(xs) {
      DistinctOfNoDup(xs);
    } else if xs != [] {
      var init := xs[..|xs| - 1];
      var last := xs[|xs| - 1];
      DistinctFull(init);
      if NoDup(init) {
        var i, j :| 0 <= i < j < |xs| && xs[i] == xs[j];
        assert j == |xs| - 1 && init[i] == last;
        assert last in Distinct(init);
      }
    }
  }

  /** DISTINCT keeps the relative order of first occurrences. */
  lemma {:induction false} DistinctIsSubseq<T(!new)>(xs: seq<T>)
    ensures Subseq(Distinct(xs), xs)
    decreases |xs|
  {
    if xs != [] {
      var init := xs[..|xs| - 1];
      var last := xs[|xs| - 1];
      DistinctIsSubseq(init);
      if last in Distinct(init) {
        SubseqSnocRight(Distinct(init), init, last);
      } else {
        SubseqSnocBoth(Distinct(init), init, last);
      }
      assert init + [last] == xs;
    }
  }

  lemma {:induction false} SubseqSnocRight<T>(a: seq<T>, b: seq<T>, x: T)
    requires Subseq(a, b)
    ensures Subseq(a, b + [x])
    decreases |b|
  {
    if a != [] && b != [] {
      assert (b + [x])[1..] == b[1..] + [x];
      if a[0] == b[0] && Subseq(a[1..], b[1..]) {
        SubseqSnocRight(a[1..], b[1..], x);
      } else {
        SubseqSnocRight(a, b[1..], x);
      }
    }
  }

  lemma {:induction false} SubseqSnocBoth<T>(a: seq<T>, b: seq<T>, x: T)
    requires Subseq(a, b)
    ensures Subseq(a + [x], b + [x])
    decreases |b|
  {
    if a == [] {
      assert a + [x] == [x];
      SubseqSingleton(b, x);
    } else {
      assert b != [];
      assert (a + [x])[0] == a[0] && (a + [x])[1..] == a[1..] + [x];
      assert (b + [x])[0] == b[0] && (b + [x])[1..] == b[1..] + [x];
      if a[0] == b[0] && Subseq(a[1..], b[1..]) {
        SubseqSnocBoth(a[1..], b[1..], x);
      } else {
        SubseqSnocBoth(a, b[1..], x);
      }
    }
  }

  lemma {:induction false} SubseqSingleton<T>(b: seq<T>, x: T)
    ensures Subseq([x], b + [x])
    decreases |b|
  {
    if b == [] {
      assert [x][1..] == [];
    } else {
      assert (b + [x])[1..] == b[1..] + [x];
      SubseqSingleton(b[1..], x);
    }
  }

  /** In a duplicate-free sequence every element occurs at most once. */
  lemma {:induction false} NoDupMultiset<T>(xs: seq<T>)
    requires NoDup(xs)
    ensures forall x :: multiset(xs)[x] <= 1
    decreases |xs|
  {
    if xs != [] {
      var init := xs[..|xs| - 1];
      assert NoDup(init);
      NoDupMultiset(init);
      assert xs == init + [xs[|xs| - 1]];
      assert xs[|xs| - 1] !in init;
    }
  }

  lemma MultisetTwice<T>(r: seq<T>, i: int, j: int)
    requires 0 <= i < j < |r|
    ensures r[i] == r[j] ==> multiset(r)[r[i]] >= 2
  {
    assert r == r[..i] + [r[i]] + r[i + 1..j] + [r[j]] + r[j + 1..];
  }

  /** The first `n` elements, or all of them when there are fewer (SQL LIMIT, Polars head). */
  function Take<T>(xs: seq<T>, n: nat): (r: seq<T>)
    ensures |r| == if n < |xs| then n else |xs|
    ensures r <= xs
  {
    if n < |xs| then xs[..n] else xs
  }

  function Min(a: int, b: int): int { if a < b then a else b }

  lemma AppendAssoc<T>(a: seq<T>, b: seq<T>, c: seq<T>)
    ensures a + (b + c) == a + b + c
  {
  }

  /** The sequences f(x) for the elements x of xs, joined in order (a flat list built by extend). */
  function Concat<T, U>(f: T -> seq<U>, xs: seq<T>): seq<U>
    decreases |xs|
  {
    if xs == [] then [] else Concat(f, xs[..|xs| - 1]) + f(xs[|xs| - 1])
  }

  /** An element of the joined sequence comes from one of the parts, and every part's elements are in it. */
  lemma {:induction false} ConcatMember<T, U>(f: T -> seq<U>, xs: seq<T>, u: U)
    ensures u in Concat(f, xs) <==> exists x :: x in xs && u in f(x)
    decreases |xs|
  {
    if xs != [] {
      var init, last := xs[..|xs| - 1], xs[|xs| - 1];
      ConcatMember(f, init, u);
      assert last in xs;
      if u in Concat(f, init) {
        var x :| x in init && u in f(x);
        var k :| 0 <= k < |init| && init[k] == x;
        assert xs[k] == x;
      }
      if exists x :: x in xs && u in f(x) {
        var x :| x in xs && u in f(x);
        if x != last {
          var k :| 0 <= k < |xs| && xs[k] == x;
          assert init[k] == x;
        }
      }
    }
  }

  /** The joined sequence is empty exactly when every part is. */
  lemma {:induction false} ConcatEmpty<T, U>(f: T -> seq<U>, xs: seq<T>)
    ensures Concat(f, xs) == [] <==> forall x :: x in xs ==> f(x) == []
    decreases |xs|
  {
    if xs != [] {
      var init := xs[..|xs| - 1];
      ConcatEmpty(f, init);
      assert forall x :: x in xs <==> x in init || x == xs[|xs| - 1];
    }
  }

  lemma TakeSnoc<T>(xs: seq<T>, i: int)
    requires 0 <= i < |xs|
    ensures xs[..i + 1] == xs[..i] + [xs[i]]
  {
  }

  lemma ConcatSnoc<T, U>(f: T -> seq<U>, xs: seq<T>, x: T)
    ensures Concat(f, xs + [x]) == Concat(f, xs) + f(x)
  {
    assert (xs + [x])[..|xs|] == xs;
  }

  lemma ConcatPrefix<T, U>(f: T -> seq<U>, xs: seq<T>, j: int)
    requires 0 <= j < |xs|
    ensures Concat(f, xs[..j + 1]) == Concat(f, xs[..j]) + f(xs[j])
  {
    assert xs[..j + 1][..j] == xs[..j];
  }

  /** [f(x) for x in xs]. */
  function Map<T, U>(f: T -> U, xs: seq<T>): (r: seq<U>)
    ensures |r| == |xs| && forall j :: 0 <= j < |xs| ==> r[j] == f(xs[j])
  {
    seq(|xs|, j requires 0 <= j < |xs| => f(xs[j]))
  }

  lemma MapAppend<T, U>(f: T -> U, a: seq<T>, b: seq<T>)
    ensures Map(f, a + b) == Map(f, a) + Map(f, b)
  {
    var l, r := Map(f, a + b), Map(f, a) + Map(f, b);
    forall j | 0 <= j < |l| ensures l[j] == r[j] {
      if j < |a| { assert (a + b)[j] == a[j]; } else { assert (a + b)[j] == b[j - |a|]; }
    }
  }

  lemma MapSnoc<T, U>(f: T -> U, a: seq<T>, x: T)
    ensures Map(f, a + [x]) == Map(f, a) + [f(x)]
  {
    MapAppend(f, a, [x]);
  }
}
