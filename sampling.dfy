// `random.sample(population, k)` after `random.seed(seed)`. The model does not
// reproduce Python's Mersenne Twister; it fixes one concrete draw (a rotation of
// the population by the seed) and promises only what `random.sample` promises:
// k elements taken from k distinct positions, and ValueError when k is negative
// or larger than the population. Being a function, equal inputs give equal
// draws, which is what seeding buys the callers.

module Sampling {
  import opened Wrappers
  import opened Seqs

  function Rotate<T>(xs: seq<T>, s: nat): (r: seq<T>)
    requires s <= |xs|
    ensures |r| == |xs|
    ensures multiset(r) == multiset(xs)
  {
    assert xs == xs[..s] + xs[s..];
    xs[s..] + xs[..s]
  }

  function Sample<T>(xs: seq<T>, k: int, seed: int): (r: Result<seq<T>>)
    ensures r.Ok? <==> 0 <= k <= |xs|
    ensures r.Err? ==> r.error.ValueError?
    ensures r.Ok? ==> |r.value| == k && multiset(r.value) <= multiset(xs)
  {
    if k < 0 || k > |xs| then Err(ValueError("Sample larger than population or is negative"))
    else if k == 0 then Ok([])
    else
      var rot := Rotate(xs, seed % |xs|);
      PrefixSubMultiset(rot, k);
      Ok(rot[..k])
  }

  lemma PrefixSubMultiset<T>(xs: seq<T>, k: nat)
    requires k <= |xs|
    ensures multiset(xs[..k]) <= multiset(xs)
  {
    assert xs == xs[..k] + xs[k..];
  }

  /** Every sampled element is an element of the population. */
  lemma SampleMembers<T>(xs: seq<T>, k: int, seed: int)
    requires Sample(xs, k, seed).Ok?
    ensures forall x :: x in Sample(xs, k, seed).value ==> x in xs
  {
    var r := Sample(xs, k, seed).value;
    forall x | x in r ensures x in xs {
      assert x in multiset(r);
    }
  }

  /** Drawing from a duplicate-free population gives a duplicate-free sample. */
  lemma SampleNoDup<T>(xs: seq<T>, k: int, seed: int)
    requires Sample(xs, k, seed).Ok?
    ensures NoDup(xs) ==> NoDup(Sample(xs, k, seed).value)
  {
    if NoDup(xs) {
      var r := Sample(xs, k, seed).value;
      NoDupMultiset(xs);
      forall i, j | 0 <= i < j < |r| ensures r[i] != r[j] {
        MultisetTwice(r, i, j);
        assert multiset(r)[r[i]] <= multiset(xs)[r[i]];
      }
    }
  }

  /** Sampling the whole population reorders it without loss. */
  lemma SampleAll<T>(xs: seq<T>, seed: int)
    ensures Sample(xs, |xs|, seed).Ok?
    ensures multiset(Sample(xs, |xs|, seed).value) == multiset(xs)
  {
    if |xs| > 0 {
      var rot := Rotate(xs, seed % |xs|);
      assert rot[..|xs|] == rot;
    }
  }

  /** `k = min(n, |xs|)` (the guarded callers) never raises and draws exactly that many. */
  lemma SampleAtMost<T>(xs: seq<T>, n: nat, seed: int)
    ensures Sample(xs, Min(n, |xs|), seed).Ok?
    ensures |Sample(xs, Min(n, |xs|), seed).value| == Min(n, |xs|)
  {
  }
}
