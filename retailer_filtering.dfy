// src/RetailerFiltering.py (project 01): the retailer names that take part
// in the matching are the Geizhals retailer names without a marketplace
// keyword in them.

module RetailerFiltering {
  import opened Seqs
  import opened Text

  /** CONFIG.FORBIDDEN_RETAILER_KEYWORDS: Amazon, eBay and other marketplace shops by country. */
  const ForbiddenKeywords: seq<string> :=
    ["am-uk", "am-de", "am-at", "eb-uk", "eb-de", "sh-at", "mp-de", "rk-de", "nk-pl", "sz-uk", "vk-de", "gx-de"]

  /** No keyword occurs anywhere in the name. */
  predicate Allowed(name: string, keywords: seq<string>)
  {
    forall k :: 0 <= k < |keywords| ==> !Contains(name, keywords[k])
  }

  function AllowedBy(keywords: seq<string>): string -> bool
  {
    name => Allowed(name, keywords)
  }

  function RejectedBy(keywords: seq<string>): string -> bool
  {
    name => !Allowed(name, keywords)
  }

  /** filter_retailers: the allowed names, in input order. */
  function FilterRetailers(names: seq<string>, keywords: seq<string>): (r: seq<string>)
    ensures |r| <= |names|
  {
    Filter(names, AllowedBy(keywords))
  }

  /** The number filter_retailers reports as filtered out. */
  function FilteredOutCount(names: seq<string>, keywords: seq<string>): (n: nat)
    ensures n + |FilterRetailers(names, keywords)| == |names|
  {
    |names| - |FilterRetailers(names, keywords)|
  }

  /**
   * The result keeps exactly the names that contain none of the keywords,
   * each as often and in the order it appears among the input names.
   */
  lemma FilterRetailersSpec(names: seq<string>, keywords: seq<string>)
    ensures var r := FilterRetailers(names, keywords);
            Subseq(r, names)
            && forall x :: x in r <==> x in names && forall k :: 0 <= k < |keywords| ==> !Contains(x, keywords[k])
  {
    FilterMembers(names, AllowedBy(keywords));
    FilterIsSubseq(names, AllowedBy(keywords));
  }

  /** The reported count is the number of input names that contain some keyword. */
  lemma FilteredOutCountSpec(names: seq<string>, keywords: seq<string>)
    ensures FilteredOutCount(names, keywords) == |Filter(names, RejectedBy(keywords))|
  {
    FilterCount(names, AllowedBy(keywords));
    assert Filter(names, x => !AllowedBy(keywords)(x)) == Filter(names, RejectedBy(keywords)) by {
      FilterSameTest(names, x => !AllowedBy(keywords)(x), RejectedBy(keywords));
    }
  }

  /** Two tests that agree on every element filter alike. */
  lemma {:induction false} FilterSameTest(xs: seq<string>, p: string -> bool, q: string -> bool)
    requires forall x :: p(x) == q(x)
    ensures Filter(xs, p) == Filter(xs, q)
    decreases |xs|
  {
    if xs != [] {
      FilterSameTest(xs[1..], p, q);
    }
  }

  /** Without keywords every name is kept and none is reported. */
  lemma NoKeywordsKeepsAll(names: seq<string>)
    ensures FilterRetailers(names, []) == names && FilteredOutCount(names, []) == 0
  {
    FilterAll(names, AllowedBy([]));
  }

  /** Filtering again with the same keywords changes nothing. */
  lemma FilterRetailersIdempotent(names: seq<string>, keywords: seq<string>)
    ensures FilterRetailers(FilterRetailers(names, keywords), keywords) == FilterRetailers(names, keywords)
  {
    var r := FilterRetailers(names, keywords);
    FilterMembers(names, AllowedBy(keywords));
    FilterAll(r, AllowedBy(keywords));
  }
}
