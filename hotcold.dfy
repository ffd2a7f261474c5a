/** The z-score classification every generator runs in its pattern analysis
    (`analyze_patterns` / `analyze_all_patterns`) and that
    advanced_pattern_summary.py prints: a number is hot when its z-score
    exceeds a threshold, cold when it is below minus the threshold.

    `np.sqrt(expected)` is not computed here: the caller supplies `root`
    with `root * root == expected`. With no tallied balls the expected
    count is 0 and every z-score is the NaN of 0/0, which compares false
    with everything, so nothing is hot or cold. */
module HotCold {
  import opened Base
  import opened Sorting

  /** `len(balls) / domain`: the count of each number under a uniform draw. */
  function Expected(total: nat, domain: nat): (e: real)
    requires domain > 0
    ensures e >= 0.0
    ensures e * domain as real == total as real
  {
    total as real / domain as real
  }

  /** `root` stands for `np.sqrt(expected)`. */
  predicate IsRoot(root: real, expected: real) {
    root > 0.0 && root * root == expected
  }

  /** `(observed - expected) / np.sqrt(expected)`. */
  function ZScore(observed: nat, expected: real, root: real): (z: real)
    requires root > 0.0
    ensures z > 0.0 <==> observed as real > expected
    ensures z == 0.0 <==> observed as real == expected
    ensures z < 0.0 <==> observed as real < expected
  {
    var d := observed as real - expected;
    assert (d / root) * root == d;
    d / root
  }

  /** The z-score of number n among the tallied balls (`Counter.get(n, 0)`
      is the multiplicity of n). */
  function Z(balls: seq<int>, domain: nat, root: real, n: int): real
    requires domain > 0 && root > 0.0
  {
    ZScore(multiset(balls)[n], Expected(|balls|, domain), root)
  }

  /** What `Z` needs to be defined: a domain, and a root of the expected
      count whenever there is something tallied. */
  predicate Ready(balls: seq<int>, domain: nat, root: real) {
    domain > 0 && (|balls| > 0 ==> IsRoot(root, Expected(|balls|, domain)))
  }

  predicate IsHot(balls: seq<int>, domain: nat, root: real, threshold: real, n: int) {
    |balls| > 0 && domain > 0 && root > 0.0 && 1 <= n <= domain && Z(balls, domain, root, n) > threshold
  }

  /** The `elif` branch: below minus the threshold and not already hot. */
  predicate IsCold(balls: seq<int>, domain: nat, root: real, threshold: real, n: int) {
    |balls| > 0 && domain > 0 && root > 0.0 && 1 <= n <= domain
    && !(Z(balls, domain, root, n) > threshold) && Z(balls, domain, root, n) < -threshold
  }

  function ZKey(balls: seq<int>, domain: nat, root: real): int -> real
    requires domain > 0 && root > 0.0
  {
    n => Z(balls, domain, root, n)
  }

  function NegZKey(balls: seq<int>, domain: nat, root: real): int -> real
    requires domain > 0 && root > 0.0
  {
    n => -Z(balls, domain, root, n)
  }

  /** The loop over 1..domain that appends each number to the hot or the
      cold list, followed by `hot.sort(key=z, reverse=True)` and
      `cold.sort(key=z)`. The records `(num, z_score, count)` are kept as
      their numbers: the other two fields are functions of the number. */
  method Classify(balls: seq<int>, domain: nat, threshold: real, root: real)
    returns (hot: seq<int>, cold: seq<int>)
    requires Ready(balls, domain, root)
    ensures Distinct(hot) && Distinct(cold)
    ensures forall n :: n in hot <==> IsHot(balls, domain, root, threshold, n)
    ensures forall n :: n in cold <==> IsCold(balls, domain, root, threshold, n)
    ensures forall n :: n in hot ==> n !in cold
    ensures |balls| > 0 ==> HottestFirst(balls, domain, root, hot) && ColdestFirst(balls, domain, root, cold)
  {
    hot, cold := [], [];
    var num := 1;
    while num <= domain
      invariant 1 <= num <= domain + 1
      invariant forall n :: n in hot <==> n < num && IsHot(balls, domain, root, threshold, n)
      invariant forall n :: n in cold <==> n < num && IsCold(balls, domain, root, threshold, n)
      invariant StrictlyAscending(hot) && StrictlyAscending(cold)
      invariant forall i :: 0 <= i < |hot| ==> hot[i] < num
      invariant forall i :: 0 <= i < |cold| ==> cold[i] < num
    {
      if |balls| > 0 {
        var z := Z(balls, domain, root, num);
        if z > threshold {
          hot := hot + [num];
        } else if z < -threshold {
          cold := cold + [num];
        }
      }
      num := num + 1;
    }
    AscendingIsDistinct(hot);
    AscendingIsDistinct(cold);
    if |balls| > 0 {
      var sortedHot := SortBy(hot, ZKey(balls, domain, root));
      var sortedCold := SortBy(cold, NegZKey(balls, domain, root));
      SubMultisetDistinct(sortedHot, hot);
      SubMultisetDistinct(sortedCold, cold);
      SameMembers(sortedHot, hot);
      SameMembers(sortedCold, cold);
      SortedByZ(balls, domain, root, sortedHot, sortedCold);
      hot, cold := sortedHot, sortedCold;
    }
  }

  lemma SameMembers(r: seq<int>, s: seq<int>)
    requires multiset(r) == multiset(s)
    ensures forall x :: x in r <==> x in s
  {
    forall x ensures x in r <==> x in s {
      assert x in r <==> x in multiset(r);
      assert x in s <==> x in multiset(s);
    }
  }

  /** `[num for num in range(1, domain + 1) if num not in hot and num not in cold]`. */
  function Neutral(domain: int, hot: seq<int>, cold: seq<int>): (r: seq<int>)
    ensures forall x :: x in r <==> 1 <= x <= domain && x !in hot && x !in cold
    ensures StrictlyAscending(r) && Distinct(r)
  {
    var r := Without(Interval(1, domain), hot + cold);
    WithoutAscending(Interval(1, domain), hot + cold);
    AscendingIsDistinct(r);
    r
  }

  /** With a non-negative threshold a hot number was drawn more often than
      expected and a cold one less often, and the `elif` guard is implied. */
  lemma HotColdMeaning(balls: seq<int>, domain: nat, root: real, threshold: real, n: int)
    requires threshold >= 0.0
    ensures IsHot(balls, domain, root, threshold, n)
      ==> multiset(balls)[n] as real > Expected(|balls|, domain)
    ensures IsCold(balls, domain, root, threshold, n)
      ==> multiset(balls)[n] as real < Expected(|balls|, domain)
    ensures |balls| > 0 && domain > 0 && root > 0.0 && 1 <= n <= domain
      ==> (IsCold(balls, domain, root, threshold, n) <==> Z(balls, domain, root, n) < -threshold)
  {
  }

  /** What the hot and cold fields of a generator hold once its analysis ran. */
  ghost predicate Classified(balls: seq<int>, domain: nat, threshold: real, root: real, hot: seq<int>, cold: seq<int>) {
    Ready(balls, domain, root) && Distinct(hot) && Distinct(cold)
    && (forall n {:trigger IsHot(balls, domain, root, threshold, n)} :: n in hot <==> IsHot(balls, domain, root, threshold, n))
    && (forall n {:trigger IsCold(balls, domain, root, threshold, n)} :: n in cold <==> IsCold(balls, domain, root, threshold, n))
    && (|balls| > 0 ==> HottestFirst(balls, domain, root, hot) && ColdestFirst(balls, domain, root, cold))
  }

  /** Number a's z-score is at least number b's. */
  predicate ZAtLeast(balls: seq<int>, domain: nat, root: real, a: int, b: int)
    requires domain > 0 && root > 0.0
  {
    Z(balls, domain, root, a) >= Z(balls, domain, root, b)
  }

  /** `hot.sort(key=z, reverse=True)` has run: decreasing z-scores. */
  predicate HottestFirst(balls: seq<int>, domain: nat, root: real, hot: seq<int>)
    requires domain > 0 && root > 0.0
  {
    forall i, j {:trigger ZAtLeast(balls, domain, root, hot[i], hot[j])} ::
      0 <= i < j < |hot| ==> ZAtLeast(balls, domain, root, hot[i], hot[j])
  }

  /** `cold.sort(key=z)` has run: increasing z-scores. */
  predicate ColdestFirst(balls: seq<int>, domain: nat, root: real, cold: seq<int>)
    requires domain > 0 && root > 0.0
  {
    forall i, j {:trigger ZAtLeast(balls, domain, root, cold[j], cold[i])} ::
      0 <= i < j < |cold| ==> ZAtLeast(balls, domain, root, cold[j], cold[i])
  }

  lemma SortedByZ(balls: seq<int>, domain: nat, root: real, hot: seq<int>, cold: seq<int>)
    requires domain > 0 && root > 0.0
    requires DescendingBy(hot, ZKey(balls, domain, root)) && DescendingBy(cold, NegZKey(balls, domain, root))
    ensures HottestFirst(balls, domain, root, hot) && ColdestFirst(balls, domain, root, cold)
  {
    forall i, j | 0 <= i < j < |hot| ensures ZAtLeast(balls, domain, root, hot[i], hot[j]) {
      assert ZKey(balls, domain, root)(hot[i]) >= ZKey(balls, domain, root)(hot[j]);
    }
    forall i, j | 0 <= i < j < |cold| ensures ZAtLeast(balls, domain, root, cold[j], cold[i]) {
      assert NegZKey(balls, domain, root)(cold[i]) >= NegZKey(balls, domain, root)(cold[j]);
    }
  }

  /** The lists a classification leaves are inside the domain and disjoint. */
  lemma ClassifiedBounds(balls: seq<int>, domain: nat, threshold: real, root: real, hot: seq<int>, cold: seq<int>)
    requires Classified(balls, domain, threshold, root, hot, cold)
    ensures InRange(hot, 1, domain) && InRange(cold, 1, domain)
    ensures forall n :: (n in hot || n in cold) ==> 1 <= n <= domain
    ensures forall n :: n in hot ==> n !in cold
    ensures |hot| + |cold| <= domain
  {
    forall i | 0 <= i < |hot| ensures 1 <= hot[i] <= domain {
      assert hot[i] in hot && IsHot(balls, domain, root, threshold, hot[i]);
    }
    forall i | 0 <= i < |cold| ensures 1 <= cold[i] <= domain {
      assert cold[i] in cold && IsCold(balls, domain, root, threshold, cold[i]);
    }
    forall n | n in hot || n in cold ensures 1 <= n <= domain && (n in hot ==> n !in cold) {
      assert IsHot(balls, domain, root, threshold, n) || IsCold(balls, domain, root, threshold, n);
      assert n in hot ==> IsHot(balls, domain, root, threshold, n) && !IsCold(balls, domain, root, threshold, n);
    }
    ConcatDistinct(hot, cold);
    DistinctCard(hot + cold);
    assert Elements(hot + cold) <= Elements(Interval(1, domain));
    SubsetCard(Elements(hot + cold), Elements(Interval(1, domain)));
    SetCardAtMostLength(Interval(1, domain));
  }

  /** The hot list of `advanced_frequency_analysis` (advanced_pattern_summary.py):
      its own loop over 1..domain keeping the numbers with z above the
      threshold, then `sorted(key=z, reverse=True)`. */
  method HotList(balls: seq<int>, domain: nat, threshold: real, root: real) returns (hot: seq<int>)
    requires Ready(balls, domain, root)
    ensures Distinct(hot)
    ensures forall n :: n in hot <==> IsHot(balls, domain, root, threshold, n)
    ensures |balls| > 0 ==> HottestFirst(balls, domain, root, hot)
  {
    hot := [];
    var num := 1;
    while num <= domain
      invariant 1 <= num <= domain + 1
      invariant forall n :: n in hot <==> n < num && IsHot(balls, domain, root, threshold, n)
      invariant StrictlyAscending(hot)
      invariant forall i :: 0 <= i < |hot| ==> hot[i] < num
    {
      if |balls| > 0 && Z(balls, domain, root, num) > threshold {
        hot := hot + [num];
      }
      num := num + 1;
    }
    AscendingIsDistinct(hot);
    if |balls| > 0 {
      var sortedHot := SortBy(hot, ZKey(balls, domain, root));
      SubMultisetDistinct(sortedHot, hot);
      SameMembers(sortedHot, hot);
      SortedByZ(balls, domain, root, sortedHot, []);
      hot := sortedHot;
    }
  }

  /** The cold list of the same analysis: a second loop keeping the numbers
      with z below minus the threshold, then `sorted(key=z)`. */
  method ColdList(balls: seq<int>, domain: nat, threshold: real, root: real) returns (cold: seq<int>)
    requires Ready(balls, domain, root)
    ensures Distinct(cold)
    ensures forall n :: n in cold <==>
      |balls| > 0 && domain > 0 && root > 0.0 && 1 <= n <= domain && Z(balls, domain, root, n) < -threshold
    ensures |balls| > 0 ==> ColdestFirst(balls, domain, root, cold)
  {
    cold := [];
    var num := 1;
    while num <= domain
      invariant 1 <= num <= domain + 1
      invariant forall n :: n in cold <==>
        n < num && |balls| > 0 && domain > 0 && root > 0.0 && 1 <= n <= domain && Z(balls, domain, root, n) < -threshold
      invariant StrictlyAscending(cold)
      invariant forall i :: 0 <= i < |cold| ==> cold[i] < num
    {
      if |balls| > 0 && Z(balls, domain, root, num) < -threshold {
        cold := cold + [num];
      }
      num := num + 1;
    }
    AscendingIsDistinct(cold);
    if |balls| > 0 {
      var sortedCold := SortBy(cold, NegZKey(balls, domain, root));
      SubMultisetDistinct(sortedCold, cold);
      SameMembers(sortedCold, cold);
      SortedByZ(balls, domain, root, [], sortedCold);
      cold := sortedCold;
    }
  }

  /** With a non-negative threshold the two separate loops agree with the
      single `if`/`elif` loop of the generators: the cold list is the cold
      classification, and no number is on both lists. */
  lemma SeparateListsAgree(balls: seq<int>, domain: nat, root: real, threshold: real, hot: seq<int>, cold: seq<int>)
    requires threshold >= 0.0
    requires forall n :: n in hot <==> IsHot(balls, domain, root, threshold, n)
    requires forall n :: n in cold <==>
      |balls| > 0 && domain > 0 && root > 0.0 && 1 <= n <= domain && Z(balls, domain, root, n) < -threshold
    ensures forall n :: n in cold <==> IsCold(balls, domain, root, threshold, n)
    ensures forall n :: n in hot ==> n !in cold
  {
  }
}
