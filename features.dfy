/** Per-draw features of the advanced pattern analyzers
    (advanced_pattern_analyzer.py and its near-copy advanced_pattern_summary.py,
    whose helpers are the same code and are modelled once here). */
module Features {
  import opened Base
  import opened Sorting
  import opened Tally

  /** `sum(s)`. */
  function Sum(s: seq<int>): (r: int)
    ensures InRange(s, 1, WhiteMax) ==> |s| <= r <= WhiteMax * |s|
  {
    if s == [] then 0 else s[0] + Sum(s[1..])
  }

  /** `sum(1 for num in s if p(num))`. */
  function Count(s: seq<int>, p: int -> bool): (r: nat)
    ensures r <= |s|
  {
    if s == [] then 0 else (if p(s[0]) then 1 else 0) + Count(s[1..], p)
  }

  /** No ball has the property exactly when the count is 0, and every ball
      has it exactly when the count is the length. */
  lemma {:induction false} CountExtremes(s: seq<int>, p: int -> bool)
    ensures Count(s, p) == 0 <==> forall i :: 0 <= i < |s| ==> !p(s[i])
    ensures Count(s, p) == |s| <==> forall i :: 0 <= i < |s| ==> p(s[i])
  {
    if s != [] {
      CountExtremes(s[1..], p);
      assert forall i :: 1 <= i < |s| ==> s[i] == s[1..][i - 1];
    }
  }

  /** Counting a property and its negation splits the sequence. */
  lemma {:induction false} CountComplement(s: seq<int>, p: int -> bool, q: int -> bool)
    requires forall x :: q(x) == !p(x)
    ensures Count(s, p) + Count(s, q) == |s|
  {
    if s != [] {
      CountComplement(s[1..], p, q);
    }
  }

  lemma {:induction false} CountSplit(a: seq<int>, b: seq<int>, p: int -> bool)
    ensures Count(a + b, p) == Count(a, p) + Count(b, p)
  {
    if a == [] {
      assert a + b == b;
    } else {
      assert (a + b)[0] == a[0];
      assert (a + b)[1..] == a[1..] + b;
      CountSplit(a[1..], b, p);
    }
  }

  /** Extending a prefix by one element adds that element's count. */
  lemma CountPrefixStep(g: seq<int>, i: nat, p: int -> bool)
    requires i < |g|
    ensures Count(g[..i + 1], p) == Count(g[..i], p) + if p(g[i]) then 1 else 0
  {
    assert g[..i + 1] == g[..i] + [g[i]];
    CountSplit(g[..i], [g[i]], p);
  }

  predicate IsEven(x: int) { x % 2 == 0 }
  predicate IsOdd(x: int) { x % 2 != 0 }
  predicate IsLow(x: int) { x <= 34 }
  predicate IsOne(x: int) { x == 1 }

  /** `Even_Count`. */
  function EvenCount(s: seq<int>): nat {
    Count(s, IsEven)
  }

  /** `Odd_Count` is computed as `5 - Even_Count`; for a five-ball draw it is
      the number of odd balls, and Even_Count lies in 0..5. */
  lemma OddCountIsOdd(s: seq<int>)
    requires |s| == BallsPerDraw
    ensures 0 <= EvenCount(s) <= 5
    ensures 5 - EvenCount(s) == Count(s, IsOdd)
  {
    CountComplement(s, IsEven, IsOdd);
  }

  /** `[s[i+1] - s[i] for i in range(len(s) - 1)]`. */
  function Gaps(s: seq<int>): (r: seq<int>)
    ensures |r| == if |s| == 0 then 0 else |s| - 1
    ensures forall i :: 0 <= i < |r| ==> r[i] == s[i + 1] - s[i]
  {
    if |s| < 2 then [] else [s[1] - s[0]] + Gaps(s[1..])
  }

  /** The gaps of a sorted draw telescope to its spread. */
  lemma {:induction false} GapsTelescope(s: seq<int>)
    requires |s| > 0
    ensures Sum(Gaps(s)) == s[|s| - 1] - s[0]
  {
    if |s| >= 2 {
      GapsTelescope(s[1..]);
    }
  }

  /** The gaps of a strictly ascending sequence are all at least 1. */
  lemma GapsPositive(s: seq<int>)
    requires StrictlyAscending(s)
    ensures forall i :: 0 <= i < |Gaps(s)| ==> Gaps(s)[i] >= 1
  {
  }

  /** `max(x) - min(x)`, the `Range` feature: the spread of the sorted draw. */
  function Spread(s: seq<int>): (r: int)
    requires |s| > 0
    ensures r >= 0
    ensures forall i, j :: 0 <= i < |s| && 0 <= j < |s| ==> s[i] - s[j] <= r
    ensures exists i, j :: 0 <= i < |s| && 0 <= j < |s| && r == s[i] - s[j]
  {
    var t := SortAsc(s);
    SortedEnds(s);
    t[|t| - 1] - t[0]
  }

  /** The first and last balls of the sorted draw are its minimum and maximum. */
  lemma SortedEnds(s: seq<int>)
    requires |s| > 0
    ensures SortAsc(s)[0] in s && SortAsc(s)[|s| - 1] in s
    ensures forall i :: 0 <= i < |s| ==> SortAsc(s)[0] <= s[i] <= SortAsc(s)[|s| - 1]
  {
    var t := SortAsc(s);
    SortAscSameElements(s);
    forall i | 0 <= i < |s| ensures t[0] <= s[i] <= t[|s| - 1] {
      assert s[i] in s;
      var k :| 0 <= k < |t| && t[k] == s[i];
    }
  }

  /** The `Range` feature equals the sum of the sorted gaps. */
  lemma GapsSumToSpread(s: seq<int>)
    requires |s| > 0
    ensures Sum(Gaps(SortAsc(s))) == Spread(s)
  {
    GapsTelescope(SortAsc(s));
  }

  /** Two ascending sequences with the same values are equal. */
  lemma {:induction false} AscendingUnique(a: seq<int>, b: seq<int>)
    requires Ascending(a) && Ascending(b)
    requires multiset(a) == multiset(b)
    ensures a == b
  {
    if a != [] {
      assert |b| == |multiset(b)| == |a|;
      AscendingHeads(a, b);
      DropHead(a);
      DropHead(b);
      AscendingUnique(a[1..], b[1..]);
      assert a == [a[0]] + a[1..] && b == [b[0]] + b[1..];
    }
  }

  /** Equal multisets of ascending sequences start with the same least value. */
  lemma AscendingHeads(a: seq<int>, b: seq<int>)
    requires Ascending(a) && Ascending(b) && a != []
    requires multiset(a) == multiset(b)
    ensures b != [] && a[0] == b[0]
  {
    assert a[0] in multiset(b);
    var i :| 0 <= i < |b| && b[i] == a[0];
    assert b[0] in multiset(a);
    var j :| 0 <= j < |a| && a[j] == b[0];
    assert b[0] <= b[i] && a[0] <= a[j];
  }

  /** Dropping the head keeps a sequence ascending and removes one copy. */
  lemma DropHead(a: seq<int>)
    requires Ascending(a) && a != []
    ensures Ascending(a[1..])
    ensures multiset(a[1..]) == multiset(a) - multiset{a[0]}
  {
    assert a == [a[0]] + a[1..];
  }

  /** Sorting an already sorted draw changes nothing. */
  lemma SortAscIdentity(s: seq<int>)
    requires StrictlyAscending(s)
    ensures SortAsc(s) == s
  {
    AscendingIsDistinct(s);
    AscendingUnique(SortAsc(s), s);
  }

  /** Sorting a sorted list leaves it as it is. */
  lemma SortAscIdempotent(s: seq<int>)
    ensures SortAsc(SortAsc(s)) == SortAsc(s)
  {
    AscendingUnique(SortAsc(SortAsc(s)), SortAsc(s));
  }

  /** `Consecutive_Pairs` as a property of the sorted draw: the number of
      sorted neighbours that differ by exactly 1. */
  function PairCount(sorted: seq<int>): nat {
    Count(Gaps(sorted), IsOne)
  }

  /** `_count_consecutive_pairs(numbers)` (both analyzer files). */
  method CountConsecutivePairs(numbers: seq<int>) returns (consecutive: nat)
    ensures consecutive == PairCount(SortAsc(numbers))
    ensures consecutive <= if |numbers| == 0 then 0 else |numbers| - 1
  {
    var sortedNums := SortAsc(numbers);
    ghost var g := Gaps(sortedNums);
    consecutive := 0;
    var i := 0;
    while i < |sortedNums| - 1
      invariant 0 <= i <= |g|
      invariant consecutive == Count(g[..i], IsOne)
    {
      CountPrefixStep(g, i, IsOne);
      if sortedNums[i + 1] - sortedNums[i] == 1 {
        consecutive := consecutive + 1;
      }
      i := i + 1;
    }
    assert g[..i] == g;
  }

  /** No consecutive pair exactly when no sorted neighbours differ by 1. */
  lemma NoPairs(sorted: seq<int>)
    ensures PairCount(sorted) == 0 <==> forall i :: 0 <= i < |sorted| - 1 ==> sorted[i + 1] - sorted[i] != 1
  {
    var g := Gaps(sorted);
    CountExtremes(g, IsOne);
    if PairCount(sorted) == 0 {
      forall i | 0 <= i < |sorted| - 1 ensures sorted[i + 1] - sorted[i] != 1 {
        assert !IsOne(g[i]);
      }
    } else {
      var i :| 0 <= i < |g| && IsOne(g[i]);
      assert sorted[i + 1] - sorted[i] == 1;
    }
  }

  /** Every gap of 1..5 is 1, so it has four consecutive pairs. */
  lemma ConsecutiveExample(s: seq<int>)
    requires s == [1, 2, 3, 4, 5]
    ensures PairCount(SortAsc(s)) == 4
  {
    OneToFiveSorted(s);
    UnitGaps(s);
  }

  /** The draw 1 2 3 4 5 is already in order. */
  lemma OneToFiveSorted(s: seq<int>)
    requires s == [1, 2, 3, 4, 5]
    ensures SortAsc(s) == s
  {
    assert StrictlyAscending(s) by {
      forall i, j | 0 <= i < j < |s| ensures s[i] < s[j] {
        assert s[i] == i + 1 && s[j] == j + 1;
      }
    }
    SortAscIdentity(s);
  }

  lemma UnitGaps(s: seq<int>)
    requires s == [1, 2, 3, 4, 5]
    ensures PairCount(s) == 4
    ensures forall i :: 0 <= i < |Gaps(s)| ==> Gaps(s)[i] == 1
  {
    var g := Gaps(s);
    assert s[0] == 1 && s[1] == 2 && s[2] == 3 && s[3] == 4 && s[4] == 5;
    assert g[0] == s[1] - s[0] && g[1] == s[2] - s[1] && g[2] == s[3] - s[2] && g[3] == s[4] - s[3];
    assert |g| == 4 && g[0] == 1 && g[1] == 1 && g[2] == 1 && g[3] == 1;
    CountExtremes(g, IsOne);
  }

  /** Sum of a sequence of integers, as a real. */
  function RealSum(g: seq<int>): real {
    if g == [] then 0.0 else g[0] as real + RealSum(g[1..])
  }

  /** The sum of squared deviations from `m`. */
  function SquaredDeviations(g: seq<int>, m: real): (r: real)
    ensures r >= 0.0
  {
    if g == [] then 0.0 else (g[0] as real - m) * (g[0] as real - m) + SquaredDeviations(g[1..], m)
  }

  /** `np.var(g)`: the population variance. */
  function Variance(g: seq<int>): (r: real)
    requires |g| > 0
    ensures r >= 0.0
  {
    var m := RealSum(g) / |g| as real;
    SquaredDeviations(g, m) / |g| as real
  }

  /** `_calculate_gap_variance(numbers)`. */
  function GapVariance(numbers: seq<int>): (r: real)
    ensures r >= 0.0
    ensures |numbers| < 2 ==> r == 0.0
  {
    var gaps := Gaps(SortAsc(numbers));
    if |gaps| > 0 then Variance(gaps) else 0.0
  }

  lemma {:induction false} ConstantSum(g: seq<int>, c: int)
    requires forall i :: 0 <= i < |g| ==> g[i] == c
    ensures RealSum(g) == |g| as real * c as real
  {
    if g != [] {
      ConstantSum(g[1..], c);
    }
  }

  lemma {:induction false} ConstantDeviations(g: seq<int>, c: int)
    requires forall i :: 0 <= i < |g| ==> g[i] == c
    ensures SquaredDeviations(g, c as real) == 0.0
  {
    if g != [] {
      ConstantDeviations(g[1..], c);
    }
  }

  /** A sequence of equal values has variance 0. */
  lemma ConstantVariance(g: seq<int>, c: int)
    requires |g| > 0
    requires forall i :: 0 <= i < |g| ==> g[i] == c
    ensures Variance(g) == 0.0
  {
    ConstantSum(g, c);
    var n := |g| as real;
    assert RealSum(g) / n == c as real by {
      assert RealSum(g) == n * c as real;
    }
    ConstantDeviations(g, c);
  }

  /** Equally spaced balls have gap variance 0. */
  lemma EqualGapsZeroVariance(numbers: seq<int>, c: int)
    requires forall i :: 0 <= i < |Gaps(SortAsc(numbers))| ==> Gaps(SortAsc(numbers))[i] == c
    ensures GapVariance(numbers) == 0.0
  {
    var gaps := Gaps(SortAsc(numbers));
    if |gaps| > 0 {
      ConstantVariance(gaps, c);
    }
  }

  /** `_calculate_low_high_ratio(numbers)`: balls 1..34 over the rest of
      five, capped at 5.0 when all five are low. */
  function LowHighRatio(numbers: seq<int>): (r: real)
    ensures |numbers| <= BallsPerDraw ==> r == 5.0 || 0.0 <= r <= 4.0
    ensures |numbers| == BallsPerDraw ==> (r == 5.0 <==> forall i :: 0 <= i < |numbers| ==> numbers[i] <= 34)
  {
    var low := Count(numbers, IsLow);
    var high := 5 - low;
    CountExtremes(numbers, IsLow);
    if high > 0 then
      RatioBound(low, high);
      low as real / high as real
    else 5.0
  }

  lemma RatioBound(low: nat, high: int)
    requires high > 0 && low + high == 5
    ensures 0.0 <= low as real / high as real <= 4.0
  {
    var r := low as real / high as real;
    assert r * high as real == low as real;
    assert low as real <= 4.0 * high as real;
  }

  const Primes: set<int> := {2, 3, 5, 7, 11, 13, 17, 19, 23, 29, 31, 37, 41, 43, 47, 53, 59, 61, 67}
  const Fibonacci: set<int> := {1, 2, 3, 5, 8, 13, 21, 34, 55}

  predicate IsPrime(x: int) { x in Primes }
  predicate IsFibonacci(x: int) { x in Fibonacci }

  /** `_count_primes(numbers)`. */
  function PrimeCount(numbers: seq<int>): (r: nat)
    ensures r <= |numbers|
  {
    Count(numbers, IsPrime)
  }

  /** `_count_fibonacci(numbers)`. */
  function FibonacciCount(numbers: seq<int>): (r: nat)
    ensures r <= |numbers|
  {
    Count(numbers, IsFibonacci)
  }

  /** The draw 1 2 3 4 5 holds three primes (2, 3, 5) and four Fibonacci
      numbers (1, 2, 3, 5), and its low/high ratio is the cap 5.0. */
  lemma SmallDrawCounts(s: seq<int>)
    requires s == [1, 2, 3, 4, 5]
    ensures PrimeCount(s) == 3
    ensures FibonacciCount(s) == 4
    ensures LowHighRatio(s) == 5.0
  {
    assert !IsPrime(1) && IsPrime(2) && IsPrime(3) && !IsPrime(4) && IsPrime(5);
    assert IsFibonacci(1) && IsFibonacci(2) && IsFibonacci(3) && !IsFibonacci(4) && IsFibonacci(5);
    assert s[1..] == [2, 3, 4, 5];
    assert s[1..][1..] == [3, 4, 5];
    assert s[1..][1..][1..] == [4, 5];
    assert s[1..][1..][1..][1..] == [5];
    assert [5][1..] == [];
    assert Count([5], IsPrime) == 1 && Count([5], IsFibonacci) == 1;
    assert Count([4, 5], IsPrime) == 1 && Count([4, 5], IsFibonacci) == 1;
    assert Count([3, 4, 5], IsPrime) == 2 && Count([3, 4, 5], IsFibonacci) == 2;
    assert Count([2, 3, 4, 5], IsPrime) == 3 && Count([2, 3, 4, 5], IsFibonacci) == 3;
    assert Count(s, IsLow) == 5 by {
      CountExtremes(s, IsLow);
    }
  }

  /** The equally spaced draw 1 2 3 4 5 has gap variance 0. */
  lemma SmallDrawVariance(s: seq<int>)
    requires s == [1, 2, 3, 4, 5]
    ensures GapVariance(s) == 0.0
  {
    OneToFiveSorted(s);
    UnitGaps(s);
    EqualGapsZeroVariance(s, 1);
  }

  /** The length of the run of +1 steps that ends at index i of a sorted draw. */
  function RunEndingAt(s: seq<int>, i: nat): (r: nat)
    requires i < |s|
    ensures 1 <= r <= i + 1
  {
    if i == 0 || s[i] - s[i - 1] != 1 then 1 else RunEndingAt(s, i - 1) + 1
  }

  /** A run of length r uses r - 1 of the adjacent pairs before it. */
  lemma {:induction false} RunBound(s: seq<int>, i: nat)
    requires i < |s|
    ensures RunEndingAt(s, i) - 1 <= Count(Gaps(s)[..i], IsOne)
  {
    if i > 0 {
      var g := Gaps(s);
      CountPrefixStep(g, i - 1, IsOne);
      RunBound(s, i - 1);
    }
  }

  lemma {:induction false} CountPrefixMonotone(g: seq<int>, i: nat, p: int -> bool)
    requires i <= |g|
    ensures Count(g[..i], p) <= Count(g, p)
  {
    assert g == g[..i] + g[i..];
    CountSplit(g[..i], g[i..], p);
  }

  /** The maximum-run loop of `sequence_pattern_analysis` over one sorted
      draw: the longest run of +1 steps, 1 for an empty draw. */
  method RunLoop(sortedNums: seq<int>) returns (maxSeqLen: nat)
    ensures 1 <= maxSeqLen
    ensures |sortedNums| > 0 ==> maxSeqLen <= |sortedNums|
    ensures forall i :: 0 <= i < |sortedNums| ==> RunEndingAt(sortedNums, i) <= maxSeqLen
    ensures |sortedNums| > 0 ==> exists i :: 0 <= i < |sortedNums| && RunEndingAt(sortedNums, i) == maxSeqLen
    ensures maxSeqLen - 1 <= PairCount(sortedNums)
  {
    maxSeqLen := 1;
    var currentSeqLen := 1;
    var i := 0;
    ghost var best := 0;
    while i < |sortedNums| - 1
      invariant 0 <= i <= if |sortedNums| == 0 then 0 else |sortedNums| - 1
      invariant |sortedNums| > 0 ==> currentSeqLen == RunEndingAt(sortedNums, i)
      invariant forall k :: 0 <= k <= i && k < |sortedNums| ==> RunEndingAt(sortedNums, k) <= maxSeqLen
      invariant |sortedNums| > 0 ==> best <= i && RunEndingAt(sortedNums, best) == maxSeqLen
      invariant |sortedNums| == 0 ==> maxSeqLen == 1
    {
      if sortedNums[i + 1] - sortedNums[i] == 1 {
        currentSeqLen := currentSeqLen + 1;
        if currentSeqLen > maxSeqLen {
          best := i + 1;
        }
        maxSeqLen := if maxSeqLen >= currentSeqLen then maxSeqLen else currentSeqLen;
      } else {
        currentSeqLen := 1;
      }
      i := i + 1;
    }
    if |sortedNums| > 0 {
      RunBound(sortedNums, best);
      CountPrefixMonotone(Gaps(sortedNums), best, IsOne);
    }
  }

  /** The longest run of one draw, after `sorted(row['White Balls'])`. */
  method LongestRun(numbers: seq<int>) returns (maxSeqLen: nat)
    ensures 1 <= maxSeqLen
    ensures |numbers| > 0 ==> maxSeqLen <= |numbers|
    ensures maxSeqLen - 1 <= PairCount(SortAsc(numbers))
    ensures forall i :: 0 <= i < |numbers| ==> RunEndingAt(SortAsc(numbers), i) <= maxSeqLen
    ensures |numbers| > 0 ==> exists i :: 0 <= i < |numbers| && RunEndingAt(SortAsc(numbers), i) == maxSeqLen
  {
    maxSeqLen := RunLoop(SortAsc(numbers));
  }

  /** m is the longest run of +1 steps in s: no run is longer and some run
      is exactly that long. */
  ghost predicate IsLongestRun(s: seq<int>, m: nat) {
    (forall j :: 0 <= j < |s| ==> RunEndingAt(s, j) <= m) &&
    (|s| > 0 ==> exists j :: 0 <= j < |s| && RunEndingAt(s, j) == m)
  }

  /** The numbers at sorted position p of every draw: what
      `position_freq[p]` tallies. */
  function Column(draws: seq<Draw>, p: nat): (r: seq<int>)
    requires forall i :: 0 <= i < |draws| ==> |draws[i].whites| == BallsPerDraw
    requires p < BallsPerDraw
    ensures |r| == |draws|
  {
    seq(|draws|, i requires 0 <= i < |draws| => SortAsc(draws[i].whites)[p])
  }

  /** A dictionary of counts that agrees with a multiset: `Counter` as a map. */
  ghost predicate Represents(m: map<int, nat>, ms: multiset<int>) {
    forall v :: Get(m, v) == ms[v]
  }

  /** `counter[x] += 1` adds one occurrence of x. */
  lemma Increment(m: map<int, nat>, ms: multiset<int>, x: int)
    requires Represents(m, ms)
    ensures Represents(m[x := Get(m, x) + 1], ms + multiset{x})
  {
  }

  /** The inner loop of the position tally: `position_freq[pos][num] += 1`
      for each position of one sorted draw. */
  method AddRow(freq: seq<map<int, nat>>, sortedNums: seq<int>, ghost tallied: seq<multiset<int>>)
    returns (next: seq<map<int, nat>>)
    requires |freq| == |tallied| == BallsPerDraw && |sortedNums| == BallsPerDraw
    requires forall p :: 0 <= p < BallsPerDraw ==> Represents(freq[p], tallied[p])
    ensures |next| == BallsPerDraw
    ensures forall p :: 0 <= p < BallsPerDraw ==> Represents(next[p], tallied[p] + multiset{sortedNums[p]})
  {
    next := freq;
    var pos := 0;
    while pos < BallsPerDraw
      invariant 0 <= pos <= BallsPerDraw && |next| == BallsPerDraw
      invariant forall p :: 0 <= p < pos ==> Represents(next[p], tallied[p] + multiset{sortedNums[p]})
      invariant forall p :: pos <= p < BallsPerDraw ==> next[p] == freq[p]
    {
      var num := sortedNums[pos];
      Increment(next[pos], tallied[pos], num);
      var tally: nat := Get(next[pos], num) + 1;
      var row: map<int, nat> := next[pos][num := tally];
      next := next[pos := row];
      pos := pos + 1;
    }
  }

  /** The position tally of `sequence_pattern_analysis`:
      `position_freq[pos][num] += 1` for every sorted ball of every draw. */
  method TallyPositions(draws: seq<Draw>) returns (positionFreq: seq<map<int, nat>>)
    requires forall i :: 0 <= i < |draws| ==> |draws[i].whites| == BallsPerDraw
    ensures |positionFreq| == BallsPerDraw
    ensures forall p :: 0 <= p < BallsPerDraw ==> Represents(positionFreq[p], multiset(Column(draws, p)))
  {
    positionFreq := [map[], map[], map[], map[], map[]];
    var d := 0;
    while d < |draws|
      invariant 0 <= d <= |draws|
      invariant |positionFreq| == BallsPerDraw
      invariant forall p :: 0 <= p < BallsPerDraw ==> Represents(positionFreq[p], multiset(Column(draws[..d], p)))
    {
      ghost var tallied := seq(BallsPerDraw, p requires 0 <= p < BallsPerDraw => multiset(Column(draws[..d], p)));
      var sortedNums := SortAsc(draws[d].whites);
      positionFreq := AddRow(positionFreq, sortedNums, tallied);
      forall p | 0 <= p < BallsPerDraw
        ensures Represents(positionFreq[p], multiset(Column(draws[..d + 1], p)))
      {
        ColumnStep(draws, d, p);
      }
      d := d + 1;
    }
    assert draws[..d] == draws;
  }

  lemma ColumnStep(draws: seq<Draw>, d: nat, p: nat)
    requires forall i :: 0 <= i < |draws| ==> |draws[i].whites| == BallsPerDraw
    requires d < |draws| && p < BallsPerDraw
    ensures multiset(Column(draws[..d + 1], p)) == multiset(Column(draws[..d], p)) + multiset{SortAsc(draws[d].whites)[p]}
  {
    assert Column(draws[..d + 1], p) == Column(draws[..d], p) + [SortAsc(draws[d].whites)[p]];
  }

  /** Each draw adds one tally to every position, so each position's
      tallies over 1..69 add up to the number of draws. */
  lemma PositionTotals(draws: seq<Draw>, p: nat)
    requires ValidHistory(draws) && p < BallsPerDraw
    ensures SumCounts(Column(draws, p), 1, WhiteMax) == |draws|
  {
    var c := Column(draws, p);
    forall i | 0 <= i < |c| ensures 1 <= c[i] <= WhiteMax {
      var w := draws[i].whites;
      SortAscSameElements(w);
      assert c[i] == SortAsc(w)[p];
      assert c[i] in SortAsc(w);
      assert c[i] in w;
    }
    SumCountsTotal(c, 1, WhiteMax);
  }

  /** Position 0 of the sorted draw receives the draw's minimum. */
  lemma FirstPositionIsMinimum(draws: seq<Draw>, i: nat)
    requires forall k :: 0 <= k < |draws| ==> |draws[k].whites| == BallsPerDraw
    requires i < |draws|
    ensures Column(draws, 0)[i] in draws[i].whites
    ensures forall x :: x in draws[i].whites ==> Column(draws, 0)[i] <= x
  {
    var s := draws[i].whites;
    SortAscSameElements(s);
    forall x | x in s ensures SortAsc(s)[0] <= x {
      var j :| 0 <= j < |SortAsc(s)| && SortAsc(s)[j] == x;
    }
  }

  /** `all_gaps`: the gaps of every sorted draw, draw after draw. */
  function AllGaps(draws: seq<Draw>): seq<int> {
    if draws == [] then [] else AllGaps(draws[..|draws| - 1]) + Gaps(SortAsc(draws[|draws| - 1].whites))
  }

  /** One more draw appends its own sorted gaps. */
  lemma AllGapsStep(draws: seq<Draw>, d: nat)
    requires d < |draws|
    ensures AllGaps(draws[..d + 1]) == AllGaps(draws[..d]) + Gaps(SortAsc(draws[d].whites))
  {
    assert draws[..d + 1][..d] == draws[..d];
  }

  /** Every draw contributes four gaps, each at least 1 since a draw's balls
      are distinct. */
  lemma {:induction false} AllGapsShape(draws: seq<Draw>)
    requires ValidHistory(draws)
    ensures |AllGaps(draws)| == 4 * |draws|
    ensures forall i :: 0 <= i < |AllGaps(draws)| ==> AllGaps(draws)[i] >= 1
  {
    if draws != [] {
      AllGapsShape(draws[..|draws| - 1]);
      GapsPositive(SortAsc(draws[|draws| - 1].whites));
    }
  }

  /** The gap loop of `sequence_pattern_analysis`: `all_gaps.extend(gaps)`. */
  method CollectGaps(draws: seq<Draw>) returns (allGaps: seq<int>)
    requires ValidHistory(draws)
    ensures allGaps == AllGaps(draws)
    ensures |allGaps| == 4 * |draws|
    ensures forall i :: 0 <= i < |allGaps| ==> allGaps[i] >= 1
  {
    allGaps := [];
    var d := 0;
    while d < |draws|
      invariant 0 <= d <= |draws|
      invariant allGaps == AllGaps(draws[..d])
    {
      AllGapsStep(draws, d);
      allGaps := allGaps + Gaps(SortAsc(draws[d].whites));
      d := d + 1;
    }
    assert draws[..d] == draws;
    AllGapsShape(draws);
  }

  /** len is the longest run of one five-ball draw, with what it implies. */
  ghost predicate RunOfDraw(d: Draw, len: nat)
    requires |d.whites| == BallsPerDraw
  {
    1 <= len <= BallsPerDraw && len - 1 <= PairCount(SortAsc(d.whites)) &&
    IsLongestRun(SortAsc(d.whites), len)
  }

  /** `sequence_lengths`: the longest run of every draw, each in 1..5. */
  method SequenceLengths(draws: seq<Draw>) returns (lengths: seq<nat>)
    requires forall i :: 0 <= i < |draws| ==> |draws[i].whites| == BallsPerDraw
    ensures |lengths| == |draws|
    ensures forall i :: 0 <= i < |draws| ==> 1 <= lengths[i] <= BallsPerDraw
    ensures forall i :: 0 <= i < |draws| ==> lengths[i] - 1 <= PairCount(SortAsc(draws[i].whites))
    ensures forall i :: 0 <= i < |draws| ==> IsLongestRun(SortAsc(draws[i].whites), lengths[i])
  {
    lengths := [];
    var d := 0;
    while d < |draws|
      invariant 0 <= d <= |draws| && |lengths| == d
      invariant forall i :: 0 <= i < d ==> RunOfDraw(draws[i], lengths[i])
    {
      var run := LongestRun(draws[d].whites);
      assert RunOfDraw(draws[d], run);
      lengths := lengths + [run];
      d := d + 1;
    }
  }

  /** The silhouette sweep of `clustering_analysis`: scores[i] is the score
      of k = i + 2 for k in 2..7; the best k changes only on a strictly
      greater score, starting from `initialK` with best score -1 (3 in
      advanced_pattern_analyzer.py, 2 in advanced_pattern_summary.py). */
  method SelectBestK(scores: seq<real>, initialK: int) returns (bestK: int, bestScore: real)
    requires |scores| == 6
    ensures bestScore >= -1.0
    ensures forall i :: 0 <= i < |scores| ==> scores[i] <= bestScore
    ensures (forall i :: 0 <= i < |scores| ==> scores[i] <= -1.0) ==> bestK == initialK && bestScore == -1.0
    ensures (exists i :: 0 <= i < |scores| && scores[i] > -1.0) ==>
              2 <= bestK <= 7 && scores[bestK - 2] == bestScore
              && forall i :: 0 <= i < bestK - 2 ==> scores[i] < bestScore
    ensures 2 <= initialK <= 7 ==> 2 <= bestK <= 7
  {
    bestK := initialK;
    bestScore := -1.0;
    var k := 2;
    while k < 8
      invariant 2 <= k <= 8
      invariant bestScore >= -1.0
      invariant forall i :: 0 <= i < k - 2 ==> scores[i] <= bestScore
      invariant (forall i :: 0 <= i < k - 2 ==> scores[i] <= -1.0) ==> bestK == initialK && bestScore == -1.0
      invariant (exists i :: 0 <= i < k - 2 && scores[i] > -1.0) ==>
                  2 <= bestK < k && scores[bestK - 2] == bestScore
                  && forall i :: 0 <= i < bestK - 2 ==> scores[i] < bestScore
    {
      var score := scores[k - 2];
      if score > bestScore {
        bestScore := score;
        bestK := k;
      }
      k := k + 1;
    }
  }

  /** One row of the feature table built by `prepare_features` (the
      floating-point Mean and Std columns and the date columns aside). */
  datatype FeatureRow = FeatureRow(
    sum: int, range: int, evenCount: nat, oddCount: int, consecutivePairs: nat,
    gapVariance: real, lowHighRatio: real, primeCount: nat, fibonacciCount: nat)

  function PrepareFeatures(whites: seq<int>): FeatureRow
    requires |whites| > 0
  {
    FeatureRow(Sum(whites), Spread(whites), EvenCount(whites), 5 - EvenCount(whites),
      PairCount(SortAsc(whites)), GapVariance(whites), LowHighRatio(whites),
      PrimeCount(whites), FibonacciCount(whites))
  }

  /** Each gap of an ascending list is at least one, so the gaps add up to
      at least one less than its length. */
  lemma {:induction false} GapsSumAtLeast(t: seq<int>)
    requires StrictlyAscending(t) && |t| > 0
    ensures Sum(Gaps(t)) >= |t| - 1
  {
    if |t| >= 2 {
      assert StrictlyAscending(t[1..]) by {
        forall i, j | 0 <= i < j < |t[1..]| ensures t[1..][i] < t[1..][j] {
          assert t[1..][i] == t[i + 1] && t[1..][j] == t[j + 1];
        }
      }
      GapsSumAtLeast(t[1..]);
      assert Gaps(t) == [t[1] - t[0]] + Gaps(t[1..]);
      assert Gaps(t)[1..] == Gaps(t[1..]);
    }
  }

  /** The spread of a valid draw is the sum of its gaps, at least four
      (five distinct numbers) and at most 68. */
  lemma SpreadBounds(d: Draw)
    requires ValidDraw(d)
    ensures Spread(d.whites) == Sum(Gaps(SortAsc(d.whites)))
    ensures 4 <= Spread(d.whites) <= WhiteMax - 1
  {
    GapsSumToSpread(d.whites);
    SortedEnds(d.whites);
    GapsSumAtLeast(SortAsc(d.whites));
  }

  /** The bounds every feature of a valid draw obeys. */
  lemma FeatureBounds(d: Draw)
    requires ValidDraw(d)
    ensures var f := PrepareFeatures(d.whites);
      BallsPerDraw <= f.sum <= BallsPerDraw * WhiteMax
      && f.range == Sum(Gaps(SortAsc(d.whites)))
      && 4 <= f.range <= WhiteMax - 1
      && f.evenCount <= 5 && f.oddCount == Count(d.whites, IsOdd)
      && f.consecutivePairs <= 4
      && (f.lowHighRatio == 5.0 || 0.0 <= f.lowHighRatio <= 4.0)
      && f.primeCount <= 5 && f.fibonacciCount <= 5
      && f.gapVariance >= 0.0
  {
    SpreadBounds(d);
    OddCountIsOdd(d.whites);
  }
}
