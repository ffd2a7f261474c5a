/** lottery_analyzer.py: the tallies of `LotteryAnalyzer` — full and
    recent frequency counts, draws with consecutive numbers, even/odd
    labels, sum buckets and the decade buckets of its last chart. */
module Analyzer {
  import opened Base
  import opened Sorting
  import opened Tally
  import opened Features

  /** `lo <= x < hi`, the test of one half-open bucket. */
  function Between(lo: int, hi: int): int -> bool {
    x => lo <= x < hi
  }

  /** Counting two adjacent half-open buckets counts their union. */
  lemma {:induction false} CountAdjacent(s: seq<int>, a: int, b: int, c: int)
    requires a <= b <= c
    ensures Count(s, Between(a, b)) + Count(s, Between(b, c)) == Count(s, Between(a, c))
  {
    if s != [] {
      CountAdjacent(s[1..], a, b, c);
    }
  }

  // ---- frequency_analysis and hot_cold_analysis ----

  /** Every white ball of the history is counted once in 1..69, and every
      powerball once in 1..26: the white tallies add up to five per draw. */
  lemma FullTallies(draws: seq<Draw>)
    requires ValidHistory(draws)
    ensures SumCounts(Flatten(draws), 1, WhiteMax) == BallsPerDraw * |draws|
    ensures SumCounts(Powerballs(draws), 1, PowerMax) == |draws|
  {
    FlattenInRange(draws);
    SumCountsTotal(Flatten(draws), 1, WhiteMax);
    SumCountsTotal(Powerballs(draws), 1, PowerMax);
  }

  /** `df.tail(n)`: the last n draws, or all of them when there are fewer. */
  function Tail(draws: seq<Draw>, n: nat): (r: seq<Draw>)
    ensures |r| == if n < |draws| then n else |draws|
    ensures forall i :: 0 <= i < |r| ==> r[i] == draws[|draws| - |r| + i]
  {
    if n < |draws| then draws[|draws| - n..] else draws
  }

  /** The recent window is part of the history, so the same bounds hold. */
  lemma TailValid(draws: seq<Draw>, n: nat)
    requires ValidHistory(draws)
    ensures ValidHistory(Tail(draws, n))
  {
    var t := Tail(draws, n);
    forall i | 0 <= i < |t| ensures ValidDraw(t[i]) {
      assert t[i] == draws[|draws| - |t| + i];
    }
  }

  /** The tallies of `hot_cold_analysis`: only the last `recentDraws` rows
      are counted, so the white tallies add up to five per recent draw. */
  lemma RecentTallies(draws: seq<Draw>, recentDraws: nat)
    requires ValidHistory(draws)
    ensures var window := if recentDraws < |draws| then recentDraws else |draws|;
      SumCounts(Flatten(Tail(draws, recentDraws)), 1, WhiteMax) == BallsPerDraw * window
      && SumCounts(Powerballs(Tail(draws, recentDraws)), 1, PowerMax) == window
  {
    TailValid(draws, recentDraws);
    FullTallies(Tail(draws, recentDraws));
  }

  /** `hot_cold_analysis`: the ten most and ten least common white balls of
      the recent window and its ten most common powerballs. */
  method HotColdAnalysis(draws: seq<Draw>, recentDraws: nat)
    returns (hotWhite: seq<int>, coldWhite: seq<int>, hotPowerballs: seq<int>)
    requires ValidHistory(draws)
    ensures |hotWhite| <= 10 && |coldWhite| <= 10 && |hotPowerballs| <= 10
    ensures forall x :: x in hotWhite || x in coldWhite ==> x in Flatten(Tail(draws, recentDraws))
    ensures forall x :: x in hotPowerballs ==> x in Powerballs(Tail(draws, recentDraws))
    ensures forall v, w :: v in hotWhite && w in Flatten(Tail(draws, recentDraws)) && w !in hotWhite
              ==> multiset(Flatten(Tail(draws, recentDraws)))[v] >= multiset(Flatten(Tail(draws, recentDraws)))[w]
    ensures forall v, w :: v in coldWhite && w in Flatten(Tail(draws, recentDraws)) && w !in coldWhite
              ==> multiset(Flatten(Tail(draws, recentDraws)))[v] <= multiset(Flatten(Tail(draws, recentDraws)))[w]
    ensures IsTop(Flatten(Tail(draws, recentDraws)), hotWhite, 10)
    ensures IsBottom(Flatten(Tail(draws, recentDraws)), coldWhite, 10)
    ensures IsTop(Powerballs(Tail(draws, recentDraws)), hotPowerballs, 10)
  {
    var recent := Tail(draws, recentDraws);
    var recentWhiteBalls := Flatten(recent);
    var recentPowerballs := Powerballs(recent);
    hotWhite := Take(MostCommon(recentWhiteBalls), 10);
    coldWhite := Last(MostCommon(recentWhiteBalls), 10);
    hotPowerballs := Take(MostCommon(recentPowerballs), 10);
    MostCommonTop(recentWhiteBalls, 10);
    MostCommonBottom(recentWhiteBalls, 10);
    MostCommonTop(recentPowerballs, 10);
  }

  // ---- consecutive_analysis ----

  /** A draw shown as an example: its date, sorted balls and pair count. */
  datatype Example = Example(date: int, whites: seq<int>, pairs: nat)

  /** The draw has two sorted balls that differ by one. */
  predicate HasPair(d: Draw) {
    PairCount(SortAsc(d.whites)) > 0
  }

  /** The example kept for a draw: its date, sorted balls and number of pairs. */
  function ExampleOf(d: Draw): Example {
    Example(d.date, SortAsc(d.whites), PairCount(SortAsc(d.whites)))
  }

  /** A draw counts exactly when two of its sorted balls differ by one. */
  lemma HasPairMeaning(d: Draw)
    ensures HasPair(d) <==> ExampleOf(d).pairs > 0
    ensures HasPair(d) <==> exists i :: 0 <= i < |SortAsc(d.whites)| - 1 && SortAsc(d.whites)[i + 1] - SortAsc(d.whites)[i] == 1
  {
    NoPairs(SortAsc(d.whites));
  }

  /** The example `f` gives of every draw, in order. */
  function Examples(draws: seq<Draw>, f: Draw -> Example): (r: seq<Example>)
    ensures |r| == |draws|
  {
    if draws == [] then [] else Examples(draws[..|draws| - 1], f) + [f(draws[|draws| - 1])]
  }

  /** The i-th example is that of the i-th draw. */
  lemma {:induction false} ExamplesAt(draws: seq<Draw>, f: Draw -> Example, i: nat)
    requires i < |draws|
    ensures Examples(draws, f)[i] == f(draws[i])
  {
    var n := |draws| - 1;
    if i < n {
      ExamplesAt(draws[..n], f, i);
    }
  }

  /** The examples with at least one pair, in their order. */
  function Kept(es: seq<Example>): (r: seq<Example>)
    ensures |r| <= |es|
  {
    if es == [] then []
    else if es[|es| - 1].pairs > 0 then Kept(es[..|es| - 1]) + [es[|es| - 1]]
    else Kept(es[..|es| - 1])
  }

  /** The draws that have a consecutive pair, in order, as examples. */
  function WithPairs(draws: seq<Draw>): seq<Example> {
    Kept(Examples(draws, ExampleOf))
  }

  /** One more example is kept exactly when it has a pair. */
  lemma KeptStep(es: seq<Example>, d: nat)
    requires d < |es|
    ensures Kept(es[..d + 1]) == Kept(es[..d]) + (if es[d].pairs > 0 then [es[d]] else [])
  {
    assert es[..d + 1][..d] == es[..d];
  }

  /** Every kept example is one of the examples and has a pair. */
  lemma {:induction false} KeptMembers(es: seq<Example>)
    ensures forall e :: e in Kept(es) ==> e in es && e.pairs > 0
  {
    if es != [] {
      var n := |es| - 1;
      KeptMembers(es[..n]);
      KeptStep(es, n);
      assert es[..n + 1] == es;
      assert forall e :: e in es[..n] ==> e in es;
    }
  }

  /** Nothing is kept exactly when no example has a pair. */
  lemma {:induction false} KeptEmpty(es: seq<Example>)
    ensures Kept(es) == [] <==> forall e :: e in es ==> e.pairs == 0
  {
    if es != [] {
      var n := |es| - 1;
      KeptEmpty(es[..n]);
      KeptStep(es, n);
      assert es[..n + 1] == es;
      assert forall e :: e in es ==> e in es[..n] || e == es[n];
    }
  }

  /** Every example shown is the example of a draw and has a pair, and
      there is none exactly when no draw's example has a pair. */
  lemma WithPairsMeaning(draws: seq<Draw>)
    ensures forall e :: e in WithPairs(draws) ==> e in Examples(draws, ExampleOf) && e.pairs > 0
    ensures WithPairs(draws) == [] <==> forall e :: e in Examples(draws, ExampleOf) ==> e.pairs == 0
  {
    KeptMembers(Examples(draws, ExampleOf));
    KeptEmpty(Examples(draws, ExampleOf));
  }

  /** One row of `consecutive_analysis`: the sorted balls of a draw and
      the number of consecutive pairs among them. */
  method SortAndCount(draws: seq<Draw>, d: nat) returns (whiteBalls: seq<int>, consecutiveInDraw: nat)
    requires d < |draws|
    ensures whiteBalls == SortAsc(draws[d].whites) && consecutiveInDraw == PairCount(whiteBalls)
    ensures Example(draws[d].date, whiteBalls, consecutiveInDraw) == Examples(draws, ExampleOf)[d]
  {
    whiteBalls := SortAsc(draws[d].whites);
    consecutiveInDraw := CountConsecutivePairs(whiteBalls);
    SortAscIdempotent(draws[d].whites);
    ExamplesAt(draws, ExampleOf, d);
  }

  /** After the first d examples: `count` of them have a pair and `shown`
      holds the first ten of those. */
  ghost predicate FirstTenSoFar(es: seq<Example>, d: nat, count: nat, shown: seq<Example>)
    requires d <= |es|
  {
    count == |Kept(es[..d])| && |shown| == (if count < 10 then count else 10) && shown == Kept(es[..d])[..|shown|]
  }

  /** Counting the examples with a pair and keeping the first ten of them
      carries over from `es[..d]` to `es[..d + 1]`. */
  lemma KeepFirstTen(es: seq<Example>, d: nat, e: Example, count: nat, shown: seq<Example>, count': nat, shown': seq<Example>)
    requires d < |es| && e == es[d]
    requires FirstTenSoFar(es, d, count, shown)
    requires count' == if e.pairs > 0 then count + 1 else count
    requires shown' == if e.pairs > 0 && |shown| < 10 then shown + [e] else shown
    ensures FirstTenSoFar(es, d + 1, count', shown')
  {
    KeptStep(es, d);
    var before := Kept(es[..d]);
    if es[d].pairs > 0 {
      if |shown| < 10 {
        assert shown + [es[d]] == (before + [es[d]])[..|shown| + 1];
      } else {
        assert (before + [es[d]])[..|shown|] == before[..|shown|];
      }
    }
  }

  /** `consecutive_analysis`: counts the draws with a consecutive pair and
      keeps the first ten of them as examples. */
  method ConsecutiveAnalysis(draws: seq<Draw>) returns (consecutiveCount: nat, examples: seq<Example>)
    ensures consecutiveCount == |WithPairs(draws)|
    ensures |examples| == if consecutiveCount < 10 then consecutiveCount else 10
    ensures examples == WithPairs(draws)[..|examples|]
  {
    ghost var es := Examples(draws, ExampleOf);
    consecutiveCount := 0;
    examples := [];
    var d := 0;
    while d < |draws|
      invariant 0 <= d <= |draws| && |es| == |draws|
      invariant FirstTenSoFar(es, d, consecutiveCount, examples)
    {
      ghost var count, shown := consecutiveCount, examples;
      var whiteBalls, consecutiveInDraw := SortAndCount(draws, d);
      var e := Example(draws[d].date, whiteBalls, consecutiveInDraw);
      if e.pairs > 0 {
        consecutiveCount := consecutiveCount + 1;
        if |examples| < 10 {
          examples := examples + [e];
        }
      }
      KeepFirstTen(es, d, e, count, shown, consecutiveCount, examples);
      d := d + 1;
    }
    assert es[..d] == es;
  }

  // ---- even_odd_analysis ----

  /** The decimal digit d. */
  function Digit(d: nat): char
    requires d <= 9
  {
    (48 + d) as char
  }

  /** `f"{even_count}E-{odd_count}O"` with `odd_count = 5 - even_count`. */
  function EvenOddLabel(evenCount: nat): (s: string)
    requires evenCount <= 5
    ensures |s| == 5 && s[1] == 'E' && s[2] == '-' && s[4] == 'O'
  {
    [Digit(evenCount)] + "E-" + [Digit(5 - evenCount)] + "O"
  }

  /** The label gives back the even count and the odd count, so different
      even counts get different labels. */
  lemma EvenOddLabelDecodes(evenCount: nat)
    requires evenCount <= 5
    ensures EvenOddLabel(evenCount)[0] as int - 48 == evenCount
    ensures EvenOddLabel(evenCount)[3] as int - 48 == 5 - evenCount
  {
  }

  lemma EvenOddLabelInjective(a: nat, b: nat)
    requires a <= 5 && b <= 5 && EvenOddLabel(a) == EvenOddLabel(b)
    ensures a == b
  {
    EvenOddLabelDecodes(a);
    EvenOddLabelDecodes(b);
  }

  /** `even_odd_analysis`: one label per draw, in draw order. For a valid
      draw the second digit is its number of odd balls. */
  method EvenOddPatterns(draws: seq<Draw>) returns (patterns: seq<string>)
    requires forall i :: 0 <= i < |draws| ==> |draws[i].whites| == BallsPerDraw
    ensures |patterns| == |draws|
    ensures forall i :: 0 <= i < |draws| ==>
              EvenCount(draws[i].whites) <= 5 && patterns[i] == EvenOddLabel(EvenCount(draws[i].whites))
              && patterns[i][3] as int - 48 == Count(draws[i].whites, IsOdd)
  {
    patterns := [];
    var d := 0;
    while d < |draws|
      invariant 0 <= d <= |draws| && |patterns| == d
      invariant forall i :: 0 <= i < d ==>
                  EvenCount(draws[i].whites) <= 5 && patterns[i] == EvenOddLabel(EvenCount(draws[i].whites))
                  && patterns[i][3] as int - 48 == Count(draws[i].whites, IsOdd)
    {
      var evenCount := EvenCount(draws[d].whites);
      OddCountIsOdd(draws[d].whites);
      EvenOddLabelDecodes(evenCount);
      patterns := patterns + [EvenOddLabel(evenCount)];
      d := d + 1;
    }
  }

  // ---- sum_analysis ----

  /** `sum_ranges`: Low, Medium-Low, Medium, Medium-High and High. */
  const SumLows: seq<int> := [50, 100, 150, 200, 250]
  const SumHighs: seq<int> := [100, 150, 200, 250, 300]

  /** `df['Sum']`: the sum of each draw's white balls. */
  function Sums(draws: seq<Draw>): (r: seq<int>)
    ensures |r| == |draws|
    ensures forall i :: 0 <= i < |draws| ==> r[i] == Sum(draws[i].whites)
  {
    seq(|draws|, i requires 0 <= i < |draws| => Sum(draws[i].whites))
  }

  /** The buckets are half-open and adjacent: a sum lies in at most one of
      them, and in one exactly when it lies in [50, 300). */
  lemma SumBucketsPartition(s: int)
    ensures forall i, j :: 0 <= i < j < 5 ==> !(SumLows[i] <= s < SumHighs[i] && SumLows[j] <= s < SumHighs[j])
    ensures (exists i :: 0 <= i < 5 && SumLows[i] <= s < SumHighs[i]) <==> 50 <= s < 300
  {
    if 50 <= s < 300 {
      var i := (s - 50) / 50;
      assert SumLows[i] <= s < SumHighs[i];
    }
  }

  /** `sum_analysis`: the number of draws whose sum lies in each bucket. */
  method SumAnalysis(draws: seq<Draw>) returns (counts: seq<nat>)
    ensures |counts| == 5
    ensures forall i :: 0 <= i < 5 ==> counts[i] == Count(Sums(draws), Between(SumLows[i], SumHighs[i]))
    ensures counts[0] + counts[1] + counts[2] + counts[3] + counts[4] == Count(Sums(draws), Between(50, 300))
  {
    var sums := Sums(draws);
    counts := [];
    var i := 0;
    while i < 5
      invariant 0 <= i <= 5 && |counts| == i
      invariant forall k :: 0 <= k < i ==> counts[k] == Count(sums, Between(SumLows[k], SumHighs[k]))
    {
      counts := counts + [Count(sums, Between(SumLows[i], SumHighs[i]))];
      i := i + 1;
    }
    SumBucketsTotal(sums);
  }

  /** The five bucket counts add up to the number of sums in [50, 300);
      sums outside it are in no bucket. */
  lemma SumBucketsTotal(sums: seq<int>)
    ensures Count(sums, Between(50, 100)) + Count(sums, Between(100, 150)) + Count(sums, Between(150, 200))
            + Count(sums, Between(200, 250)) + Count(sums, Between(250, 300)) == Count(sums, Between(50, 300))
  {
    CountAdjacent(sums, 50, 100, 150);
    CountAdjacent(sums, 50, 150, 200);
    CountAdjacent(sums, 50, 200, 250);
    CountAdjacent(sums, 50, 250, 300);
  }

  // ---- the decade chart of create_visualizations ----

  /** First and last number of decade i: 1-10, 11-20, ..., 61-69. */
  function DecadeStart(i: nat): int { i * 10 + 1 }
  function DecadeEnd(i: nat): int { if (i + 1) * 10 < WhiteMax then (i + 1) * 10 else WhiteMax }

  /** Every white ball lies in exactly one of the seven decades. */
  lemma DecadesPartition(x: int)
    requires 1 <= x <= WhiteMax
    ensures 0 <= (x - 1) / 10 < 7
    ensures forall i :: 0 <= i < 7 ==> (DecadeStart(i) <= x <= DecadeEnd(i) <==> i == (x - 1) / 10)
  {
  }

  /** `range_counts`: how many tallied white balls fall in each decade. */
  method DecadeCounts(whiteBalls: seq<int>) returns (rangeCounts: seq<nat>)
    ensures |rangeCounts| == 7
    ensures forall i :: 0 <= i < 7 ==> rangeCounts[i] == Count(whiteBalls, Between(DecadeStart(i), DecadeEnd(i) + 1))
    ensures rangeCounts[0] + rangeCounts[1] + rangeCounts[2] + rangeCounts[3] + rangeCounts[4] + rangeCounts[5]
            + rangeCounts[6] == Count(whiteBalls, Between(1, WhiteMax + 1))
  {
    rangeCounts := [];
    var i := 0;
    while i < 7
      invariant 0 <= i <= 7 && |rangeCounts| == i
      invariant forall k :: 0 <= k < i ==> rangeCounts[k] == Count(whiteBalls, Between(DecadeStart(k), DecadeEnd(k) + 1))
    {
      var start := i * 10 + 1;
      var end := if (i + 1) * 10 < WhiteMax then (i + 1) * 10 else WhiteMax;
      var count := Count(whiteBalls, Between(start, end + 1));
      rangeCounts := rangeCounts + [count];
      i := i + 1;
    }
    DecadesTotal(whiteBalls);
  }

  /** The seven decade counts add up to the number of balls in 1..69. */
  lemma DecadesTotal(balls: seq<int>)
    ensures Count(balls, Between(1, 11)) + Count(balls, Between(11, 21)) + Count(balls, Between(21, 31))
            + Count(balls, Between(31, 41)) + Count(balls, Between(41, 51)) + Count(balls, Between(51, 61))
            + Count(balls, Between(61, 70)) == Count(balls, Between(1, 70))
  {
    CountAdjacent(balls, 1, 11, 21);
    CountAdjacent(balls, 1, 21, 31);
    CountAdjacent(balls, 1, 31, 41);
    CountAdjacent(balls, 1, 41, 51);
    CountAdjacent(balls, 1, 51, 61);
    CountAdjacent(balls, 1, 61, 70);
  }

  /** On a valid history every white ball is in a decade, so the decade
      counts add up to five per draw. */
  lemma DecadesOfHistory(draws: seq<Draw>)
    requires ValidHistory(draws)
    ensures Count(Flatten(draws), Between(1, WhiteMax + 1)) == BallsPerDraw * |draws|
  {
    FlattenInRange(draws);
    var balls := Flatten(draws);
    CountExtremes(balls, Between(1, WhiteMax + 1));
  }
}
