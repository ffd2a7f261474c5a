/** ultimate_lottery_generator.py: `UltimateLotteryGenerator`, with the
    learned position preferences. The frequency-weighted strategy is
    `Strategies.FrequencyWeightedTicket`. */
module Ultimate {
  import opened Base
  import opened Sorting
  import opened Tally
  import opened Features
  import opened HotCold
  import opened Sampler
  import opened Strategies

  /** `position_preferences[p]`: the five most common numbers at sorted
      position p, `position_freq[p].most_common(5)`. */
  function Preference(draws: seq<Draw>, p: nat): seq<int>
    requires ValidHistory(draws) && p < BallsPerDraw
  {
    Take(MostCommon(Column(draws, p)), 5)
  }

  /** `position_preferences`: the lists for the five positions. */
  function Preferences(draws: seq<Draw>): (r: seq<seq<int>>)
    requires ValidHistory(draws)
    ensures |r| == BallsPerDraw
  {
    seq(BallsPerDraw, p requires 0 <= p < BallsPerDraw => Preference(draws, p))
  }

  /** Every number at a sorted position is a white ball. */
  lemma ColumnInRange(draws: seq<Draw>, p: nat)
    requires ValidHistory(draws) && p < BallsPerDraw
    ensures forall x :: x in Column(draws, p) ==> 1 <= x <= WhiteMax
  {
    var c := Column(draws, p);
    forall x | x in c ensures 1 <= x <= WhiteMax {
      var i :| 0 <= i < |c| && c[i] == x;
      SortAscSameElements(draws[i].whites);
      assert x in SortAsc(draws[i].whites);
    }
  }

  /** Each list has at most five numbers without repeats, each of them a
      white ball seen at that sorted position; a list is empty exactly
      when there are no draws. */
  lemma PreferenceMembers(draws: seq<Draw>, p: nat)
    requires ValidHistory(draws) && p < BallsPerDraw
    ensures |Preference(draws, p)| <= 5 && Distinct(Preference(draws, p))
    ensures forall x :: x in Preference(draws, p) ==> x in Column(draws, p) && 1 <= x <= WhiteMax
    ensures Preference(draws, p) == [] <==> draws == []
  {
    var c := Column(draws, p);
    TopIsMostFrequent(c, 5);
    ColumnInRange(draws, p);
    if draws != [] {
      assert c[0] in MostCommon(c);
    }
  }

  /** Each list is ordered by decreasing count at its position, and no
      number left out was seen there more often than one kept. */
  lemma PreferenceRanked(draws: seq<Draw>, p: nat)
    requires ValidHistory(draws) && p < BallsPerDraw
    ensures forall i, j :: 0 <= i < j < |Preference(draws, p)| ==>
              multiset(Column(draws, p))[Preference(draws, p)[i]] >= multiset(Column(draws, p))[Preference(draws, p)[j]]
    ensures forall v, w :: v in Preference(draws, p) && w in Column(draws, p) && w !in Preference(draws, p)
              ==> multiset(Column(draws, p))[v] >= multiset(Column(draws, p))[w]
  {
    var c := Column(draws, p);
    assert Preference(draws, p) == Take(MostCommon(c), 5);
    TopIsMostFrequent(c, 5);
    TopRanked(c, 5);
  }

  /** The balanced fill as written: up to `5 - len(white_balls)` numbers
      sampled from the concatenated position lists, which can repeat a
      number that sits in two lists. */
  function BalancedFillAsWritten(rand: Stream, at: nat, white: seq<int>, prefs: seq<seq<int>>): (r: seq<int>)
    requires |white| <= BallsPerDraw
    ensures |r| <= BallsPerDraw - |white|
    ensures forall x :: x in r ==> x !in white && exists p :: 0 <= p < |prefs| && x in prefs[p]
  {
    FillFrom(rand, at, white, Join(prefs), BallsPerDraw - |white|)
  }

  /** Five lists, joined. */
  lemma JoinFive(prefs: seq<seq<int>>)
    requires |prefs| == BallsPerDraw
    ensures Join(prefs) == prefs[0] + prefs[1] + prefs[2] + prefs[3] + prefs[4]
  {
    assert prefs[..1][..0] == [] && prefs[..2][..1] == prefs[..1];
    assert prefs[..3][..2] == prefs[..2] && prefs[..4][..3] == prefs[..3];
    assert Join(prefs[..1]) == prefs[0];
    assert Join(prefs[..2]) == prefs[0] + prefs[1];
    assert Join(prefs[..3]) == prefs[0] + prefs[1] + prefs[2];
    assert Join(prefs[..4]) == prefs[0] + prefs[1] + prefs[2] + prefs[3];
    assert prefs[..4] == prefs[..|prefs| - 1];
  }

  /** Dropping values from a single number. */
  lemma WithoutSingle(x: int, avoid: seq<int>)
    ensures Without([x], avoid) == if x in avoid then [] else [x]
  {
    assert [x][1..] == [];
  }

  /** The first three learned lists of the example below, without the hot
      picks c and d. */
  lemma AvailablePrefix(a: int, b: int, c: int, d: int, white: seq<int>)
    requires a < b < c < d && white == [c, d]
    ensures Without([a] + [b] + [c], white) == [a, b]
  {
    WithoutSingle(a, white);
    WithoutSingle(b, white);
    WithoutSingle(c, white);
    WithoutAppend([a], [b], white);
    WithoutAppend([a] + [b], [c], white);
  }

  /** The first four learned lists of the example below, without c and d. */
  lemma AvailableMiddle(a: int, b: int, c: int, d: int, e: int, white: seq<int>)
    requires a < b < c < d < e && white == [c, d]
    ensures Without([a] + [b] + [c] + [d, e], white) == [a, b, e]
  {
    var p, q := [a] + [b] + [c], [d, e];
    AvailablePrefix(a, b, c, d, white);
    assert d in white && e !in white;
    WithoutSingle(d, white);
    WithoutSingle(e, white);
    assert q == [d] + [e];
    WithoutAppend([d], [e], white);
    assert Without(q, white) == [e];
    WithoutAppend(p, q, white);
    assert [a, b] + [e] == [a, b, e];
  }

  /** All five learned lists of the example below, without c and d. */
  lemma AvailableExample(a: int, b: int, c: int, d: int, e: int, f: int, white: seq<int>)
    requires a < b < c < d < e < f && white == [c, d]
    ensures Without([a] + [b] + [c] + [d, e] + [e, f], white) == [a, b, e, e, f]
  {
    AvailableMiddle(a, b, c, d, e, white);
    WithoutSingle(e, white);
    WithoutSingle(f, white);
    WithoutAppend([e], [f], white);
    assert [e] + [f] == [e, f];
    WithoutAppend([a] + [b] + [c] + [d, e], [e, f], white);
  }

  /** One pick of a sample when the stream gives 2 and the pool holds more
      than two values: the third value, then the rest of the sample from
      the pool without it. */
  lemma SampleThird(rand: Stream, at: nat, pool: seq<int>, k: nat, rest: seq<int>)
    requires rand(at) == 2 && 2 < |pool| && 0 < k <= |pool|
    requires rest == pool[..2] + pool[3..]
    ensures Sample(rand, at, pool, k).Ok?
    ensures Sample(rand, at, pool, k).value == [pool[2]] + Sample(rand, at + 1, rest, k - 1).value
  {
    assert Index(rand, at, |pool|) == 2;
    assert RemoveAt(pool, 2) == rest;
  }

  /** The pools of the example below, each without its third value. */
  lemma DropThird(a: int, b: int, e: int, f: int)
    ensures [a, b, e, e, f][..2] + [a, b, e, e, f][3..] == [a, b, e, f]
    ensures [a, b, e, f][..2] + [a, b, e, f][3..] == [a, b, f]
    ensures [a, b, f][..2] + [a, b, f][3..] == [a, b]
  {
    assert [a, b, e, e, f][..2] == [a, b] && [a, b, e, e, f][3..] == [e, f];
    assert [a, b, e, f][..2] == [a, b] && [a, b, e, f][3..] == [f];
    assert [a, b, f][..2] == [a, b] && [a, b, f][3..] == [];
  }

  /** The last pick of the example below. */
  lemma SampleLast(rand: Stream, a: int, b: int, f: int)
    requires rand(2) == 2
    ensures Sample(rand, 2, [a, b, f], 1) == Ok([f])
  {
    DropThird(a, b, f, f);
    SampleThird(rand, 2, [a, b, f], 1, [a, b]);
    var rest := Sample(rand, 3, [a, b], 0);
    assert rest == Ok([]);
    assert [[a, b, f][2]] + rest.value == [f];
  }

  /** The last two picks of the example below. */
  lemma SampleLastTwo(rand: Stream, a: int, b: int, e: int, f: int)
    requires rand(1) == 2 && rand(2) == 2
    ensures Sample(rand, 1, [a, b, e, f], 2) == Ok([e, f])
  {
    DropThird(a, b, e, f);
    SampleThird(rand, 1, [a, b, e, f], 2, [a, b, f]);
    SampleLast(rand, a, b, f);
    assert [[a, b, e, f][2]] + [f] == [e, f];
  }

  /** Three picks from a, b, e, e, f with a stream of twos. */
  lemma SampleExample(rand: Stream, pool: seq<int>, a: int, b: int, e: int, f: int)
    requires rand(0) == 2 && rand(1) == 2 && rand(2) == 2
    requires pool == [a, b, e, e, f]
    ensures Sample(rand, 0, pool, 3) == Ok([e, e, f])
  {
    DropThird(a, b, e, f);
    SampleThird(rand, 0, pool, 3, [a, b, e, f]);
    SampleLastTwo(rand, a, b, e, f);
    assert [pool[2]] + [e, f] == [e, e, f];
  }

  /** For six numbers a < b < c < d < e < f, learned lists [a], [b], [c],
      [d, e], [e, f] (two draws, a b c d e and a b c e f, in which all six
      numbers are hot and none is cold; 1 to 6 is one instance), hot picks
      c and d and a stream of twos: the fill is e, e, f, so the ticket
      repeats e. */
  lemma BalancedFillRepeats(rand: Stream, prefs: seq<seq<int>>, a: int, b: int, c: int, d: int, e: int, f: int)
    requires forall n :: rand(n) == 2
    requires a < b < c < d < e < f
    requires prefs == [[a], [b], [c], [d, e], [e, f]]
    ensures BalancedFillAsWritten(rand, 0, [c, d], prefs) == [e, e, f]
    ensures !Distinct([c, d] + BalancedFillAsWritten(rand, 0, [c, d], prefs))
  {
    var white := [c, d];
    JoinFive(prefs);
    AvailableExample(a, b, c, d, e, f, white);
    var joined := Join(prefs);
    SampleExample(rand, Without(joined, white), a, b, e, f);
    assert Without(joined, white) == [a, b, e, e, f];
    var fill := FillFrom(rand, 0, white, joined, 3);
    assert fill == [e, e, f];
    var t := white + fill;
    assert t[2] == t[3];
  }

  /** `random.randint(4, 5)` numbers of a group (`random.sample` fails when
      the group is smaller), then the candidates not yet chosen, then
      uniform picks; the powerball is `random.choice` of a pool. The shared
      shape of `generate_super_hot_strategy` and
      `generate_contrarian_ultimate`. */
  method GroupTicket(rand: Stream, at: nat, group: seq<int>, candidates: seq<int>, pbPool: seq<int>)
    returns (r: Result<Ticket>, next: nat)
    requires Distinct(group) && InRange(group, 1, WhiteMax)
    requires forall x :: x in candidates ==> 1 <= x <= WhiteMax
    requires InRange(pbPool, 1, PowerMax)
    ensures r.Ok? ==> ValidTicket(r.value) && Overlap(r.value.whites, group) >= BallsPerDraw - 1
    ensures r.Ok? ==> r.value.powerball in pbPool
    ensures |group| < BallsPerDraw - 1 ==> r == Err(SampleLargerThanPopulation)
    ensures |group| >= BallsPerDraw && pbPool != [] ==> r.Ok?
    ensures |group| == BallsPerDraw - 1 ==> (r.Ok? <==> RandInt(rand, at, 4, 5) == 4 && pbPool != [])
    ensures r.Err? ==> r.error == SampleLargerThanPopulation || (r.error == EmptySequence && pbPool == [])
  {
    var count := RandInt(rand, at, 4, 5);
    var whites;
    whites, next := GroupThenTopUp(rand, at + 1, group, count, candidates);
    if whites.Err? {
      return Err(SampleLargerThanPopulation), next;
    }
    var powerball := Choice(rand, next, pbPool);
    next := next + 1;
    if powerball.Err? {
      return Err(EmptySequence), next;
    }
    assert powerball.value in pbPool;
    r := Ok(Ticket(whites.value, powerball.value));
  }

  lemma PrefixStep(all: seq<seq<int>>, pos: nat)
    requires pos < |all|
    ensures all[..pos + 1] == all[..pos] + [all[pos]]
  {
  }

  /** The loop of `analyze_position_patterns` over the five positions. */
  method LearnPreferences(draws: seq<Draw>) returns (prefs: seq<seq<int>>)
    requires ValidHistory(draws)
    ensures prefs == Preferences(draws)
  {
    ghost var all := Preferences(draws);
    prefs := [];
    var pos := 0;
    while pos < BallsPerDraw
      invariant 0 <= pos <= BallsPerDraw && prefs == all[..pos]
    {
      var top := Preference(draws, pos);
      assert all[pos] == top;
      PrefixStep(all, pos);
      prefs := prefs + [top];
      pos := pos + 1;
    }
    assert all[..BallsPerDraw] == all;
  }

  class UltimateGenerator {
    /** Stand-ins for `np.sqrt` of the expected white and powerball counts. */
    const whiteRoot: real
    const pbRoot: real
    /** The parsed rows (`self.df`). */
    var draws: seq<Draw>
    var whiteBalls: seq<int>
    var powerballs: seq<int>
    var hotNumbers: seq<int>
    var coldNumbers: seq<int>
    var hotPowerballs: seq<int>
    var coldPowerballs: seq<int>
    var positionPreferences: seq<seq<int>>

    ghost predicate Valid()
      reads this
    {
      ValidHistory(draws) && whiteBalls == Flatten(draws) && powerballs == Powerballs(draws)
      && InRange(whiteBalls, 1, WhiteMax) && InRange(powerballs, 1, PowerMax)
      && Classified(whiteBalls, WhiteMax, 2.0, whiteRoot, hotNumbers, coldNumbers)
      && Classified(powerballs, PowerMax, 1.5, pbRoot, hotPowerballs, coldPowerballs)
      && positionPreferences == Preferences(draws)
    }

    /** `__init__`: `load_data`, then `analyze_all_patterns`. */
    constructor(draws: seq<Draw>, whiteRoot: real, pbRoot: real)
      requires ValidHistory(draws)
      requires Ready(Flatten(draws), WhiteMax, whiteRoot) && Ready(Powerballs(draws), PowerMax, pbRoot)
      ensures Valid() && this.draws == draws
    {
      this.whiteRoot := whiteRoot;
      this.pbRoot := pbRoot;
      this.draws := draws;
      whiteBalls := Flatten(draws);
      powerballs := Powerballs(draws);
      hotNumbers, coldNumbers, hotPowerballs, coldPowerballs := [], [], [], [];
      positionPreferences := [];
      new;
      FlattenInRange(draws);
      AnalyzeAllPatterns();
    }

    /** `analyze_all_patterns`: both classifications, then
        `analyze_position_patterns`. */
    method AnalyzeAllPatterns()
      requires ValidHistory(draws) && whiteBalls == Flatten(draws) && powerballs == Powerballs(draws)
      requires InRange(whiteBalls, 1, WhiteMax) && InRange(powerballs, 1, PowerMax)
      requires Ready(whiteBalls, WhiteMax, whiteRoot) && Ready(powerballs, PowerMax, pbRoot)
      modifies this
      ensures draws == old(draws) && whiteBalls == old(whiteBalls) && powerballs == old(powerballs)
      ensures Valid()
    {
      hotNumbers, coldNumbers := Classify(whiteBalls, WhiteMax, 2.0, whiteRoot);
      hotPowerballs, coldPowerballs := Classify(powerballs, PowerMax, 1.5, pbRoot);
      AnalyzePositionPatterns();
    }

    /** `analyze_position_patterns`: for each position the five numbers
        most often seen there. */
    method AnalyzePositionPatterns()
      requires ValidHistory(draws)
      modifies this
      ensures draws == old(draws) && whiteBalls == old(whiteBalls) && powerballs == old(powerballs)
      ensures hotNumbers == old(hotNumbers) && coldNumbers == old(coldNumbers)
      ensures hotPowerballs == old(hotPowerballs) && coldPowerballs == old(coldPowerballs)
      ensures positionPreferences == Preferences(draws)
    {
      var prefs := LearnPreferences(draws);
      positionPreferences := prefs;
    }

    /** The learned lists hold white balls, and are non-empty exactly when
        there are draws. */
    lemma PreferencesShape()
      requires Valid()
      ensures |positionPreferences| == BallsPerDraw
      ensures forall p, x :: 0 <= p < BallsPerDraw && x in positionPreferences[p] ==> 1 <= x <= WhiteMax
      ensures (forall p :: 0 <= p < BallsPerDraw ==> positionPreferences[p] != []) <==> draws != []
    {
      forall p | 0 <= p < BallsPerDraw {
        PreferenceMembers(draws, p);
      }
      if draws == [] {
        PreferenceMembers(draws, 0);
        assert positionPreferences[0] == Preference(draws, 0);
      }
    }

    /** There is a powerball to choose exactly when there are draws. */
    lemma PowerballsPresent()
      requires Valid()
      ensures powerballs != [] <==> draws != []
    {
    }

    /** The learned numbers, joined, are white balls. */
    lemma JoinedInRange()
      requires Valid()
      ensures forall x :: x in Join(positionPreferences) ==> 1 <= x <= WhiteMax
    {
      PreferencesShape();
    }

    /** `generate_ultimate_strategy`: one learned number per position, hot
        with probability 80%, the repair of repeats, and one of the ten
        most common powerballs; `random.choice` fails when there are no
        draws. */
    method GenerateUltimate(rand: Stream, at: nat) returns (r: Result<Ticket>, next: nat, ghost picks: seq<int>)
      requires Valid()
      ensures r.Ok? <==> draws != []
      ensures r.Err? ==> r.error == EmptySequence
      ensures r.Ok? ==> ValidTicket(r.value)
      ensures r.Ok? ==> |picks| == BallsPerDraw && forall p :: 0 <= p < BallsPerDraw ==> picks[p] in positionPreferences[p]
      ensures r.Ok? ==> forall x :: x in picks ==> x in r.value.whites
      ensures r.Ok? && Distinct(picks) ==> r.value.whites == SortAsc(picks)
      ensures r.Ok? ==> r.value.powerball in Take(MostCommon(powerballs), 10)
    {
      PreferencesShape();
      PowerballsPresent();
      var whites;
      whites, next, picks := PositionWhites(rand, at, positionPreferences, hotNumbers, 80);
      if whites.Err? {
        return Err(EmptySequence), next, picks;
      }
      PoolsInRange(powerballs, 10, PowerMax);
      var powerball := Choice(rand, next, Take(MostCommon(powerballs), 10));
      next := next + 1;
      r := Ok(Ticket(whites.value, powerball.value));
    }

    /** The most and least common numbers of a tally of balls are balls,
        and there are some exactly when the tally is non-empty. */
    static lemma PoolsInRange(xs: seq<int>, n: nat, hi: int)
      requires InRange(xs, 1, hi) && n > 0
      ensures InRange(Take(MostCommon(xs), n), 1, hi) && InRange(Last(MostCommon(xs), n), 1, hi)
      ensures Take(MostCommon(xs), n) != [] <==> xs != []
      ensures Last(MostCommon(xs), n) != [] <==> xs != []
      ensures forall x :: x in Take(MostCommon(xs), n) || x in Last(MostCommon(xs), n) ==> 1 <= x <= hi
    {
      forall x | x in MostCommon(xs) ensures 1 <= x <= hi {
        assert x in xs;
      }
      if xs != [] {
        assert xs[0] in MostCommon(xs);
      }
      var t := Take(MostCommon(xs), n);
      var l := Last(MostCommon(xs), n);
      forall i | 0 <= i < |t| ensures 1 <= t[i] <= hi {
        assert t[i] in t;
      }
      forall i | 0 <= i < |l| ensures 1 <= l[i] <= hi {
        assert l[i] in l;
      }
    }

    /** `generate_super_hot_strategy`: 4-5 hot numbers, then learned
        position numbers, then uniform picks; one of the five most common
        powerballs. */
    method GenerateSuperHot(rand: Stream, at: nat) returns (r: Result<Ticket>, next: nat)
      requires Valid()
      ensures r.Ok? ==> ValidTicket(r.value) && Overlap(r.value.whites, hotNumbers) >= 4
      ensures r.Ok? ==> r.value.powerball in Take(MostCommon(powerballs), 5)
      ensures |hotNumbers| < 4 ==> r == Err(SampleLargerThanPopulation)
      ensures |hotNumbers| >= 5 && draws != [] ==> r.Ok?
      ensures r.Err? ==> r.error == SampleLargerThanPopulation || (r.error == EmptySequence && draws == [])
    {
      JoinedInRange();
      PowerballsPresent();
      PoolsInRange(powerballs, 5, PowerMax);
      ClassifiedBounds(whiteBalls, WhiteMax, 2.0, whiteRoot, hotNumbers, coldNumbers);
      r, next := GroupTicket(rand, at, hotNumbers, Join(positionPreferences), Take(MostCommon(powerballs), 5));
    }

    /** `generate_contrarian_ultimate`: 4-5 cold numbers, then the 20 least
        frequent, then uniform picks; one of the ten least common
        powerballs. */
    method GenerateContrarian(rand: Stream, at: nat) returns (r: Result<Ticket>, next: nat)
      requires Valid()
      ensures r.Ok? ==> ValidTicket(r.value) && Overlap(r.value.whites, coldNumbers) >= 4
      ensures r.Ok? ==> r.value.powerball in Last(MostCommon(powerballs), 10)
      ensures |coldNumbers| < 4 ==> r == Err(SampleLargerThanPopulation)
      ensures |coldNumbers| >= 5 && draws != [] ==> r.Ok?
      ensures r.Err? ==> r.error == SampleLargerThanPopulation || (r.error == EmptySequence && draws == [])
    {
      PowerballsPresent();
      PoolsInRange(powerballs, 10, PowerMax);
      PoolsInRange(whiteBalls, 20, WhiteMax);
      ClassifiedBounds(whiteBalls, WhiteMax, 2.0, whiteRoot, hotNumbers, coldNumbers);
      r, next := GroupTicket(rand, at, coldNumbers, Last(MostCommon(whiteBalls), 20), Last(MostCommon(powerballs), 10));
    }

    /** The whites of `generate_balanced_ultimate` with the fill taken from
        the learned numbers without repeats: min(2, #hot) hot numbers,
        min(2, #cold) cold numbers, then the fill and the uniform picks. */
    method BalancedWhites(rand: Stream, at: nat) returns (r: seq<int>, next: nat)
      requires Valid()
      ensures |r| == BallsPerDraw && StrictlyAscending(r) && InRange(r, 1, WhiteMax)
      ensures Overlap(r, hotNumbers) >= if |hotNumbers| < 2 then |hotNumbers| else 2
      ensures Overlap(r, coldNumbers) >= if |coldNumbers| < 2 then |coldNumbers| else 2
    {
      JoinedInRange();
      ClassifiedBounds(whiteBalls, WhiteMax, 2.0, whiteRoot, hotNumbers, coldNumbers);
      var hotCount := if |hotNumbers| < 2 then |hotNumbers| else 2;
      var hotSelected := SampleOf(rand, at, hotNumbers, hotCount);
      var coldCount := if |coldNumbers| < 2 then |coldNumbers| else 2;
      var coldSelected := SampleOf(rand, at + hotCount, coldNumbers, coldCount);
      ConcatDistinct(hotSelected.value, coldSelected.value);
      var white := hotSelected.value + coldSelected.value;
      forall i | 0 <= i < |white| ensures 1 <= white[i] <= WhiteMax {
        assert white[i] in hotSelected.value || white[i] in coldSelected.value;
      }
      var whites;
      whites, next := TopUp(rand, at + hotCount + coldCount, white, Keys(Join(positionPreferences)));
      FillKeeps(whites, white);
      OverlapAtLeast(whites, hotSelected.value, hotNumbers);
      OverlapAtLeast(whites, coldSelected.value, coldNumbers);
      SortedTicket(whites, 1);
      r := SortAsc(whites);
    }

    /** `generate_balanced_ultimate` with the corrected fill, and the 60/40
        powerball. */
    method GenerateBalanced(rand: Stream, at: nat) returns (r: Result<Ticket>, coin: nat, next: nat)
      requires Valid()
      ensures r.Ok? <==> powerballs != []
      ensures r.Err? ==> r.error == EmptySequence
      ensures r.Ok? ==> ValidTicket(r.value)
      ensures r.Ok? ==> Overlap(r.value.whites, hotNumbers) >= if |hotNumbers| < 2 then |hotNumbers| else 2
      ensures r.Ok? ==> Overlap(r.value.whites, coldNumbers) >= if |coldNumbers| < 2 then |coldNumbers| else 2
      ensures next == coin + 2
      ensures r.Ok? ==> r.value.powerball in powerballs
      ensures r.Ok? && Chance(rand, coin, 60) ==> r.value.powerball in Take(MostCommon(powerballs), 10)
      ensures r.Ok? && !Chance(rand, coin, 60) ==> r.value.powerball in Last(MostCommon(powerballs), 10)
    {
      var whites;
      whites, coin := BalancedWhites(rand, at);
      r := SplitPowerballTicket(rand, coin, whites, powerballs);
      next := coin + 2;
    }
  }
}
