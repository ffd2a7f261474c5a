/** intelligent_lottery_generator.py: `IntelligentLotteryGenerator`, its
    pattern analysis and its five strategies. */
module Intelligent {
  import opened Base
  import opened Sorting
  import opened Tally
  import opened HotCold
  import opened Sampler
  import opened Strategies

  /** The fallback list of the contrarian powerball as written: it leaves
      out the hot powerballs and the cold WHITE numbers. */
  function ContrarianFallbackAsWritten(hotPowerballs: seq<int>, coldNumbers: seq<int>): (r: seq<int>)
    ensures forall x :: x in r <==> 1 <= x <= PowerMax && x !in hotPowerballs && x !in coldNumbers
  {
    Without(Interval(1, PowerMax), hotPowerballs + coldNumbers)
  }

  /** The contrarian powerball as written: a cold powerball with
      probability 70%, otherwise a choice from the fallback list above. */
  function ContrarianPowerballAsWritten(rand: Stream, at: nat, hotPowerballs: seq<int>,
                                        coldPowerballs: seq<int>, coldNumbers: seq<int>): (r: Result<int>)
    ensures r.Ok? ==> r.value in coldPowerballs || r.value in ContrarianFallbackAsWritten(hotPowerballs, coldNumbers)
  {
    BiasedChoice(rand, at, coldPowerballs, 70, ContrarianFallbackAsWritten(hotPowerballs, coldNumbers))
  }

  /** Every cold powerball that is not also a cold white number is on the
      "neutral" fallback list as written. */
  lemma ContrarianFallbackAdmitsCold(hotPowerballs: seq<int>, coldPowerballs: seq<int>, coldNumbers: seq<int>, x: int)
    requires x in coldPowerballs && x !in hotPowerballs && x !in coldNumbers && 1 <= x <= PowerMax
    ensures x in ContrarianFallbackAsWritten(hotPowerballs, coldNumbers)
  {
  }

  /** With cold powerball 7, no hot powerball and no cold white number, a
      run where the 70% draw fails (99) and the fallback index is 6 still
      returns the cold powerball 7. */
  lemma ContrarianColdWithoutChance(rand: Stream, hotPowerballs: seq<int>, coldPowerballs: seq<int>, coldNumbers: seq<int>)
    requires rand(0) == 99 && rand(1) == 6
    requires hotPowerballs == [] && coldPowerballs == [7] && coldNumbers == []
    ensures !Chance(rand, 0, 70)
    ensures 7 in coldPowerballs
    ensures ContrarianPowerballAsWritten(rand, 0, hotPowerballs, coldPowerballs, coldNumbers) == Ok(7)
  {
    assert hotPowerballs + coldNumbers == [];
    WithoutNothing(Interval(1, PowerMax));
  }

  /** The contrarian powerball with the fallback the comment describes:
      neither hot nor cold. A cold powerball comes only from the 70% branch. */
  function ContrarianPowerball(rand: Stream, at: nat, hotPowerballs: seq<int>, coldPowerballs: seq<int>): (r: Result<int>)
    ensures r.Ok? ==> r.value !in hotPowerballs || r.value in coldPowerballs
    ensures r.Ok? && r.value in coldPowerballs ==> Chance(rand, at, 70)
    ensures r.Ok? && !(coldPowerballs != [] && Chance(rand, at, 70)) ==>
              r.value in Neutral(PowerMax, hotPowerballs, coldPowerballs)
    ensures Neutral(PowerMax, hotPowerballs, coldPowerballs) != [] ==> r.Ok?
  {
    BiasedChoice(rand, at, coldPowerballs, 70, Neutral(PowerMax, hotPowerballs, coldPowerballs))
  }

  /** A pool holding each of `a` wa times and each other member of `b` wb
      times holds exactly the members of `a` and `b`. */
  lemma WeightedPoolMembers(pool: seq<int>, a: seq<int>, b: seq<int>, wa: nat, wb: nat)
    requires wa > 0 && wb > 0
    requires forall x :: multiset(pool)[x] == if x in a then wa else if x in b then wb else 0
    ensures forall x :: x in pool <==> x in a || x in b
    ensures pool == [] <==> a == [] && b == []
  {
    forall x ensures x in pool <==> x in a || x in b {
      assert x in pool <==> x in multiset(pool);
    }
    if a != [] {
      assert a[0] in pool;
    } else if b != [] {
      assert b[0] in pool;
    }
    if pool != [] {
      assert pool[0] in pool;
    }
  }

  class IntelligentGenerator {
    /** Stand-ins for `np.sqrt` of the expected white and powerball counts. */
    const whiteRoot: real
    const pbRoot: real
    var whiteBalls: seq<int>
    var powerballs: seq<int>
    var hotNumbers: seq<int>
    var coldNumbers: seq<int>
    var hotPowerballs: seq<int>
    var coldPowerballs: seq<int>

    /** The state `__init__` leaves: the tallied balls and their classification. */
    ghost predicate Valid()
      reads this
    {
      InRange(whiteBalls, 1, WhiteMax) && InRange(powerballs, 1, PowerMax)
      && Classified(whiteBalls, WhiteMax, 2.0, whiteRoot, hotNumbers, coldNumbers)
      && Classified(powerballs, PowerMax, 1.5, pbRoot, hotPowerballs, coldPowerballs)
    }

    /** `__init__`: `load_data` (the history is the parsed file), then `analyze_patterns`. */
    constructor(draws: seq<Draw>, whiteRoot: real, pbRoot: real)
      requires ValidHistory(draws)
      requires Ready(Flatten(draws), WhiteMax, whiteRoot) && Ready(Powerballs(draws), PowerMax, pbRoot)
      ensures Valid() && whiteBalls == Flatten(draws) && powerballs == Powerballs(draws)
    {
      this.whiteRoot := whiteRoot;
      this.pbRoot := pbRoot;
      whiteBalls := Flatten(draws);
      powerballs := Powerballs(draws);
      hotNumbers, coldNumbers, hotPowerballs, coldPowerballs := [], [], [], [];
      new;
      FlattenInRange(draws);
      AnalyzePatterns();
    }

    /** `analyze_patterns`: white balls are hot above z = 2 and cold below
        -2, powerballs hot above 1.5 and cold below -1.5. */
    method AnalyzePatterns()
      requires InRange(whiteBalls, 1, WhiteMax) && InRange(powerballs, 1, PowerMax)
      requires Ready(whiteBalls, WhiteMax, whiteRoot) && Ready(powerballs, PowerMax, pbRoot)
      modifies this
      ensures whiteBalls == old(whiteBalls) && powerballs == old(powerballs)
      ensures Valid()
    {
      hotNumbers, coldNumbers := Classify(whiteBalls, WhiteMax, 2.0, whiteRoot);
      hotPowerballs, coldPowerballs := Classify(powerballs, PowerMax, 1.5, pbRoot);
    }

    /** The white selection pool of `generate_conservative_numbers`: each
        hot number 70 times, each cold number once, each neutral number 4
        times, so every white ball is in it. */
    method ConservativePool() returns (pool: seq<int>)
      requires Valid()
      ensures forall x :: multiset(pool)[x] ==
                          if x in hotNumbers then 70 else if x in coldNumbers then 1 else if 1 <= x <= WhiteMax then 4 else 0
    {
      ClassifiedBounds(whiteBalls, WhiteMax, 2.0, whiteRoot, hotNumbers, coldNumbers);
      var neutral := Neutral(WhiteMax, hotNumbers, coldNumbers);
      pool := ExtendEach([], hotNumbers, 70);
      pool := ExtendEach(pool, coldNumbers, 1);
      pool := ExtendEach(pool, neutral, 4);
      forall x ensures multiset(pool)[x] ==
        if x in hotNumbers then 70 else if x in coldNumbers then 1 else if 1 <= x <= WhiteMax then 4 else 0
      {
        DistinctCount(hotNumbers, x);
        DistinctCount(coldNumbers, x);
        DistinctCount(neutral, x);
      }
    }

    /** The powerball pool: each hot powerball 40 times and each neutral
        one 10 times; cold powerballs are not in it. */
    method ConservativePowerballPool() returns (pool: seq<int>)
      requires Valid()
      ensures forall x :: multiset(pool)[x] ==
                          if x in hotPowerballs then 40 else if x in Neutral(PowerMax, hotPowerballs, coldPowerballs) then 10 else 0
    {
      var neutral := Neutral(PowerMax, hotPowerballs, coldPowerballs);
      pool := ExtendEach([], hotPowerballs, 40);
      pool := ExtendEach(pool, neutral, 10);
      forall x ensures multiset(pool)[x] ==
        if x in hotPowerballs then 40 else if x in neutral then 10 else 0
      {
        DistinctCount(hotPowerballs, x);
        DistinctCount(neutral, x);
      }
    }

    /** `random.choice` over the conservative powerball pool. */
    method ConservativePowerball(rand: Stream, at: nat) returns (r: Result<int>)
      requires Valid()
      ensures r.Ok? ==> r.value in hotPowerballs || r.value in Neutral(PowerMax, hotPowerballs, coldPowerballs)
      ensures r.Err? <==> hotPowerballs == [] && Neutral(PowerMax, hotPowerballs, coldPowerballs) == []
      ensures r.Err? ==> r.error == EmptySequence
    {
      var pool := ConservativePowerballPool();
      WeightedPoolMembers(pool, hotPowerballs, Neutral(PowerMax, hotPowerballs, coldPowerballs), 40, 10);
      r := Choice(rand, at, pool);
    }

    /** `generate_conservative_numbers`: five distinct values from the
        weighted pool by the rejection loop, then a powerball that is hot
        or neutral. */
    method GenerateConservative(rand: Stream, at: nat, fuel: nat) returns (r: Result<Ticket>, next: nat)
      requires Valid()
      ensures r.Ok? ==> ValidTicket(r.value)
      ensures r.Ok? ==> r.value.powerball in hotPowerballs || r.value.powerball in Neutral(PowerMax, hotPowerballs, coldPowerballs)
      ensures r.Ok? ==> r.value.powerball !in coldPowerballs
      ensures r.Err? ==> r.error == OutOfChoices
                         || (r.error == EmptySequence && hotPowerballs == [] && Neutral(PowerMax, hotPowerballs, coldPowerballs) == [])
    {
      ClassifiedBounds(powerballs, PowerMax, 1.5, pbRoot, hotPowerballs, coldPowerballs);
      ClassifiedBounds(whiteBalls, WhiteMax, 2.0, whiteRoot, hotNumbers, coldNumbers);
      var pool := ConservativePool();
      assert 1 in multiset(pool);
      var white, used;
      white, used := RejectionFill(rand, at, pool, fuel);
      next := at + used;
      if white.Err? {
        return Err(white.error), next;
      }
      forall x | x in white.value ensures 1 <= x <= WhiteMax {
        assert x in multiset(pool);
      }
      var powerball := ConservativePowerball(rand, next);
      next := next + 1;
      if powerball.Err? {
        return Err(EmptySequence), next;
      }
      SortedTicket(white.value, powerball.value);
      r := Ok(Ticket(SortAsc(white.value), powerball.value));
    }

    /** The white balls of `generate_balanced_numbers`: 2-3 hot numbers,
        1-2 cold numbers, the rest from the numbers neither chosen nor hot
        nor cold, sorted. `random.sample` fails when a list is shorter than
        the count asked of it. */
    method BalancedWhites(rand: Stream, at: nat) returns (r: Result<seq<int>>, next: nat)
      requires Valid()
      ensures r.Ok? ==> |r.value| == BallsPerDraw && StrictlyAscending(r.value) && InRange(r.value, 1, WhiteMax)
      ensures r.Ok? ==> 2 <= Overlap(r.value, hotNumbers) <= 3 && 1 <= Overlap(r.value, coldNumbers) <= 2
      ensures r.Err? ==> r.error == SampleLargerThanPopulation
      ensures |hotNumbers| < 2 || coldNumbers == [] ==> r.Err?
      ensures |hotNumbers| >= 3 && |coldNumbers| >= 2 && |hotNumbers| + |coldNumbers| <= 64 ==> r.Ok?
    {
      ClassifiedBounds(whiteBalls, WhiteMax, 2.0, whiteRoot, hotNumbers, coldNumbers);
      var hotSelected, coldSelected;
      hotSelected, next := SampleSome(rand, at, hotNumbers, 2, 3);
      if hotSelected.Err? {
        return Err(SampleLargerThanPopulation), next;
      }
      coldSelected, next := SampleSome(rand, next, coldNumbers, 1, 2);
      if coldSelected.Err? {
        return Err(SampleLargerThanPopulation), next;
      }
      ConcatDistinct(hotSelected.value, coldSelected.value);
      var white := hotSelected.value + coldSelected.value;
      assert forall x :: x in white ==> 1 <= x <= WhiteMax;
      var whites;
      whites, next := NeutralFill(rand, next, white, hotNumbers + coldNumbers);
      if whites.Err? {
        return Err(SampleLargerThanPopulation), next;
      }
      FillKeeps(whites.value, white);
      BalancedOverlap(whites.value, hotSelected.value, coldSelected.value);
      SortedTicket(whites.value, 1);
      r := Ok(SortAsc(whites.value));
    }

    /** `generate_balanced_numbers`: the whites above; the powerball is hot
        with probability 60% when there are hot powerballs, otherwise
        neither hot nor cold; `random.choice` fails on an empty list. */
    method GenerateBalanced(rand: Stream, at: nat) returns (r: Result<Ticket>, next: nat)
      requires Valid()
      ensures r.Ok? ==> ValidTicket(r.value)
      ensures r.Ok? ==> 2 <= Overlap(r.value.whites, hotNumbers) <= 3 && 1 <= Overlap(r.value.whites, coldNumbers) <= 2
      ensures r.Ok? ==> r.value.powerball !in coldPowerballs
      ensures r.Ok? ==> r.value.powerball in hotPowerballs || r.value.powerball in Neutral(PowerMax, hotPowerballs, coldPowerballs)
      ensures |hotNumbers| < 2 || coldNumbers == [] ==> r == Err(SampleLargerThanPopulation)
      ensures r.Err? ==> r.error == SampleLargerThanPopulation || r.error == EmptySequence
      ensures (|hotNumbers| >= 3 && |coldNumbers| >= 2 && |hotNumbers| + |coldNumbers| <= 64
               && Neutral(PowerMax, hotPowerballs, coldPowerballs) != []) ==> r.Ok?
    {
      var whites;
      whites, next := BalancedWhites(rand, at);
      if whites.Err? {
        return Err(SampleLargerThanPopulation), next;
      }
      var powerball := BiasedChoice(rand, next, hotPowerballs, 60, Neutral(PowerMax, hotPowerballs, coldPowerballs));
      next := next + BiasedUses(hotPowerballs);
      if powerball.Err? {
        return Err(EmptySequence), next;
      }
      ClassifiedBounds(powerballs, PowerMax, 1.5, pbRoot, hotPowerballs, coldPowerballs);
      r := Ok(Ticket(whites.value, powerball.value));
    }

    /** Of the balanced whites, exactly the hot picks are hot and the cold
        picks cold. */
    lemma BalancedOverlap(whites: seq<int>, hotSelected: seq<int>, coldSelected: seq<int>)
      requires Valid()
      requires Distinct(hotSelected) && Distinct(coldSelected)
      requires forall x :: x in hotSelected ==> x in hotNumbers
      requires forall x :: x in coldSelected ==> x in coldNumbers
      requires |hotSelected + coldSelected| <= |whites| && whites[..|hotSelected + coldSelected|] == hotSelected + coldSelected
      requires forall x :: x in whites ==> x in hotSelected + coldSelected || (x !in hotNumbers && x !in coldNumbers)
      ensures Overlap(SortAsc(whites), hotNumbers) == |hotSelected|
      ensures Overlap(SortAsc(whites), coldNumbers) == |coldSelected|
    {
      ClassifiedBounds(whiteBalls, WhiteMax, 2.0, whiteRoot, hotNumbers, coldNumbers);
      var white := hotSelected + coldSelected;
      forall x | x in white ensures x in whites {
        assert x in whites[..|white|];
      }
      OverlapOfPart(whites, hotSelected, hotNumbers);
      OverlapOfPart(whites, coldSelected, coldNumbers);
    }

    /** The white balls of `generate_contrarian_numbers`: 3-4 cold
        numbers, then numbers neither chosen nor hot nor cold, sorted. */
    method ContrarianWhites(rand: Stream, at: nat) returns (r: Result<seq<int>>, next: nat)
      requires Valid()
      ensures r.Ok? ==> |r.value| == BallsPerDraw && StrictlyAscending(r.value) && InRange(r.value, 1, WhiteMax)
      ensures r.Ok? ==> 3 <= Overlap(r.value, coldNumbers) <= 4 && Overlap(r.value, hotNumbers) == 0
      ensures r.Err? ==> r.error == SampleLargerThanPopulation
      ensures |coldNumbers| < 3 ==> r.Err?
      ensures |coldNumbers| >= 4 && |hotNumbers| + |coldNumbers| <= 64 ==> r.Ok?
    {
      ClassifiedBounds(whiteBalls, WhiteMax, 2.0, whiteRoot, hotNumbers, coldNumbers);
      var coldSelected;
      coldSelected, next := SampleSome(rand, at, coldNumbers, 3, 4);
      if coldSelected.Err? {
        return Err(SampleLargerThanPopulation), next;
      }
      var whites;
      whites, next := NeutralFill(rand, next, coldSelected.value, hotNumbers + coldNumbers);
      if whites.Err? {
        return Err(SampleLargerThanPopulation), next;
      }
      ContrarianOverlap(whites.value, coldSelected.value);
      SortedTicket(whites.value, 1);
      r := Ok(SortAsc(whites.value));
    }

    /** `generate_contrarian_numbers`: the whites above and the powerball
        of `ContrarianPowerball`. */
    method GenerateContrarian(rand: Stream, at: nat) returns (r: Result<Ticket>, coin: nat, next: nat)
      requires Valid()
      ensures r.Ok? ==> ValidTicket(r.value)
      ensures r.Ok? ==> 3 <= Overlap(r.value.whites, coldNumbers) <= 4 && Overlap(r.value.whites, hotNumbers) == 0
      ensures r.Ok? ==> next == coin + BiasedUses(coldPowerballs)
                        && ContrarianPowerball(rand, coin, hotPowerballs, coldPowerballs) == Ok(r.value.powerball)
      ensures r.Ok? ==> r.value.powerball !in hotPowerballs
      ensures |coldNumbers| < 3 ==> r == Err(SampleLargerThanPopulation)
      ensures r.Err? ==> r.error == SampleLargerThanPopulation || r.error == EmptySequence
      ensures (|coldNumbers| >= 4 && |hotNumbers| + |coldNumbers| <= 64
               && Neutral(PowerMax, hotPowerballs, coldPowerballs) != []) ==> r.Ok?
    {
      var whites;
      whites, coin := ContrarianWhites(rand, at);
      if whites.Err? {
        return Err(SampleLargerThanPopulation), coin, coin;
      }
      var powerball := ContrarianPowerball(rand, coin, hotPowerballs, coldPowerballs);
      next := coin + BiasedUses(coldPowerballs);
      if powerball.Err? {
        return Err(EmptySequence), coin, next;
      }
      ClassifiedBounds(powerballs, PowerMax, 1.5, pbRoot, hotPowerballs, coldPowerballs);
      r := Ok(Ticket(whites.value, powerball.value));
    }

    lemma ContrarianOverlap(whites: seq<int>, coldSelected: seq<int>)
      requires Valid()
      requires Distinct(coldSelected) && forall x :: x in coldSelected ==> x in coldNumbers
      requires |coldSelected| <= |whites| && whites[..|coldSelected|] == coldSelected
      requires forall x :: x in whites ==> x in coldSelected || x !in hotNumbers + coldNumbers
      ensures Overlap(SortAsc(whites), coldNumbers) == |coldSelected|
      ensures Overlap(SortAsc(whites), hotNumbers) == 0
    {
      ClassifiedBounds(whiteBalls, WhiteMax, 2.0, whiteRoot, hotNumbers, coldNumbers);
      forall x | x in coldSelected ensures x in whites {
        assert x in whites[..|coldSelected|];
      }
      OverlapOfPart(whites, coldSelected, coldNumbers);
      OverlapOfPart(whites, [], hotNumbers);
    }

    /** `generate_pattern_based_numbers`: one number per row of the
        position table, hot with probability 70% where the row holds hot
        numbers, the repair of repeated numbers, and a powerball among the
        ten most frequent. `picks` are the numbers taken from the table. */
    method GeneratePatternBased(rand: Stream, at: nat) returns (r: Result<Ticket>, next: nat, ghost picks: seq<int>)
      requires Valid()
      ensures r.Ok? <==> powerballs != []
      ensures r.Err? ==> r.error == EmptySequence
      ensures r.Ok? ==> ValidTicket(r.value)
      ensures r.Ok? ==> |picks| == BallsPerDraw && forall p :: 0 <= p < BallsPerDraw ==> picks[p] in PatternTable[p]
      ensures r.Ok? ==> forall x :: x in picks ==> x in r.value.whites
      ensures r.Ok? && Distinct(picks) ==> r.value.whites == SortAsc(picks)
      ensures r.Ok? ==> r.value.powerball in Take(MostCommon(powerballs), 10)
    {
      TablesWellFormed();
      var whites;
      whites, next, picks := PositionWhites(rand, at, PatternTable, hotNumbers, 70);
      var powerball := Choice(rand, next, Take(MostCommon(powerballs), 10));
      next := next + 1;
      if powerballs != [] {
        assert powerballs[0] in MostCommon(powerballs);
      }
      if powerball.Err? {
        return Err(EmptySequence), next, picks;
      }
      assert powerball.value in powerballs;
      r := Ok(Ticket(whites.value, powerball.value));
    }
  }
}
