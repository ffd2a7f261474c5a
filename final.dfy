/** final_lottery_generator.py: `FinalLotteryGenerator`. It classifies the
    white balls only; its powerball choices use the powerball counts. The
    frequency-weighted and random strategies are `Strategies.FrequencyWeightedTicket`
    and `Strategies.RandomTicket`. */
module Final {
  import opened Base
  import opened Sorting
  import opened Tally
  import opened HotCold
  import opened Sampler
  import opened Strategies

  class FinalGenerator {
    /** Stand-in for `np.sqrt` of the expected white count. */
    const whiteRoot: real
    var whiteBalls: seq<int>
    var powerballs: seq<int>
    var hotNumbers: seq<int>
    var coldNumbers: seq<int>

    ghost predicate Valid()
      reads this
    {
      InRange(whiteBalls, 1, WhiteMax) && InRange(powerballs, 1, PowerMax)
      && Classified(whiteBalls, WhiteMax, 2.0, whiteRoot, hotNumbers, coldNumbers)
    }

    /** `__init__`: `load_data`, then `analyze_all_patterns`. */
    constructor(draws: seq<Draw>, whiteRoot: real)
      requires ValidHistory(draws) && Ready(Flatten(draws), WhiteMax, whiteRoot)
      ensures Valid() && whiteBalls == Flatten(draws) && powerballs == Powerballs(draws)
    {
      this.whiteRoot := whiteRoot;
      whiteBalls := Flatten(draws);
      powerballs := Powerballs(draws);
      hotNumbers, coldNumbers := [], [];
      new;
      FlattenInRange(draws);
      AnalyzeAllPatterns();
    }

    /** `analyze_all_patterns`: hot above z = 2, cold below -2. */
    method AnalyzeAllPatterns()
      requires InRange(whiteBalls, 1, WhiteMax) && InRange(powerballs, 1, PowerMax)
      requires Ready(whiteBalls, WhiteMax, whiteRoot)
      modifies this
      ensures whiteBalls == old(whiteBalls) && powerballs == old(powerballs)
      ensures Valid()
    {
      hotNumbers, coldNumbers := Classify(whiteBalls, WhiteMax, 2.0, whiteRoot);
    }

    /** The numbers of `white_freq.most_common(20)` are white balls. */
    lemma FrequentInRange()
      requires Valid()
      ensures forall x :: x in Take(MostCommon(whiteBalls), 20) ==> 1 <= x <= WhiteMax
      ensures forall x :: x in Last(MostCommon(whiteBalls), 20) ==> 1 <= x <= WhiteMax
    {
      forall x | x in MostCommon(whiteBalls) ensures 1 <= x <= WhiteMax {
        assert x in whiteBalls;
      }
    }

    /** `generate_ultimate_hot_strategy`: min(4, #hot) hot numbers, then the
        20 most frequent, then uniform picks; one of the ten most common
        powerballs. */
    method GenerateUltimateHot(rand: Stream, at: nat) returns (r: Result<Ticket>, next: nat)
      requires Valid()
      ensures r.Ok? <==> powerballs != []
      ensures r.Err? ==> r.error == EmptySequence
      ensures r.Ok? ==> ValidTicket(r.value)
      ensures r.Ok? ==> Overlap(r.value.whites, hotNumbers) >= if |hotNumbers| < 4 then |hotNumbers| else 4
      ensures r.Ok? && |MostCommon(whiteBalls)| >= BallsPerDraw ==>
                forall x :: x in r.value.whites ==> x in hotNumbers || x in Take(MostCommon(whiteBalls), 20)
      ensures r.Ok? ==> r.value.powerball in Take(MostCommon(powerballs), 10)
    {
      ClassifiedBounds(whiteBalls, WhiteMax, 2.0, whiteRoot, hotNumbers, coldNumbers);
      FrequentInRange();
      var hotCount := if |hotNumbers| < 4 then |hotNumbers| else 4;
      var whites;
      whites, next := GroupThenTopUp(rand, at, hotNumbers, hotCount, Take(MostCommon(whiteBalls), 20));
      var powerball := Choice(rand, next, Take(MostCommon(powerballs), 10));
      next := next + 1;
      if powerballs != [] {
        assert powerballs[0] in MostCommon(powerballs);
      }
      if powerball.Err? {
        return Err(EmptySequence), next;
      }
      assert powerball.value in powerballs;
      r := Ok(Ticket(whites.value, powerball.value));
    }

    /** `generate_ultimate_cold_strategy`: min(4, #cold) cold numbers, then
        the 20 least frequent, then uniform picks; one of the ten least
        common powerballs. */
    method GenerateUltimateCold(rand: Stream, at: nat) returns (r: Result<Ticket>, next: nat)
      requires Valid()
      ensures r.Ok? <==> powerballs != []
      ensures r.Err? ==> r.error == EmptySequence
      ensures r.Ok? ==> ValidTicket(r.value)
      ensures r.Ok? ==> Overlap(r.value.whites, coldNumbers) >= if |coldNumbers| < 4 then |coldNumbers| else 4
      ensures r.Ok? && |MostCommon(whiteBalls)| >= BallsPerDraw ==>
                forall x :: x in r.value.whites ==> x in coldNumbers || x in Last(MostCommon(whiteBalls), 20)
      ensures r.Ok? ==> r.value.powerball in Last(MostCommon(powerballs), 10)
    {
      ClassifiedBounds(whiteBalls, WhiteMax, 2.0, whiteRoot, hotNumbers, coldNumbers);
      FrequentInRange();
      var coldCount := if |coldNumbers| < 4 then |coldNumbers| else 4;
      var whites;
      whites, next := GroupThenTopUp(rand, at, coldNumbers, coldCount, Last(MostCommon(whiteBalls), 20));
      var powerball := Choice(rand, next, Last(MostCommon(powerballs), 10));
      next := next + 1;
      if powerballs != [] {
        assert powerballs[0] in MostCommon(powerballs);
      }
      if powerball.Err? {
        return Err(EmptySequence), next;
      }
      assert powerball.value in powerballs;
      r := Ok(Ticket(whites.value, powerball.value));
    }

    /** The whites of `generate_ultimate_balanced_strategy`: two hot numbers
        if there are two (else all of them), the same for cold, and the rest
        from the unused white balls. */
    method BalancedWhites(rand: Stream, at: nat) returns (r: seq<int>, next: nat)
      requires Valid()
      ensures |r| == BallsPerDraw && StrictlyAscending(r) && InRange(r, 1, WhiteMax)
      ensures Overlap(r, hotNumbers) >= if |hotNumbers| < 2 then |hotNumbers| else 2
      ensures Overlap(r, coldNumbers) >= if |coldNumbers| < 2 then |coldNumbers| else 2
    {
      ClassifiedBounds(whiteBalls, WhiteMax, 2.0, whiteRoot, hotNumbers, coldNumbers);
      next := at;
      var hotSelected := hotNumbers;
      if |hotNumbers| >= 2 {
        var picked := SampleOf(rand, next, hotNumbers, 2);
        hotSelected := picked.value;
        next := next + 2;
      }
      var coldSelected := coldNumbers;
      if |coldNumbers| >= 2 {
        var picked := SampleOf(rand, next, coldNumbers, 2);
        coldSelected := picked.value;
        next := next + 2;
      }
      ConcatDistinct(hotSelected, coldSelected);
      var white := hotSelected + coldSelected;
      assert forall x :: x in white ==> 1 <= x <= WhiteMax;
      var whites;
      whites, next := NeutralFill(rand, next, white, []);
      FillKeeps(whites.value, white);
      OverlapAtLeast(whites.value, hotSelected, hotNumbers);
      OverlapAtLeast(whites.value, coldSelected, coldNumbers);
      SortedTicket(whites.value, 1);
      r := SortAsc(whites.value);
    }

    /** `generate_ultimate_balanced_strategy`: the whites above and the
        60/40 powerball. */
    method GenerateBalanced(rand: Stream, at: nat) returns (r: Result<Ticket>, coin: nat, next: nat)
      requires Valid()
      ensures r.Ok? <==> powerballs != []
      ensures r.Err? ==> r.error == EmptySequence
      ensures r.Ok? ==> ValidTicket(r.value)
      ensures r.Ok? ==> Overlap(r.value.whites, hotNumbers) >= if |hotNumbers| < 2 then |hotNumbers| else 2
      ensures r.Ok? ==> Overlap(r.value.whites, coldNumbers) >= if |coldNumbers| < 2 then |coldNumbers| else 2
      ensures next == coin + 2
      ensures r.Ok? ==> r.value.powerball in powerballs
      ensures r.Ok? && Chance(rand, coin, 60) ==> r.value.powerball in Take(MostCommon(powerballs), 10)
      ensures r.Ok? && !Chance(rand, coin, 60) ==> r.value.powerball in Last(MostCommon(powerballs), 10)
    {
      var whites;
      whites, coin := BalancedWhites(rand, at);
      r := SplitPowerballTicket(rand, coin, whites, powerballs);
      next := coin + 2;
    }

    /** `generate_position_based_strategy`: one number per row of the final
        position table, hot with probability 80%, the repair of repeats, and
        one of the ten most common powerballs. */
    method GeneratePositionBased(rand: Stream, at: nat) returns (r: Result<Ticket>, next: nat, ghost picks: seq<int>)
      requires Valid()
      ensures r.Ok? <==> powerballs != []
      ensures r.Err? ==> r.error == EmptySequence
      ensures r.Ok? ==> ValidTicket(r.value)
      ensures r.Ok? ==> |picks| == BallsPerDraw && forall p :: 0 <= p < BallsPerDraw ==> picks[p] in FinalPositionTable[p]
      ensures r.Ok? ==> forall x :: x in picks ==> x in r.value.whites
      ensures r.Ok? && Distinct(picks) ==> r.value.whites == SortAsc(picks)
      ensures r.Ok? ==> r.value.powerball in Take(MostCommon(powerballs), 10)
    {
      TablesWellFormed();
      var whites;
      whites, next, picks := PositionWhites(rand, at, FinalPositionTable, hotNumbers, 80);
      var powerball := Choice(rand, next, Take(MostCommon(powerballs), 10));
      next := next + 1;
      if powerballs != [] {
        assert powerballs[0] in MostCommon(powerballs);
      }
      if powerball.Err? {
        return Err(EmptySequence), next, picks;
      }
      assert powerball.value in powerballs;
      r := Ok(Ticket(whites.value, powerball.value));
    }
  }
}
