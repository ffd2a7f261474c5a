/** smart_lottery_generator.py: `SmartLotteryGenerator`. It classifies the
    white balls only (hot above z = 2, cold below -2), and every strategy
    draws its powerball uniformly with `random.randint(1, 26)`. The random
    strategy is `Strategies.RandomTicket`. */
module Smart {
  import opened Base
  import opened Sorting
  import opened Tally
  import opened HotCold
  import opened Sampler
  import opened Strategies

  /** `random.randint(lo, hi)` numbers of `group`, then `random.sample` of
      the rest from the white balls not yet chosen, sorted: the white balls
      of `generate_hot_strategy` and `generate_cold_strategy`. The first
      sample fails when the group is shorter than the count drawn. */
  method GroupThenFill(rand: Stream, at: nat, group: seq<int>, lo: nat, hi: nat)
    returns (r: Result<seq<int>>, next: nat)
    requires lo <= hi <= BallsPerDraw
    requires Distinct(group) && InRange(group, 1, WhiteMax)
    ensures r.Ok? ==> |r.value| == BallsPerDraw && StrictlyAscending(r.value) && InRange(r.value, 1, WhiteMax)
    ensures r.Ok? ==> Overlap(r.value, group) >= lo
    ensures r.Err? ==> r.error == SampleLargerThanPopulation
    ensures |group| < lo ==> r.Err?
    ensures |group| >= hi ==> r.Ok?
  {
    var selected;
    selected, next := SampleSome(rand, at, group, lo, hi);
    if selected.Err? {
      return Err(SampleLargerThanPopulation), next;
    }
    var white := selected.value;
    assert forall x :: x in white ==> 1 <= x <= WhiteMax;
    var whites;
    whites, next := NeutralFill(rand, next, white, []);
    FillKeeps(whites.value, white);
    OverlapAtLeast(whites.value, white, group);
    SortedTicket(whites.value, 1);
    r := Ok(SortAsc(whites.value));
  }

  /** `if group: random.sample(group, min(2, len(group)))`: nothing is
      drawn from an empty group. */
  method SampleUpToTwo(rand: Stream, at: nat, group: seq<int>) returns (picked: seq<int>, next: nat)
    requires Distinct(group)
    ensures |picked| == if |group| < 2 then |group| else 2
    ensures Distinct(picked) && forall x :: x in picked ==> x in group
    ensures next == at + |picked|
  {
    picked, next := [], at;
    if group != [] {
      var count := if |group| < 2 then |group| else 2;
      var sample := SampleOf(rand, at, group, count);
      picked, next := sample.value, at + count;
    }
  }

  class SmartGenerator {
    /** Stand-in for `np.sqrt` of the expected white count. */
    const whiteRoot: real
    var whiteBalls: seq<int>
    var powerballs: seq<int>
    var hotNumbers: seq<int>
    var coldNumbers: seq<int>

    ghost predicate Valid()
      reads this
    {
      InRange(whiteBalls, 1, WhiteMax) && InRange(powerballs, 1, PowerMax)
      && Classified(whiteBalls, WhiteMax, 2.0, whiteRoot, hotNumbers, coldNumbers)
    }

    /** `__init__`: `load_data` (the history is the parsed file), then `analyze_patterns`. */
    constructor(draws: seq<Draw>, whiteRoot: real)
      requires ValidHistory(draws) && Ready(Flatten(draws), WhiteMax, whiteRoot)
      ensures Valid() && whiteBalls == Flatten(draws) && powerballs == Powerballs(draws)
    {
      this.whiteRoot := whiteRoot;
      whiteBalls := Flatten(draws);
      powerballs := Powerballs(draws);
      hotNumbers, coldNumbers := [], [];
      new;
      FlattenInRange(draws);
      AnalyzePatterns();
    }

    /** `analyze_patterns`: hot above z = 2, cold below -2, each list
        ordered by z-score (hottest first, coldest first). */
    method AnalyzePatterns()
      requires InRange(whiteBalls, 1, WhiteMax) && InRange(powerballs, 1, PowerMax)
      requires Ready(whiteBalls, WhiteMax, whiteRoot)
      modifies this
      ensures whiteBalls == old(whiteBalls) && powerballs == old(powerballs)
      ensures Valid()
    {
      hotNumbers, coldNumbers := Classify(whiteBalls, WhiteMax, 2.0, whiteRoot);
    }

    /** `generate_hot_strategy`: 3-4 hot numbers (`random.sample` fails on
        fewer), the rest from the unused white balls, and a uniform
        powerball. */
    method GenerateHot(rand: Stream, at: nat) returns (r: Result<Ticket>, next: nat)
      requires Valid()
      ensures r.Ok? ==> ValidTicket(r.value) && Overlap(r.value.whites, hotNumbers) >= 3
      ensures r.Ok? ==> next >= 1 && r.value.powerball == RandInt(rand, next - 1, 1, PowerMax)
      ensures r.Err? ==> r.error == SampleLargerThanPopulation
      ensures |hotNumbers| < 3 ==> r.Err?
      ensures |hotNumbers| >= 4 ==> r.Ok?
    {
      ClassifiedBounds(whiteBalls, WhiteMax, 2.0, whiteRoot, hotNumbers, coldNumbers);
      var whites;
      whites, next := GroupThenFill(rand, at, hotNumbers, 3, 4);
      if whites.Err? {
        return Err(SampleLargerThanPopulation), next;
      }
      var powerball := RandInt(rand, next, 1, PowerMax);
      next := next + 1;
      r := Ok(Ticket(whites.value, powerball));
    }

    /** `generate_cold_strategy`: the same with 3-4 cold numbers. */
    method GenerateCold(rand: Stream, at: nat) returns (r: Result<Ticket>, next: nat)
      requires Valid()
      ensures r.Ok? ==> ValidTicket(r.value) && Overlap(r.value.whites, coldNumbers) >= 3
      ensures r.Ok? ==> next >= 1 && r.value.powerball == RandInt(rand, next - 1, 1, PowerMax)
      ensures r.Err? ==> r.error == SampleLargerThanPopulation
      ensures |coldNumbers| < 3 ==> r.Err?
      ensures |coldNumbers| >= 4 ==> r.Ok?
    {
      ClassifiedBounds(whiteBalls, WhiteMax, 2.0, whiteRoot, hotNumbers, coldNumbers);
      var whites;
      whites, next := GroupThenFill(rand, at, coldNumbers, 3, 4);
      if whites.Err? {
        return Err(SampleLargerThanPopulation), next;
      }
      var powerball := RandInt(rand, next, 1, PowerMax);
      next := next + 1;
      r := Ok(Ticket(whites.value, powerball));
    }

    /** The white balls of `generate_balanced_strategy`: min(2, #hot) hot
        numbers when there are any, min(2, #cold) cold numbers when there
        are any, the rest from the unused white balls. It cannot fail: at
        most four numbers are taken before the fill. */
    method BalancedWhites(rand: Stream, at: nat) returns (r: seq<int>, next: nat)
      requires Valid()
      ensures |r| == BallsPerDraw && StrictlyAscending(r) && InRange(r, 1, WhiteMax)
      ensures Overlap(r, hotNumbers) >= if |hotNumbers| < 2 then |hotNumbers| else 2
      ensures Overlap(r, coldNumbers) >= if |coldNumbers| < 2 then |coldNumbers| else 2
    {
      ClassifiedBounds(whiteBalls, WhiteMax, 2.0, whiteRoot, hotNumbers, coldNumbers);
      var hotSelected: seq<int>, coldSelected: seq<int>;
      hotSelected, next := SampleUpToTwo(rand, at, hotNumbers);
      coldSelected, next := SampleUpToTwo(rand, next, coldNumbers);
      ConcatDistinct(hotSelected, coldSelected);
      var white := hotSelected + coldSelected;
      assert forall x :: x in white ==> 1 <= x <= WhiteMax;
      var whites;
      whites, next := NeutralFill(rand, next, white, []);
      FillKeeps(whites.value, white);
      OverlapAtLeast(whites.value, hotSelected, hotNumbers);
      OverlapAtLeast(whites.value, coldSelected, coldNumbers);
      SortedTicket(whites.value, 1);
      r := SortAsc(whites.value);
    }

    /** `generate_balanced_strategy`: the whites above and a uniform powerball. */
    method GenerateBalanced(rand: Stream, at: nat) returns (t: Ticket, next: nat)
      requires Valid()
      ensures ValidTicket(t)
      ensures Overlap(t.whites, hotNumbers) >= if |hotNumbers| < 2 then |hotNumbers| else 2
      ensures Overlap(t.whites, coldNumbers) >= if |coldNumbers| < 2 then |coldNumbers| else 2
      ensures next >= 1 && t.powerball == RandInt(rand, next - 1, 1, PowerMax)
    {
      var whites;
      whites, next := BalancedWhites(rand, at);
      var powerball := RandInt(rand, next, 1, PowerMax);
      next := next + 1;
      t := Ticket(whites, powerball);
    }

    /** `generate_position_strategy`: one number per row of the position
        table, hot with probability 70% where the row holds hot numbers,
        the repair of repeats (which keeps every distinct pick), and a
        uniform powerball. `picks` are the numbers taken from the table. */
    method GeneratePosition(rand: Stream, at: nat) returns (t: Ticket, next: nat, ghost picks: seq<int>)
      requires Valid()
      ensures ValidTicket(t)
      ensures |picks| == BallsPerDraw && forall p :: 0 <= p < BallsPerDraw ==> picks[p] in PatternTable[p]
      ensures forall x :: x in picks ==> x in t.whites
      ensures Distinct(picks) ==> t.whites == SortAsc(picks)
      ensures next >= 1 && t.powerball == RandInt(rand, next - 1, 1, PowerMax)
    {
      TablesWellFormed();
      var whites;
      whites, next, picks := PositionWhites(rand, at, PatternTable, hotNumbers, 70);
      var powerball := RandInt(rand, next, 1, PowerMax);
      next := next + 1;
      t := Ticket(whites.value, powerball);
    }
  }
}
