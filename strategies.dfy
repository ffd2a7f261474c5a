/** Steps that several generator classes share verbatim: the purely random
    ticket, the position-table strategy, the two-stage top-up of the
    "ultimate" strategies, the 60/40 powerball and the frequency-weighted
    ticket. */
module Strategies {
  import opened Base
  import opened Sorting
  import opened Tally
  import opened Sampler

  /** The position table of `generate_pattern_based_numbers` and of
      `generate_position_strategy` (smart generator). */
  const PatternTable: seq<seq<int>> :=
    [[1, 2, 3, 4, 5], [12, 21, 28, 16, 15], [37, 33, 35, 34, 32], [52, 53, 45, 47, 39], [69, 59, 58, 67, 68]]

  /** The position table of `generate_position_based_strategy` (final
      generator): the first row is ordered 1, 2, 3, 5, 4. */
  const FinalPositionTable: seq<seq<int>> :=
    [[1, 2, 3, 5, 4], [12, 21, 28, 16, 15], [37, 33, 35, 34, 32], [52, 53, 45, 47, 39], [69, 59, 58, 67, 68]]

  /** Both tables have five non-empty rows of white balls. */
  predicate WellFormedTable(table: seq<seq<int>>) {
    |table| == BallsPerDraw
    && (forall p :: 0 <= p < |table| ==> table[p] != [])
    && (forall p, x :: 0 <= p < |table| && x in table[p] ==> 1 <= x <= WhiteMax)
  }

  lemma TablesWellFormed()
    ensures WellFormedTable(PatternTable) && WellFormedTable(FinalPositionTable)
  {
  }

  /** `sorted(random.sample(range(1, 70), 5))` and `random.randint(1, 26)`. */
  method RandomTicket(rand: Stream, at: nat) returns (t: Ticket, next: nat)
    ensures ValidTicket(t)
    ensures next == at + 6
  {
    var whites := SampleOf(rand, at, Interval(1, WhiteMax), 5);
    var powerball := RandInt(rand, at + 5, 1, PowerMax);
    SortedTicket(whites.value, powerball);
    t := Ticket(SortAsc(whites.value), powerball);
    next := at + 6;
  }

  /** One number per position row (hot with probability `percent` where
      the row holds hot numbers), then the repair of repeated numbers and
      the sort. `picks` are the numbers taken from the rows. */
  method PositionWhites(rand: Stream, at: nat, prefs: seq<seq<int>>, hot: seq<int>, percent: nat)
    returns (r: Result<seq<int>>, next: nat, ghost picks: seq<int>)
    requires |prefs| == BallsPerDraw
    requires forall p, x :: 0 <= p < |prefs| && x in prefs[p] ==> 1 <= x <= WhiteMax
    ensures r.Ok? <==> forall p :: 0 <= p < BallsPerDraw ==> prefs[p] != []
    ensures r.Err? ==> r.error == EmptySequence
    ensures r.Ok? ==> |r.value| == BallsPerDraw && StrictlyAscending(r.value) && InRange(r.value, 1, WhiteMax)
    ensures r.Ok? ==> |picks| == BallsPerDraw && (forall p :: 0 <= p < BallsPerDraw ==> picks[p] in prefs[p])
    ensures r.Ok? ==> forall x :: x in picks ==> x in r.value
    ensures r.Ok? && percent >= 100 ==>
              forall p :: 0 <= p < BallsPerDraw && Within(prefs[p], hot) != [] ==> picks[p] in hot
    ensures r.Ok? && Distinct(picks) ==> r.value == SortAsc(picks)
  {
    var picked;
    picked, next := PositionPicks(rand, at, prefs, hot, percent);
    if picked.Err? {
      return Err(EmptySequence), next, [];
    }
    var white := picked.value;
    picks := white;
    var whites;
    whites, next := DedupRepair(rand, next, white);
    forall x | x in whites ensures 1 <= x <= WhiteMax {
      if x in white {
        var p :| 0 <= p < BallsPerDraw && white[p] == x;
        assert x in prefs[p];
      }
    }
    SortedTicket(whites, 1);
    r := Ok(SortAsc(whites));
  }

  /** The fill of the "ultimate" strategies: `random.sample` of up to
      `5 - len(white_balls)` candidates not yet chosen, then uniform picks
      from the unused white balls until there are five. */
  method TopUp(rand: Stream, at: nat, white: seq<int>, candidates: seq<int>) returns (r: seq<int>, next: nat)
    requires |white| <= BallsPerDraw && Distinct(white) && InRange(white, 1, WhiteMax)
    requires forall x :: x in candidates ==> 1 <= x <= WhiteMax
    ensures |r| == BallsPerDraw && r[..|white|] == white
    ensures forall x :: x in r ==> 1 <= x <= WhiteMax
    ensures forall x :: x in r && x !in white && x !in candidates ==> |Without(candidates, white)| < 5 - |white|
    ensures Distinct(candidates) || |white| >= BallsPerDraw - 1 ==> Distinct(r)
  {
    var remaining := 5 - |white|;
    var fill := FillFrom(rand, at, white, candidates, remaining);
    var k := |fill|;
    var partial := white + fill;
    if Distinct(candidates) || |fill| <= 1 {
      ConcatDistinct(white, fill);
    }
    assert partial[..|white|] == white;
    r, next := UniformFill(rand, at + k, partial);
    assert r[..|white|] == partial[..|white|];
    ExtendedInRange(partial, r);
    if |Without(candidates, white)| >= remaining {
      assert r == partial;
    }
  }

  /** Balls appended after a prefix of white balls keep the list in 1..69. */
  lemma ExtendedInRange(partial: seq<int>, r: seq<int>)
    requires |partial| <= |r| && r[..|partial|] == partial
    requires forall x :: x in partial ==> 1 <= x <= WhiteMax
    requires forall i :: |partial| <= i < |r| ==> 1 <= r[i] <= WhiteMax
    ensures forall x :: x in r ==> 1 <= x <= WhiteMax
  {
    forall x | x in r ensures 1 <= x <= WhiteMax {
      var i :| 0 <= i < |r| && r[i] == x;
      if i < |partial| {
        assert r[..|partial|][i] == x;
        assert partial[i] in partial;
      }
    }
  }

  /** `random.sample(group, count)`, then the top-up from `candidates`,
      then the sort: the white balls of the "ultimate" hot, cold, super-hot
      and contrarian strategies. With at least five candidates the uniform
      stage adds nothing. */
  method GroupThenTopUp(rand: Stream, at: nat, group: seq<int>, count: nat, candidates: seq<int>)
    returns (r: Result<seq<int>>, next: nat)
    requires Distinct(group) && InRange(group, 1, WhiteMax) && count <= BallsPerDraw
    requires forall x :: x in candidates ==> 1 <= x <= WhiteMax
    requires Distinct(candidates) || count >= BallsPerDraw - 1
    ensures r.Ok? <==> count <= |group|
    ensures r.Err? ==> r.error == SampleLargerThanPopulation
    ensures r.Ok? ==> |r.value| == BallsPerDraw && StrictlyAscending(r.value) && InRange(r.value, 1, WhiteMax)
    ensures r.Ok? ==> Overlap(r.value, group) >= count
    ensures r.Ok? && Distinct(candidates) && |candidates| >= BallsPerDraw ==>
              forall x :: x in r.value ==> x in group || x in candidates
  {
    var selected := SampleOf(rand, at, group, count);
    next := at + count;
    if selected.Err? {
      return Err(SampleLargerThanPopulation), next;
    }
    forall i | 0 <= i < |selected.value| ensures 1 <= selected.value[i] <= WhiteMax {
      assert selected.value[i] in selected.value;
    }
    var whites;
    whites, next := TopUp(rand, next, selected.value, candidates);
    if Distinct(candidates) && |candidates| >= BallsPerDraw {
      WithoutSize(candidates, selected.value);
    }
    forall x | x in selected.value ensures x in whites {
      assert x in whites[..|selected.value|];
    }
    OverlapAtLeast(whites, selected.value, group);
    SortedTicket(whites, 1);
    r := Ok(SortAsc(whites));
  }

  /** The balanced powerball: with probability 60% one of the ten most
      common powerballs, otherwise one of the ten least common. */
  function SplitPowerball(rand: Stream, at: nat, powerballs: seq<int>): (r: Result<int>)
    ensures r.Ok? <==> powerballs != []
    ensures r.Err? ==> r.error == EmptySequence
    ensures r.Ok? ==> r.value in powerballs
    ensures r.Ok? && Chance(rand, at, 60) ==> r.value in Take(MostCommon(powerballs), 10)
    ensures r.Ok? && !Chance(rand, at, 60) ==> r.value in Last(MostCommon(powerballs), 10)
  {
    if powerballs != [] then
      assert powerballs[0] in MostCommon(powerballs);
      if Chance(rand, at, 60) then Choice(rand, at + 1, Take(MostCommon(powerballs), 10))
      else Choice(rand, at + 1, Last(MostCommon(powerballs), 10))
    else
      Choice(rand, at + 1, Take(MostCommon(powerballs), 10))
  }

  /** A ticket from finished whites and the 60/40 powerball; with no
      powerball to choose there is no ticket. */
  method SplitPowerballTicket(rand: Stream, at: nat, whites: seq<int>, powerballs: seq<int>) returns (r: Result<Ticket>)
    requires |whites| == BallsPerDraw && StrictlyAscending(whites) && InRange(whites, 1, WhiteMax)
    requires InRange(powerballs, 1, PowerMax)
    ensures r.Ok? <==> powerballs != []
    ensures r.Err? ==> r.error == EmptySequence
    ensures r.Ok? ==> ValidTicket(r.value) && r.value.whites == whites && r.value.powerball in powerballs
    ensures r.Ok? && Chance(rand, at, 60) ==> r.value.powerball in Take(MostCommon(powerballs), 10)
    ensures r.Ok? && !Chance(rand, at, 60) ==> r.value.powerball in Last(MostCommon(powerballs), 10)
  {
    var powerball := SplitPowerball(rand, at, powerballs);
    if powerball.Ok? {
      var i :| 0 <= i < |powerballs| && powerballs[i] == powerball.value;
      r := Ok(Ticket(whites, powerball.value));
    } else {
      r := Err(EmptySequence);
    }
  }

  /** The frequency-weighted strategy: five distinct numbers by the
      rejection loop over the pool weighted `max(1, count // 10)`, and a
      powerball from the pool weighted `max(1, count // 5)`. */
  method FrequencyWeightedTicket(rand: Stream, at: nat, whiteBalls: seq<int>, powerballs: seq<int>, fuel: nat)
    returns (r: Result<Ticket>, next: nat)
    ensures r.Ok? ==> ValidTicket(r.value)
    ensures r.Err? ==> r.error == OutOfChoices
  {
    var pool := WeightedPool(whiteBalls, WhiteMax, 10);
    assert multiset(pool)[1] >= 1;
    var white, used;
    white, used := RejectionFill(rand, at, pool, fuel);
    next := at + used;
    if white.Err? {
      return Err(OutOfChoices), next;
    }
    forall x | x in white.value ensures 1 <= x <= WhiteMax {
      assert x in multiset(pool);
    }
    var pbPool := WeightedPool(powerballs, PowerMax, 5);
    assert multiset(pbPool)[1] >= 1;
    var powerball := Choice(rand, next, pbPool);
    next := next + 1;
    assert powerball.value in multiset(pbPool);
    SortedTicket(white.value, powerball.value);
    r := Ok(Ticket(SortAsc(white.value), powerball.value));
  }
}
