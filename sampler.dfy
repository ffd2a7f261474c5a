/** The calls into Python's `random` module that the generators make, and
    the selection loops they share.

    Randomness is a parameter: a `Stream` gives the value each successive
    call sees, and every operation names the position `at` of its first
    call. `choice`, `randint` and `random() < p` each use one value;
    `sample(pool, k)` uses k. Which uniform index a value stands for is
    fixed here (a remainder), so the model describes every possible run
    rather than the distribution over runs. */
module Sampler {
  import opened Base
  import opened Sorting
  import opened Tally

  type Stream = nat -> nat

  /** x mod n, by repeated subtraction. */
  function Remainder(x: nat, n: nat): (r: nat)
    requires n > 0
    ensures r < n
    ensures x < n ==> r == x
    decreases x
  {
    if x < n then x else Remainder(x - n, n)
  }

  /** The index in 0..n-1 that the stream value at `at` stands for. */
  function Index(rand: Stream, at: nat, n: nat): (i: nat)
    requires n > 0
    ensures i < n
  {
    Remainder(rand(at), n)
  }

  /** `random.choice(pool)`; an empty pool raises. */
  function Choice(rand: Stream, at: nat, pool: seq<int>): (r: Result<int>)
    ensures r.Ok? <==> |pool| > 0
    ensures r.Ok? ==> r.value in pool
  {
    if |pool| == 0 then Err(EmptySequence) else Ok(pool[Index(rand, at, |pool|)])
  }

  /** Every member of the pool is the choice of some stream. */
  lemma ChoiceReachesAll(at: nat, pool: seq<int>, i: nat)
    requires i < |pool|
    ensures exists rand: Stream :: Choice(rand, at, pool) == Ok(pool[i])
  {
    var rand: Stream := n => i;
    assert Choice(rand, at, pool) == Ok(pool[i]);
  }

  /** `random.randint(lo, hi)`: both ends included. */
  function RandInt(rand: Stream, at: nat, lo: int, hi: int): (r: int)
    requires lo <= hi
    ensures lo <= r <= hi
  {
    lo + Index(rand, at, hi - lo + 1)
  }

  /** Every value between the ends is the outcome of some stream. */
  lemma RandIntReachesAll(at: nat, lo: int, hi: int, v: int)
    requires lo <= v <= hi
    ensures exists rand: Stream :: RandInt(rand, at, lo, hi) == v
  {
    var d: nat := v - lo;
    var rand: Stream := n => d;
    assert RandInt(rand, at, lo, hi) == v;
  }

  /** `random.random() < percent / 100`. */
  function Chance(rand: Stream, at: nat, percent: nat): (r: bool)
    ensures percent >= 100 ==> r
    ensures percent == 0 ==> !r
  {
    Index(rand, at, 100) < percent
  }

  /** Both outcomes occur for a probability strictly between 0 and 1. */
  lemma ChanceBothWays(at: nat, percent: nat)
    requires 0 < percent < 100
    ensures exists rand: Stream :: Chance(rand, at, percent)
    ensures exists rand: Stream :: !Chance(rand, at, percent)
  {
    var yes: Stream := n => 0;
    var no: Stream := n => 99;
    assert Chance(yes, at, percent);
    assert !Chance(no, at, percent);
  }

  /** The sequence without its element at index i. */
  function RemoveAt(s: seq<int>, i: nat): (r: seq<int>)
    requires i < |s|
    ensures |r| == |s| - 1
  {
    s[..i] + s[i + 1..]
  }

  /** Removing a place removes exactly one copy of its value. */
  lemma RemoveAtMultiset(s: seq<int>, i: nat)
    requires i < |s|
    ensures multiset(RemoveAt(s, i)) == multiset(s) - multiset{s[i]}
  {
    assert s == s[..i] + [s[i]] + s[i + 1..];
  }

  /** `random.sample(pool, k)`: k picks without replacement, each removing
      the picked position (a value listed twice can be picked twice); more
      picks than the pool holds raises. */
  function Sample(rand: Stream, at: nat, pool: seq<int>, k: nat): (r: Result<seq<int>>)
    ensures r.Ok? <==> k <= |pool|
    ensures r.Ok? ==> |r.value| == k
    ensures r.Err? ==> r.error == SampleLargerThanPopulation
    decreases k
  {
    if k > |pool| then Err(SampleLargerThanPopulation)
    else if k == 0 then Ok([])
    else
      var i := Index(rand, at, |pool|);
      var rest := Sample(rand, at + 1, RemoveAt(pool, i), k - 1);
      Ok([pool[i]] + rest.value)
  }

  /** A sample takes each value at most as often as the pool lists it. */
  lemma {:induction false} SampleSubMultiset(rand: Stream, at: nat, pool: seq<int>, k: nat)
    requires k <= |pool|
    ensures multiset(Sample(rand, at, pool, k).value) <= multiset(pool)
    decreases k
  {
    if k > 0 {
      var i := Index(rand, at, |pool|);
      SampleSubMultiset(rand, at + 1, RemoveAt(pool, i), k - 1);
      ConsWithin(pool, i, Sample(rand, at + 1, RemoveAt(pool, i), k - 1).value);
    }
  }

  /** Taking one value of a pool, then values of what is left of it, stays
      within the pool. */
  lemma ConsWithin(pool: seq<int>, i: nat, tail: seq<int>)
    requires i < |pool| && multiset(tail) <= multiset(RemoveAt(pool, i))
    ensures multiset([pool[i]] + tail) <= multiset(pool)
  {
    RemoveAtMultiset(pool, i);
    assert multiset([pool[i]] + tail) == multiset{pool[i]} + multiset(tail);
    assert pool[i] in multiset(pool);
  }

  /** A sample of a pool without repeats has no repeats, and holds only
      members of the pool. */
  lemma SampleDistinct(rand: Stream, at: nat, pool: seq<int>, k: nat)
    requires k <= |pool|
    ensures Distinct(pool) ==> Distinct(Sample(rand, at, pool, k).value)
    ensures forall x :: x in Sample(rand, at, pool, k).value ==> x in pool
  {
    var s := Sample(rand, at, pool, k).value;
    SampleSubMultiset(rand, at, pool, k);
    if Distinct(pool) {
      SubMultisetDistinct(s, pool);
    }
    forall x | x in s ensures x in pool {
      assert x in multiset(s);
    }
  }

  /** `[num for num in s if num in among]`. */
  function Within(s: seq<int>, among: seq<int>): (r: seq<int>)
    ensures forall x :: x in r <==> x in s && x in among
    ensures Distinct(s) ==> Distinct(r)
  {
    if s == [] then []
    else if s[0] in among then [s[0]] + Within(s[1..], among)
    else Within(s[1..], among)
  }

  /** The values `random.choice(pool)` returns on n successive calls. */
  ghost function Picks(rand: Stream, at: nat, pool: seq<int>, n: nat): (r: seq<int>)
    requires |pool| > 0
    ensures |r| == n
    ensures forall j :: 0 <= j < n ==> r[j] == Choice(rand, at + j, pool).value
  {
    seq(n, j requires 0 <= j < n => pool[Index(rand, at + j, |pool|)])
  }

  lemma PicksStep(rand: Stream, at: nat, pool: seq<int>, n: nat)
    requires |pool| > 0
    ensures Picks(rand, at, pool, n + 1) == Picks(rand, at, pool, n) + [Choice(rand, at + n, pool).value]
  {
  }

  /** The loop `while len(white_balls) < 5: num = random.choice(pool); if
      num not in white_balls: white_balls.append(num)`. The result is the
      first five distinct values chosen, in the order chosen. The loop
      never ends when the pool holds fewer than five distinct values;
      `fuel` bounds the number of choices and running out of it is
      reported as `OutOfChoices`; `used` is the number of choices made. */
  method RejectionFill(rand: Stream, at: nat, pool: seq<int>, fuel: nat)
    returns (r: Result<seq<int>>, used: nat)
    ensures used <= fuel
    ensures |pool| == 0 ==> r == Err(EmptySequence) && used == 0
    ensures r.Ok? ==> |pool| > 0 && r.value == Keys(Picks(rand, at, pool, used))
    ensures r.Ok? ==> |r.value| == 5 && Distinct(r.value) && forall x :: x in r.value ==> x in pool
    ensures r.Ok? ==> used > 0 && |Keys(Picks(rand, at, pool, used - 1))| < 5
    ensures r.Err? && |pool| > 0 ==> r.error == OutOfChoices && |Keys(Picks(rand, at, pool, fuel))| < 5
  {
    used := 0;
    if |pool| == 0 {
      return Err(EmptySequence), used;
    }
    var white: seq<int> := [];
    while |white| < 5 && used < fuel
      invariant used <= fuel
      invariant white == Keys(Picks(rand, at, pool, used))
      invariant |white| <= 5
      invariant used > 0 ==> |Keys(Picks(rand, at, pool, used - 1))| < 5
    {
      var num := Choice(rand, at + used, pool).value;
      PicksStep(rand, at, pool, used);
      if num !in white {
        white := white + [num];
      }
      used := used + 1;
    }
    if |white| == 5 {
      assert used > 0;
      r := Ok(white);
    } else {
      r := Err(OutOfChoices);
    }
  }

    /** `random.choice([num for num in range(1, 70) if num not in held])`:
      one white ball, chosen among those not yet held. */
  function UniformPick(rand: Stream, at: nat, held: seq<int>): (x: int)
    requires |held| < WhiteMax
    ensures 1 <= x <= WhiteMax
  {
    var pool := Available(held);
    AvailableMembers(held);
    assert pool[Index(rand, at, |pool|)] in pool;
    pool[Index(rand, at, |pool|)]
  }

  /** The pick is `random.choice` over the balls not yet held, and never
      repeats a ball already held. */
  lemma UniformPickFresh(rand: Stream, at: nat, held: seq<int>)
    requires |held| < WhiteMax
    ensures Choice(rand, at, Available(held)) == Ok(UniformPick(rand, at, held))
    ensures UniformPick(rand, at, held) !in held
  {
    AvailableMembers(held);
    assert UniformPick(rand, at, held) in Available(held);
  }

  /** The list `white` after n more uniform picks, each among the white
      balls not yet held, the k-th of them using stream position at + k. */
  function ToppedUp(rand: Stream, at: nat, white: seq<int>, n: nat): (r: seq<int>)
    requires |white| + n <= WhiteMax
    ensures |r| == |white| + n
  {
    if n == 0 then white
    else
      var prev := ToppedUp(rand, at, white, n - 1);
      prev + [UniformPick(rand, at + n - 1, prev)]
  }

  /** One more pick extends the list by a white ball it did not hold. */
  lemma ToppedUpExtends(rand: Stream, at: nat, white: seq<int>, n: nat)
    requires |white| + n <= WhiteMax && n > 0
    ensures ToppedUp(rand, at, white, n)[..|white| + n - 1] == ToppedUp(rand, at, white, n - 1)
    ensures var last := ToppedUp(rand, at, white, n)[|white| + n - 1];
            1 <= last <= WhiteMax && last !in ToppedUp(rand, at, white, n - 1)
  {
    var prev := ToppedUp(rand, at, white, n - 1);
    UniformPickFresh(rand, at + n - 1, prev);
    assert ToppedUp(rand, at, white, n) == prev + [UniformPick(rand, at + n - 1, prev)];
  }

  /** Topping up m times and topping up n >= m times agree on the first
      m picks. */
  lemma {:induction false} ToppedUpPrefix(rand: Stream, at: nat, white: seq<int>, n: nat, m: nat)
    requires m <= n && |white| + n <= WhiteMax
    ensures ToppedUp(rand, at, white, n)[..|white| + m] == ToppedUp(rand, at, white, m)
  {
    if m < n {
      ToppedUpExtends(rand, at, white, n);
      ToppedUpPrefix(rand, at, white, n - 1, m);
      var r := ToppedUp(rand, at, white, n);
      assert r[..|white| + m] == r[..|white| + n - 1][..|white| + m];
    }
  }

  /** Each entry past the prefix is a white ball no earlier entry holds. */
  lemma ToppedUpEntry(rand: Stream, at: nat, white: seq<int>, n: nat, i: int)
    requires |white| + n <= WhiteMax && |white| <= i < |white| + n
    ensures 1 <= ToppedUp(rand, at, white, n)[i] <= WhiteMax
    ensures ToppedUp(rand, at, white, n)[i] !in ToppedUp(rand, at, white, n)[..i]
  {
    var m := i - |white| + 1;
    var r := ToppedUp(rand, at, white, n);
    ToppedUpPrefix(rand, at, white, n, m);
    ToppedUpExtends(rand, at, white, m);
    assert r[..i] == r[..i + 1][..i];
    assert r[i] == r[..i + 1][i];
  }

  /** Topping up a list without repeats gives a list without repeats. */
  lemma ToppedUpDistinct(rand: Stream, at: nat, white: seq<int>, n: nat)
    requires |white| + n <= WhiteMax && Distinct(white)
    ensures Distinct(ToppedUp(rand, at, white, n))
  {
    var r := ToppedUp(rand, at, white, n);
    ToppedUpPrefix(rand, at, white, n, 0);
    forall i, j | 0 <= i < j < |r| ensures r[i] != r[j] {
      if j < |white| {
        assert r[i] == r[..|white|][i] && r[j] == r[..|white|][j];
      } else {
        ToppedUpEntry(rand, at, white, n, j);
        assert r[i] == r[..j][i];
      }
    }
  }

  /** One more pick appends the uniform choice at the next position. */
  lemma ToppedUpStep(rand: Stream, at: nat, white: seq<int>, n: nat)
    requires |white| + n < WhiteMax
    ensures ToppedUp(rand, at, white, n + 1)
              == ToppedUp(rand, at, white, n) + [UniformPick(rand, at + n, ToppedUp(rand, at, white, n))]
  {
  }

  lemma ToppedUpSameCount(rand: Stream, at: nat, white: seq<int>, n: nat, m: nat)
    requires n == m && |white| + n <= WhiteMax
    ensures ToppedUp(rand, at, white, n) == ToppedUp(rand, at, white, m)
  {
  }

  /** What topping up promises: the prefix is kept, every later entry is a
      white ball no earlier entry holds, and no repeat is introduced. */
  lemma ToppedUpSpec(rand: Stream, at: nat, white: seq<int>, n: nat, r: seq<int>)
    requires |white| + n <= WhiteMax && r == ToppedUp(rand, at, white, n)
    ensures |white| <= |r| && r[..|white|] == white
    ensures forall i :: |white| <= i < |r| ==> 1 <= r[i] <= WhiteMax && r[i] !in r[..i]
    ensures Distinct(white) ==> Distinct(r)
  {
    ToppedUpPrefix(rand, at, white, n, 0);
    forall i | |white| <= i < |r| ensures 1 <= r[i] <= WhiteMax && r[i] !in r[..i] {
      ToppedUpEntry(rand, at, white, n, i);
    }
    if Distinct(white) {
      ToppedUpDistinct(rand, at, white, n);
    }
  }

  /** The loop `while len(white_balls) < 5: available = [num for num in
      range(1, 70) if num not in white_balls];
      white_balls.append(random.choice(available))`: the list keeps its
      prefix and is topped up to five with white balls it does not hold. */
  method UniformFill(rand: Stream, at: nat, white: seq<int>) returns (r: seq<int>, next: nat)
    ensures |white| >= 5 ==> r == white && next == at
    ensures |white| < 5 ==> r == ToppedUp(rand, at, white, 5 - |white|) && next == at + 5 - |white|
    ensures |white| <= |r| && r[..|white|] == white
    ensures forall i :: |white| <= i < |r| ==> 1 <= r[i] <= WhiteMax && r[i] !in r[..i]
    ensures Distinct(white) ==> Distinct(r)
  {
    if |white| >= 5 {
      return white, at;
    }
    r, next := TopUpToFive(rand, at, white);
    ToppedUpSpec(rand, at, white, 5 - |white|, r);
  }

  /** The body of the loop above, run until the list holds five balls. */
  method TopUpToFive(rand: Stream, at: nat, white: seq<int>) returns (r: seq<int>, next: nat)
    requires |white| < 5
    ensures r == ToppedUp(rand, at, white, 5 - |white|) && next == at + 5 - |white|
  {
    r, next := white, at;
    ghost var n: nat := 0;
    while |r| < 5
      invariant |r| == |white| + n <= 5
      invariant r == ToppedUp(rand, at, white, n)
      invariant next == at + n
    {
      ToppedUpStep(rand, at, white, n);
      var x := UniformPick(rand, next, r);
      r := r + [x];
      next := next + 1;
      n := n + 1;
    }
  }

  /** The repair loop `while len(set(white_balls)) < 5: white_balls =
      list(set(white_balls)); white_balls.extend(random.sample(available,
      5 - len(white_balls)))`, with `list(set(...))` as the distinct values
      in first-occurrence order. The body runs at most once. */
  method DedupRepair(rand: Stream, at: nat, white: seq<int>) returns (r: seq<int>, next: nat)
    requires |white| <= 5
    ensures |r| == 5 && Distinct(r)
    ensures forall x :: x in white ==> x in r
    ensures forall x :: x in r && x !in white ==> 1 <= x <= WhiteMax
    ensures |white| == 5 && Distinct(white) ==> r == white && next == at
    ensures at <= next <= at + 5
  {
    r, next := white, at;
    ghost var rounds := 0;
    SetCardAtMostLength(r);
    if Distinct(white) {
      DistinctCard(white);
    }
    while |Elements(r)| < 5
      invariant |r| <= 5 && at <= next <= at + 5
      invariant rounds <= 1
      invariant rounds == 0 ==> r == white && next == at
      invariant rounds == 1 ==> |r| == 5 && Distinct(r)
      invariant |white| == 5 && Distinct(white) ==> rounds == 0
      invariant forall x :: x in white ==> x in r
      invariant forall x :: x in r && x !in white ==> 1 <= x <= WhiteMax
      decreases 5 - |Elements(r)|
    {
      if rounds == 1 {
        DistinctCard(r);
      }
      var kept := Keys(r);
      DistinctCard(kept);
      assert Elements(kept) == Elements(r);
      var remaining: nat := 5 - |kept|;
      var available := Available(kept);
      AvailableAscending(kept);
      AvailableMembers(kept);
      var picked := Sample(rand, next, available, remaining);
      SampleDistinct(rand, next, available, remaining);
      ConcatDistinct(kept, picked.value);
      r := kept + picked.value;
      next := next + remaining;
      rounds := rounds + 1;
      DistinctCard(r);
    }
    if rounds == 0 && |white| < 5 {
      SetCardAtMostLength(white);
    }
    if rounds == 0 {
      if !Distinct(white) {
        NotDistinctCard(white);
      }
    }
  }

  /** A sequence with a repeat has fewer distinct values than entries. */
  lemma NotDistinctCard(s: seq<int>)
    requires !Distinct(s)
    ensures |Elements(s)| < |s|
  {
    var i, j :| 0 <= i < j < |s| && s[i] == s[j];
    var t := s[..j] + s[j + 1..];
    assert s == s[..j] + [s[j]] + s[j + 1..];
    assert Elements(s) == Elements(t) by {
      assert s[j] == t[i];
      forall x | x in s ensures x in t {
        var k :| 0 <= k < |s| && s[k] == x;
        if k < j { assert t[k] == x; }
        else if k > j { assert t[k - 1] == x; }
      }
    }
    SetCardAtMostLength(t);
  }

  /** `available = [num for num in candidates if num not in white_balls];
      if available: white_balls.extend(random.sample(available,
      min(remaining, len(available))))`: as many candidates as fit, none
      already chosen. Repeats in the candidates can come out twice. */
  function FillFrom(rand: Stream, at: nat, white: seq<int>, candidates: seq<int>, remaining: nat): (r: seq<int>)
    ensures |r| == if remaining <= |Without(candidates, white)| then remaining else |Without(candidates, white)|
    ensures forall x :: x in r ==> x in candidates && x !in white
    ensures Distinct(candidates) ==> Distinct(r)
  {
    var available := Without(candidates, white);
    var k := if remaining <= |available| then remaining else |available|;
    SampleDistinct(rand, at, available, k);
    if Distinct(candidates) then
      WithoutDistinct(candidates, white);
      Sample(rand, at, available, k).value
    else
      Sample(rand, at, available, k).value
  }

  /** `if favoured and random.random() < percent / 100:
      random.choice(favoured) else: random.choice(fallback)`. The
      probability is drawn only when `favoured` is non-empty. */
  function BiasedChoice(rand: Stream, at: nat, favoured: seq<int>, percent: nat, fallback: seq<int>): (r: Result<int>)
    ensures favoured != [] && Chance(rand, at, percent) ==> r == Choice(rand, at + 1, favoured) && r.Ok?
    ensures favoured != [] && !Chance(rand, at, percent) ==> r == Choice(rand, at + 1, fallback)
    ensures favoured == [] ==> r == Choice(rand, at, fallback)
    ensures r.Ok? ==> r.value in favoured || r.value in fallback
    ensures r.Err? ==> r.error == EmptySequence && fallback == []
  {
    if favoured != [] && Chance(rand, at, percent) then Choice(rand, at + 1, favoured)
    else if favoured != [] then Choice(rand, at + 1, fallback)
    else Choice(rand, at, fallback)
  }

  /** The stream positions a `BiasedChoice` uses. */
  function BiasedUses(favoured: seq<int>): nat {
    if favoured != [] then 2 else 1
  }

  /** The loop `for pos in range(5)` of the position strategies: for each
      position, `hot_in_position = [num for num in preferred if num in
      hot]`, then a biased choice between those and all the preferred
      numbers of the position. */
  method PositionPicks(rand: Stream, at: nat, prefs: seq<seq<int>>, hot: seq<int>, percent: nat)
    returns (r: Result<seq<int>>, next: nat)
    requires |prefs| == BallsPerDraw
    ensures r.Ok? <==> forall p :: 0 <= p < |prefs| ==> |prefs[p]| > 0
    ensures r.Ok? ==> |r.value| == BallsPerDraw
    ensures r.Ok? ==> forall p :: 0 <= p < |prefs| ==> r.value[p] in prefs[p]
    ensures r.Ok? && percent >= 100 ==>
      forall p :: 0 <= p < |prefs| && Within(prefs[p], hot) != [] ==> r.value[p] in hot
    ensures r.Err? ==> r.error == EmptySequence
    ensures at <= next
  {
    var white: seq<int> := [];
    next := at;
    var pos := 0;
    while pos < |prefs|
      invariant 0 <= pos <= |prefs| && |white| == pos && at <= next
      invariant forall p :: 0 <= p < pos ==> |prefs[p]| > 0 && white[p] in prefs[p]
      invariant percent >= 100 ==> forall p :: 0 <= p < pos && Within(prefs[p], hot) != [] ==> white[p] in hot
    {
      var preferred := prefs[pos];
      var hotInPosition := Within(preferred, hot);
      var selected := BiasedChoice(rand, next, hotInPosition, percent, preferred);
      next := next + BiasedUses(hotInPosition);
      if selected.Err? {
        return Err(EmptySequence), next;
      }
      white := white + [selected.value];
      pos := pos + 1;
    }
    r := Ok(white);
  }

  /** `[n for lst in lists for n in lst]`. */
  function Join(lists: seq<seq<int>>): (r: seq<int>)
    ensures forall x :: x in r <==> exists p :: 0 <= p < |lists| && x in lists[p]
  {
    if lists == [] then []
    else
      var init := lists[..|lists| - 1];
      var r := Join(init) + lists[|lists| - 1];
      assert forall p :: 0 <= p < |init| ==> lists[p] == init[p];
      r
  }

  /** `[num] * weight`. */
  function Repeat(num: int, weight: nat): (r: seq<int>)
    ensures |r| == weight
    ensures forall x :: multiset(r)[x] == if x == num then weight else 0
  {
    if weight == 0 then []
    else
      var t := Repeat(num, weight - 1);
      assert multiset(t + [num]) == multiset(t) + multiset{num};
      t + [num]
  }

  /** `for num in nums: pool.extend([num] * weight)`: each listed number
      gains `weight` copies per listing, nothing else changes. */
  method ExtendEach(pool: seq<int>, nums: seq<int>, weight: nat) returns (r: seq<int>)
    ensures forall x :: multiset(r)[x] == multiset(pool)[x] + weight * multiset(nums)[x]
  {
    r := pool;
    var i := 0;
    while i < |nums|
      invariant 0 <= i <= |nums|
      invariant forall x :: multiset(r)[x] == multiset(pool)[x] + weight * multiset(nums[..i])[x]
    {
      assert nums[..i + 1] == nums[..i] + [nums[i]];
      forall x ensures multiset(r + Repeat(nums[i], weight))[x]
                       == multiset(pool)[x] + weight * multiset(nums[..i] + [nums[i]])[x] {
        ExtendStep(r, pool, nums[..i], nums[i], weight, x);
      }
      r := r + Repeat(nums[i], weight);
      i := i + 1;
    }
    assert nums[..i] == nums;
  }

  lemma ExtendStep(r: seq<int>, pool: seq<int>, done: seq<int>, num: int, weight: nat, x: int)
    requires multiset(r)[x] == multiset(pool)[x] + weight * multiset(done)[x]
    ensures multiset(r + Repeat(num, weight))[x] == multiset(pool)[x] + weight * multiset(done + [num])[x]
  {
    var c := multiset(done)[x];
    assert multiset(done + [num]) == multiset(done) + multiset{num};
    assert multiset(r + Repeat(num, weight))[x] == multiset(r)[x] + multiset(Repeat(num, weight))[x];
    var d := multiset(done + [num])[x];
    assert d == if x == num then c + 1 else c;
    MulStep(weight, c, d);
  }

  lemma MulStep(w: nat, c: nat, d: nat)
    requires d == c || d == c + 1
    ensures w * d == w * c + (if d == c then 0 else w)
  {
  }

  /** In a list without repeats a value occurs once or not at all. */
  lemma DistinctCount(s: seq<int>, x: int)
    requires Distinct(s)
    ensures multiset(s)[x] == if x in s then 1 else 0
  {
    DistinctMultiplicity(s);
    assert x in s <==> x in multiset(s);
  }

  /** How many of the balls belong to `group`, for balls without repeats. */
  function Overlap(balls: seq<int>, group: seq<int>): nat {
    |Elements(balls) * Elements(group)|
  }

  /** Sorting keeps the overlap: when `part` holds, without repeats, the
      balls that belong to `group`, that many of the sorted balls do. */
  lemma OverlapOfPart(balls: seq<int>, part: seq<int>, group: seq<int>)
    requires Distinct(part)
    requires forall x :: x in part ==> x in balls && x in group
    requires forall x :: x in balls && x in group ==> x in part
    ensures Overlap(SortAsc(balls), group) == |part|
  {
    SortAscSameElements(balls);
    assert Elements(SortAsc(balls)) * Elements(group) == Elements(part);
    DistinctCard(part);
  }

  /** Picks from `group` that made it into the balls count towards the
      overlap of the sorted balls with `group`. */
  lemma OverlapAtLeast(balls: seq<int>, part: seq<int>, group: seq<int>)
    requires Distinct(part)
    requires forall x :: x in part ==> x in balls && x in group
    ensures Overlap(SortAsc(balls), group) >= |part|
  {
    SortAscSameElements(balls);
    forall x | x in Elements(part) ensures x in Elements(SortAsc(balls)) * Elements(group) {
      assert x in part;
    }
    SubsetCard(Elements(part), Elements(SortAsc(balls)) * Elements(group));
    DistinctCard(part);
  }

  /** `random.sample(pool, k)` as a step of a strategy. */
  method SampleOf(rand: Stream, at: nat, pool: seq<int>, k: nat) returns (r: Result<seq<int>>)
    ensures r.Ok? <==> k <= |pool|
    ensures r.Ok? ==> |r.value| == k && forall x :: x in r.value ==> x in pool
    ensures r.Ok? && Distinct(pool) ==> Distinct(r.value)
    ensures r.Err? ==> r.error == SampleLargerThanPopulation
  {
    r := Sample(rand, at, pool, k);
    if r.Ok? {
      SampleDistinct(rand, at, pool, k);
    }
  }

  /** `count = random.randint(lo, hi)` followed by `random.sample(pool,
      count)`. */
  method SampleSome(rand: Stream, at: nat, pool: seq<int>, lo: nat, hi: nat)
    returns (r: Result<seq<int>>, next: nat)
    requires lo <= hi
    ensures r.Ok? ==> lo <= |r.value| <= hi && forall x :: x in r.value ==> x in pool
    ensures r.Ok? && Distinct(pool) ==> Distinct(r.value)
    ensures r.Err? ==> r.error == SampleLargerThanPopulation
    ensures |pool| < lo ==> r.Err?
    ensures |pool| >= hi ==> r.Ok?
    ensures next == at + 1 + if r.Ok? then |r.value| else 0
  {
    var count := RandInt(rand, at, lo, hi);
    next := at + 1;
    if count > |pool| {
      return Err(SampleLargerThanPopulation), next;
    }
    r := SampleOf(rand, next, pool, count);
    next := next + count;
  }

  /** `remaining = 5 - len(white_balls)`, then `random.sample` of that many
      white balls that are neither chosen nor in `excluded`, appended. */
  method NeutralFill(rand: Stream, at: nat, white: seq<int>, excluded: seq<int>)
    returns (r: Result<seq<int>>, next: nat)
    requires |white| <= 5 && Distinct(white)
    ensures r.Ok? ==> |r.value| == 5 && Distinct(r.value) && r.value[..|white|] == white
    ensures r.Ok? ==> forall x :: x in r.value && x !in white ==> 1 <= x <= WhiteMax && x !in excluded
    ensures r.Ok? ==> forall x :: x in r.value ==> x in white || x !in excluded
    ensures r.Err? ==> r.error == SampleLargerThanPopulation
    ensures |excluded| <= WhiteMax - 5 ==> r.Ok?
    ensures next == at + 5 - |white|
  {
    var remaining := 5 - |white|;
    var neutral := Available(white + excluded);
    AvailableAscending(white + excluded);
    AvailableMembers(white + excluded);
    var picked := SampleOf(rand, at, neutral, remaining);
    next := at + remaining;
    if picked.Err? {
      return Err(SampleLargerThanPopulation), next;
    }
    ConcatDistinct(white, picked.value);
    r := Ok(white + picked.value);
    assert r.value[..|white|] == white;
  }

  /** `max(1, count // divisor)`. */
  function Weight(count: nat, divisor: nat): (w: nat)
    requires divisor > 0
    ensures w >= 1 && w * divisor <= count + divisor
  {
    if count / divisor > 1 then count / divisor else 1
  }

  /** `for num in range(1, domain + 1): pool.extend([num] * max(1,
      Counter(balls).get(num, 0) // divisor))`: every number of the domain
      is in the pool, with a weight that grows with its count. */
  method WeightedPool(balls: seq<int>, domain: int, divisor: nat) returns (pool: seq<int>)
    requires divisor > 0
    ensures forall x :: multiset(pool)[x] == if 1 <= x <= domain then Weight(multiset(balls)[x], divisor) else 0
  {
    pool := [];
    var num := 1;
    while num <= domain
      invariant 1 <= num <= if domain >= 1 then domain + 1 else 1
      invariant forall x :: multiset(pool)[x] == if 1 <= x < num then Weight(multiset(balls)[x], divisor) else 0
    {
      var count := multiset(balls)[num];
      pool := pool + Repeat(num, Weight(count, divisor));
      num := num + 1;
    }
  }

  /** A generated set: five white balls and a powerball. */
  datatype Ticket = Ticket(whites: seq<int>, powerball: int)

  /** What every strategy promises: five distinct white balls in 1..69,
      sorted, and a powerball in 1..26. */
  predicate ValidTicket(t: Ticket) {
    |t.whites| == BallsPerDraw && StrictlyAscending(t.whites) && InRange(t.whites, 1, WhiteMax)
    && 1 <= t.powerball <= PowerMax
  }

  /** A list that starts with `white` holds every member of `white`, and
      is inside 1..69 when `white` and everything added are. */
  lemma FillKeeps(whites: seq<int>, white: seq<int>)
    requires |white| <= |whites| && whites[..|white|] == white
    ensures forall x :: x in white ==> x in whites
    ensures (forall x :: x in white ==> 1 <= x <= WhiteMax)
            && (forall x :: x in whites && x !in white ==> 1 <= x <= WhiteMax)
            ==> forall x :: x in whites ==> 1 <= x <= WhiteMax
  {
    forall x | x in white ensures x in whites {
      assert x in whites[..|white|];
    }
  }

  /** `return sorted(white_balls), powerball`: five distinct white balls
      and a powerball in range make a valid ticket once sorted. */
  lemma SortedTicket(whites: seq<int>, powerball: int)
    requires |whites| == BallsPerDraw && Distinct(whites) && (forall x :: x in whites ==> 1 <= x <= WhiteMax)
    requires 1 <= powerball <= PowerMax
    ensures ValidTicket(Ticket(SortAsc(whites), powerball))
    ensures forall x :: x in SortAsc(whites) <==> x in whites
  {
    SortAscSameElements(whites);
    var r := SortAsc(whites);
    assert forall i :: 0 <= i < |r| ==> r[i] in r;
  }

  /** The counts `display_numbers` prints: with disjoint hot and cold
      lists, hot + cold + neutral is the number of balls shown. */
  lemma {:induction false} DisplayCounts(whites: seq<int>, hot: seq<int>, cold: seq<int>)
    requires forall x :: x in hot ==> x !in cold
    ensures |Within(whites, hot)| + |Within(whites, cold)| + |Without(whites, hot + cold)| == |whites|
  {
    if whites != [] {
      DisplayCounts(whites[1..], hot, cold);
    }
  }
}
