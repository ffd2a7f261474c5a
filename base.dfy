/** Shared vocabulary of the lottery engine: number domains, draws, errors,
    and the small facts about sequences and sets that every component uses. */
module Base {

  /** Highest white ball, highest powerball, and white balls per draw. */
  const WhiteMax: int := 69
  const PowerMax: int := 26
  const BallsPerDraw: int := 5

  /** The failures the core can meet. `SampleLargerThanPopulation` is the
      ValueError of `random.sample`, `EmptySequence` the IndexError of
      `random.choice` on an empty list, `EmptyHistory` a table asked of no
      draws, and `OutOfChoices` a rejection loop whose injected choices ran
      out before it found five distinct values. */
  datatype Error = SampleLargerThanPopulation | EmptySequence | EmptyHistory | OutOfChoices

  datatype Result<T> = Ok(value: T) | Err(error: Error) {
    predicate IsFailure() { Err? }
    function PropagateFailure<U>(): Result<U> requires Err? { Err(error) }
    function Extract(): T requires Ok? { value }
  }

  /** One historical draw: its date (an ordinal day number), the five white
      balls in drawn order and the powerball. */
  datatype Draw = Draw(date: int, whites: seq<int>, powerball: int)

  predicate InRange(s: seq<int>, lo: int, hi: int) {
    forall i :: 0 <= i < |s| ==> lo <= s[i] <= hi
  }

  predicate Distinct(s: seq<int>) {
    forall i, j :: 0 <= i < j < |s| ==> s[i] != s[j]
  }

  predicate Ascending(s: seq<int>) {
    forall i, j :: 0 <= i < j < |s| ==> s[i] <= s[j]
  }

  predicate StrictlyAscending(s: seq<int>) {
    forall i, j :: 0 <= i < j < |s| ==> s[i] < s[j]
  }

  /** What every row of the history satisfies once parsed. */
  predicate ValidDraw(d: Draw) {
    |d.whites| == BallsPerDraw && InRange(d.whites, 1, WhiteMax) && Distinct(d.whites)
    && 1 <= d.powerball <= PowerMax
  }

  predicate ValidHistory(draws: seq<Draw>) {
    forall i :: 0 <= i < |draws| ==> ValidDraw(draws[i])
  }

  /** All white balls of the history, row by row (`[n for row in rows for n in row]`). */
  function Flatten(draws: seq<Draw>): (r: seq<int>)
    ensures (forall i :: 0 <= i < |draws| ==> |draws[i].whites| == BallsPerDraw)
            ==> |r| == BallsPerDraw * |draws|
  {
    if draws == [] then [] else Flatten(draws[..|draws| - 1]) + draws[|draws| - 1].whites
  }

  /** The powerball column of the history. */
  function Powerballs(draws: seq<Draw>): (r: seq<int>)
    ensures |r| == |draws|
    ensures forall i :: 0 <= i < |draws| ==> r[i] == draws[i].powerball
  {
    seq(|draws|, i requires 0 <= i < |draws| => draws[i].powerball)
  }

  lemma {:induction false} FlattenInRange(draws: seq<Draw>)
    requires ValidHistory(draws)
    ensures InRange(Flatten(draws), 1, WhiteMax)
  {
    if draws != [] {
      FlattenInRange(draws[..|draws| - 1]);
    }
  }

  /** The integers lo..hi in ascending order (Python's `range(lo, hi + 1)`). */
  function Interval(lo: int, hi: int): (r: seq<int>)
    ensures |r| == if lo <= hi then hi - lo + 1 else 0
    ensures forall i :: 0 <= i < |r| ==> r[i] == lo + i
    ensures forall x :: x in r <==> lo <= x <= hi
    ensures StrictlyAscending(r)
  {
    var r := if lo <= hi then seq(hi - lo + 1, i => lo + i) else [];
    IntervalMembers(lo, hi, r);
    r
  }

  lemma IntervalMembers(lo: int, hi: int, r: seq<int>)
    requires |r| == if lo <= hi then hi - lo + 1 else 0
    requires forall i :: 0 <= i < |r| ==> r[i] == lo + i
    ensures forall x :: x in r <==> lo <= x <= hi
  {
    forall x | lo <= x <= hi ensures x in r {
      assert r[x - lo] == x;
    }
  }

  /** `[n for n in s if n not in avoid]`. */
  function Without(s: seq<int>, avoid: seq<int>): (r: seq<int>)
    ensures forall x :: x in r <==> x in s && x !in avoid
    ensures |r| <= |s|
  {
    if s == [] then []
    else if s[0] in avoid then Without(s[1..], avoid)
    else [s[0]] + Without(s[1..], avoid)
  }

  lemma {:induction false} WithoutNothing(s: seq<int>)
    ensures Without(s, []) == s
  {
    if s != [] {
      WithoutNothing(s[1..]);
    }
  }

  /** Dropping values commutes with concatenation. */
  lemma {:induction false} WithoutAppend(a: seq<int>, b: seq<int>, avoid: seq<int>)
    ensures Without(a + b, avoid) == Without(a, avoid) + Without(b, avoid)
  {
    if a == [] {
      assert a + b == b;
    } else {
      assert (a + b)[0] == a[0] && (a + b)[1..] == a[1..] + b;
      WithoutAppend(a[1..], b, avoid);
    }
  }

  lemma {:induction false} WithoutDistinct(s: seq<int>, avoid: seq<int>)
    requires Distinct(s)
    ensures Distinct(Without(s, avoid))
  {
    if s != [] {
      WithoutDistinct(s[1..], avoid);
    }
  }

  lemma {:induction false} WithoutAscending(s: seq<int>, avoid: seq<int>)
    requires StrictlyAscending(s)
    ensures StrictlyAscending(Without(s, avoid))
  {
    if s != [] {
      WithoutAscending(s[1..], avoid);
      var t := Without(s[1..], avoid);
      forall x | x in t ensures s[0] < x {
        var k :| 0 <= k < |s[1..]| && s[1..][k] == x;
        assert s[k + 1] == x;
      }
      if s[0] !in avoid {
        var r := [s[0]] + t;
        forall i, j | 0 <= i < j < |r| ensures r[i] < r[j] {
          if i > 0 {
            assert r[i] == t[i - 1] && r[j] == t[j - 1];
          } else {
            assert r[j] in t;
          }
        }
      }
    }
  }

  /** The white balls 1..69 that are not in `chosen`, ascending:
      the `available` list the generators rebuild before a uniform pick. */
  function Available(chosen: seq<int>): (r: seq<int>)
    ensures |r| >= WhiteMax - |chosen|
  {
    var r := Without(Interval(1, WhiteMax), chosen);
    WithoutAscending(Interval(1, WhiteMax), chosen);
    AvailableSize(chosen, r);
    r
  }

  /** The available balls are exactly the white balls not chosen. */
  lemma AvailableMembers(chosen: seq<int>)
    ensures forall x :: x in Available(chosen) <==> 1 <= x <= WhiteMax && x !in chosen
  {
  }

  /** The available balls are listed in ascending order, so without repeats. */
  lemma AvailableAscending(chosen: seq<int>)
    ensures StrictlyAscending(Available(chosen)) && Distinct(Available(chosen))
  {
    WithoutAscending(Interval(1, WhiteMax), chosen);
    AscendingIsDistinct(Available(chosen));
  }

  lemma AvailableSize(chosen: seq<int>, r: seq<int>)
    requires forall x :: x in r <==> 1 <= x <= WhiteMax && x !in chosen
    requires StrictlyAscending(r)
    ensures |r| >= WhiteMax - |chosen|
  {
    var all := Elements(Interval(1, WhiteMax));
    AscendingIsDistinct(Interval(1, WhiteMax));
    DistinctCard(Interval(1, WhiteMax));
    SetCardAtMostLength(chosen);
    AscendingIsDistinct(r);
    DistinctCard(r);
    assert Elements(r) == all - Elements(chosen);
    DifferenceCard(all, Elements(chosen));
  }

  /** Removing the members of `avoid` from a list without repeats drops
      at most |avoid| entries. */
  lemma WithoutSize(s: seq<int>, avoid: seq<int>)
    requires Distinct(s)
    ensures |Without(s, avoid)| >= |s| - |avoid|
  {
    var r := Without(s, avoid);
    WithoutDistinct(s, avoid);
    DistinctCard(s);
    DistinctCard(r);
    SetCardAtMostLength(avoid);
    assert Elements(r) == Elements(s) - Elements(avoid);
    DifferenceCard(Elements(s), Elements(avoid));
  }

  lemma AscendingIsDistinct(s: seq<int>)
    requires StrictlyAscending(s)
    ensures Distinct(s)
  {
  }

  /** The set of values of a sequence, `set(s)` in Python. */
  function Elements(s: seq<int>): set<int> {
    set x | x in s
  }

  lemma DifferenceCard(a: set<int>, b: set<int>)
    ensures |a - b| >= |a| - |b|
  {
    assert a == (a - b) + (a * b);
    assert |a * b| <= |b| by {
      SubsetCard(a * b, b);
    }
  }

  lemma SubsetCard(a: set<int>, b: set<int>)
    requires a <= b
    ensures |a| <= |b|
  {
    assert b == a + (b - a);
  }

  lemma {:induction false} SetCardAtMostLength(s: seq<int>)
    ensures |Elements(s)| <= |s|
  {
    if s != [] {
      SetCardAtMostLength(s[1..]);
      assert Elements(s) == Elements(s[1..]) + {s[0]};
    }
  }

  lemma {:induction false} DistinctCard(s: seq<int>)
    requires Distinct(s)
    ensures |Elements(s)| == |s|
  {
    if s != [] {
      DistinctCard(s[1..]);
      assert Elements(s) == Elements(s[1..]) + {s[0]};
      assert s[0] !in Elements(s[1..]);
    }
  }

  /** A sequence is distinct exactly when no value occurs twice in its multiset. */
  lemma {:induction false} DistinctMultiplicity(s: seq<int>)
    ensures Distinct(s) <==> forall v :: multiset(s)[v] <= 1
  {
    if s == [] {
    } else {
      DistinctMultiplicity(s[1..]);
      assert s == [s[0]] + s[1..];
      assert multiset(s) == multiset{s[0]} + multiset(s[1..]);
      if Distinct(s) {
        assert s[0] !in s[1..];
      } else {
        var i, j :| 0 <= i < j < |s| && s[i] == s[j];
        if i == 0 {
          assert s[j] in s[1..];
          assert multiset(s)[s[0]] >= 2;
        } else {
          assert !Distinct(s[1..]) by {
            assert s[1..][i - 1] == s[1..][j - 1];
          }
          var v :| multiset(s[1..])[v] > 1;
          assert multiset(s)[v] > 1;
        }
      }
    }
  }

  /** A sequence whose multiset lies inside a distinct sequence's multiset is distinct. */
  lemma SubMultisetDistinct(r: seq<int>, s: seq<int>)
    requires Distinct(s) && multiset(r) <= multiset(s)
    ensures Distinct(r)
  {
    DistinctMultiplicity(s);
    DistinctMultiplicity(r);
    forall v ensures multiset(r)[v] <= 1 {
      assert multiset(r)[v] <= multiset(s)[v];
    }
  }

  lemma ConcatDistinct(a: seq<int>, b: seq<int>)
    requires Distinct(a) && Distinct(b)
    requires forall x :: x in b ==> x !in a
    ensures Distinct(a + b)
  {
    var c := a + b;
    forall i, j | 0 <= i < j < |c| ensures c[i] != c[j] {
      if j >= |a| && i < |a| {
        assert c[j] in b;
      }
      if i >= |a| {
        assert c[i] == b[i - |a|] && c[j] == b[j - |a|];
      }
    }
  }
}
