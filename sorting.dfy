/** Python's sorting as the engine uses it: `list.sort(key=k, reverse=True)`
    and `sorted(...)`. Python's sort is stable, also with `reverse=True`, so
    records that tie on the key keep their original relative order; the
    insertion sort below has the same behaviour. */
module Sorting {
  import opened Base

  predicate DescendingBy<T>(s: seq<T>, key: T -> real) {
    forall i, j :: 0 <= i < j < |s| ==> key(s[i]) >= key(s[j])
  }

  /** Descending by `key`; among equal keys, increasing by `tie`. */
  predicate LexDescending<T>(s: seq<T>, key: T -> real, tie: T -> int) {
    forall i, j :: 0 <= i < j < |s| ==>
      key(s[i]) > key(s[j]) || (key(s[i]) == key(s[j]) && tie(s[i]) < tie(s[j]))
  }

  /** A sequence holding the elements of `t` and `x` stays under a bound
      that `x` and every element of `t` stay under. */
  lemma BoundedByMultiset<T>(u: seq<T>, t: seq<T>, x: T, key: T -> real, bound: real)
    requires multiset(u) == multiset(t) + multiset{x}
    requires key(x) <= bound && forall m :: 0 <= m < |t| ==> key(t[m]) <= bound
    ensures forall k :: 0 <= k < |u| ==> key(u[k]) <= bound
  {
    forall k | 0 <= k < |u| ensures key(u[k]) <= bound {
      assert u[k] in multiset(u);
      if u[k] != x {
        assert u[k] in multiset(t);
        var m :| 0 <= m < |t| && t[m] == u[k];
      }
    }
  }

  /** Inserts `x` in front of the first element whose key is not greater
      than its own, so that `x` precedes the elements it ties with. */
  function InsertBy<T>(x: T, t: seq<T>, key: T -> real): (r: seq<T>)
    requires DescendingBy(t, key)
    ensures |r| == |t| + 1 && multiset(r) == multiset(t) + multiset{x}
    ensures DescendingBy(r, key)
  {
    if t == [] || key(t[0]) <= key(x) then [x] + t
    else
      var u := InsertBy(x, t[1..], key);
      InsertStep(x, t, u, key);
      [t[0]] + u
  }

  /** The head of `t` goes back in front of `x` inserted into the rest. */
  lemma InsertStep<T>(x: T, t: seq<T>, u: seq<T>, key: T -> real)
    requires t != [] && key(t[0]) > key(x) && DescendingBy(t, key)
    requires DescendingBy(u, key) && |u| == |t| && multiset(u) == multiset(t[1..]) + multiset{x}
    ensures multiset([t[0]] + u) == multiset(t) + multiset{x}
    ensures DescendingBy([t[0]] + u, key)
  {
    assert t == [t[0]] + t[1..];
    BoundedByMultiset(u, t[1..], x, key, key(t[0]));
  }

  /** `sorted(s, key=key, reverse=True)`: stable, descending by key. */
  function SortBy<T>(s: seq<T>, key: T -> real): (r: seq<T>)
    ensures |r| == |s| && multiset(r) == multiset(s)
    ensures DescendingBy(r, key)
  {
    if s == [] then []
    else
      assert s == [s[0]] + s[1..];
      InsertBy(s[0], SortBy(s[1..], key), key)
  }

  /** Putting in front an element that is lexicographically first keeps the order. */
  lemma PrependLex<T>(x: T, t: seq<T>, key: T -> real, tie: T -> int)
    requires LexDescending(t, key, tie)
    requires forall y :: y in t ==> key(x) > key(y) || (key(x) == key(y) && tie(x) < tie(y))
    ensures LexDescending([x] + t, key, tie)
  {
    var r := [x] + t;
    forall i, j | 0 <= i < j < |r|
      ensures key(r[i]) > key(r[j]) || (key(r[i]) == key(r[j]) && tie(r[i]) < tie(r[j]))
    {
      assert r[j] == t[j - 1];
      if i > 0 {
        assert r[i] == t[i - 1];
      } else {
        assert r[j] in t;
      }
    }
  }

  lemma {:induction false} InsertLex<T>(x: T, t: seq<T>, key: T -> real, tie: T -> int)
    requires DescendingBy(t, key) && LexDescending(t, key, tie)
    requires forall y :: y in t ==> tie(x) < tie(y)
    ensures LexDescending(InsertBy(x, t, key), key, tie)
  {
    if t != [] && key(t[0]) > key(x) {
      assert forall y :: y in t[1..] ==> y in t;
      InsertLex(x, t[1..], key, tie);
      var u := InsertBy(x, t[1..], key);
      HeadBeforeRest(x, t, u, key, tie);
      PrependLex(t[0], u, key, tie);
    } else {
      forall y | y in t ensures key(x) > key(y) || (key(x) == key(y) && tie(x) < tie(y)) {
        var m :| 0 <= m < |t| && t[m] == y;
        assert key(t[0]) >= key(t[m]) || m == 0;
      }
      PrependLex(x, t, key, tie);
    }
  }

  /** The head of `t` comes lexicographically before `x` and the rest of `t`. */
  lemma HeadBeforeRest<T>(x: T, t: seq<T>, u: seq<T>, key: T -> real, tie: T -> int)
    requires t != [] && key(t[0]) > key(x) && LexDescending(t, key, tie)
    requires multiset(u) == multiset(t[1..]) + multiset{x}
    ensures forall y :: y in u ==> key(t[0]) > key(y) || (key(t[0]) == key(y) && tie(t[0]) < tie(y))
  {
    forall y | y in u ensures key(t[0]) > key(y) || (key(t[0]) == key(y) && tie(t[0]) < tie(y)) {
      assert y in multiset(u);
      if y != x {
        assert y in multiset(t[1..]);
        var m :| 0 <= m < |t[1..]| && t[1..][m] == y;
        assert t[m + 1] == y;
      }
    }
  }

  /** Stability: when the input is strictly increasing in `tie` (records
      appended in ascending number order), the stable descending sort orders
      equal keys by increasing `tie`. */
  lemma {:induction false} SortByLex<T>(s: seq<T>, key: T -> real, tie: T -> int)
    requires forall i, j :: 0 <= i < j < |s| ==> tie(s[i]) < tie(s[j])
    ensures LexDescending(SortBy(s, key), key, tie)
  {
    if s != [] {
      SortByLex(s[1..], key, tie);
      var t := SortBy(s[1..], key);
      forall y | y in t ensures tie(s[0]) < tie(y) {
        assert y in multiset(t);
        assert y in multiset(s[1..]);
        var m :| 0 <= m < |s[1..]| && s[1..][m] == y;
        assert s[m + 1] == y;
      }
      InsertLex(s[0], t, key, tie);
    }
  }

  function Negated(x: int): real {
    -(x as real)
  }

  /** `sorted(s)` on integers: an ascending permutation; strictly ascending
      when the input has no repeated value. */
  function SortAsc(s: seq<int>): (r: seq<int>)
    ensures |r| == |s| && multiset(r) == multiset(s)
    ensures Ascending(r)
    ensures Distinct(s) ==> Distinct(r) && StrictlyAscending(r)
  {
    var r := SortBy(s, Negated);
    assert forall i, j :: 0 <= i < j < |r| ==> Negated(r[i]) >= Negated(r[j]);
    if Distinct(s) then
      SubMultisetDistinct(r, s);
      r
    else r
  }

  lemma SortAscSameElements(s: seq<int>)
    ensures forall x :: x in SortAsc(s) <==> x in s
  {
    var r := SortAsc(s);
    forall x ensures x in r <==> x in s {
      assert x in r <==> x in multiset(r);
      assert x in s <==> x in multiset(s);
    }
  }

  /** The sum of a field over a list of records. */
  function SumBy<T>(s: seq<T>, f: T -> real): real {
    if s == [] then 0.0 else f(s[0]) + SumBy(s[1..], f)
  }

  lemma {:induction false} SumByAppend<T>(s: seq<T>, x: T, f: T -> real)
    ensures SumBy(s + [x], f) == SumBy(s, f) + f(x)
  {
    if s == [] {
      assert s + [x] == [x];
    } else {
      assert (s + [x])[0] == s[0] && (s + [x])[1..] == s[1..] + [x];
      SumByAppend(s[1..], x, f);
    }
  }

  lemma {:induction false} InsertBySum<T>(x: T, t: seq<T>, key: T -> real, f: T -> real)
    requires DescendingBy(t, key)
    ensures SumBy(InsertBy(x, t, key), f) == SumBy(t, f) + f(x)
  {
    if t == [] || key(t[0]) <= key(x) {
      assert ([x] + t)[1..] == t;
    } else {
      InsertBySum(x, t[1..], key, f);
      assert ([t[0]] + InsertBy(x, t[1..], key))[1..] == InsertBy(x, t[1..], key);
    }
  }

  /** Sorting moves records around without changing the sum of any field. */
  lemma {:induction false} SortBySum<T>(s: seq<T>, key: T -> real, f: T -> real)
    ensures SumBy(SortBy(s, key), f) == SumBy(s, f)
  {
    if s != [] {
      SortBySum(s[1..], key, f);
      InsertBySum(s[0], SortBy(s[1..], key), key, f);
    }
  }

  /** The list of one integer field of a list of records. */
  function Project<T>(s: seq<T>, f: T -> int): (r: seq<int>)
    ensures |r| == |s|
    ensures forall i :: 0 <= i < |s| ==> r[i] == f(s[i])
  {
    seq(|s|, i requires 0 <= i < |s| => f(s[i]))
  }

  lemma {:induction false} InsertByProject<T>(x: T, t: seq<T>, key: T -> real, f: T -> int)
    requires DescendingBy(t, key)
    ensures multiset(Project(InsertBy(x, t, key), f)) == multiset(Project(t, f)) + multiset{f(x)}
  {
    if t == [] || key(t[0]) <= key(x) {
      ProjectCons(x, t, f);
    } else {
      InsertByProject(x, t[1..], key, f);
      var u := InsertBy(x, t[1..], key);
      ProjectCons(t[0], u, f);
      ProjectHead(t, f);
    }
  }

  lemma ProjectCons<T>(x: T, s: seq<T>, f: T -> int)
    ensures multiset(Project([x] + s, f)) == multiset{f(x)} + multiset(Project(s, f))
  {
    assert Project([x] + s, f) == [f(x)] + Project(s, f);
  }

  /** Sorting records permutes each of their fields. */
  lemma {:induction false} SortByProject<T>(s: seq<T>, key: T -> real, f: T -> int)
    ensures multiset(Project(SortBy(s, key), f)) == multiset(Project(s, f))
  {
    if s != [] {
      var t := SortBy(s[1..], key);
      SortByProject(s[1..], key, f);
      InsertByProject(s[0], t, key, f);
      ProjectHead(s, f);
    }
  }

  lemma ProjectHead<T>(s: seq<T>, f: T -> int)
    requires |s| > 0
    ensures multiset(Project(s, f)) == multiset{f(s[0])} + multiset(Project(s[1..], f))
  {
    assert Project(s, f) == [f(s[0])] + Project(s[1..], f);
  }
}
