/** Python's `collections.Counter` as the engine uses it. `Counter(xs)[v]`
    is the multiplicity of `v` in `xs`, which Dafny writes `multiset(xs)[v]`;
    `most_common` lists the keys by decreasing count, keys that tie in the
    order they were first inserted. */
module Tally {
  import opened Base
  import opened Sorting

  /** The sum of `Counter(xs)[v]` over v = lo..hi. */
  function SumCounts(xs: seq<int>, lo: int, hi: int): nat
    decreases hi - lo
  {
    if hi < lo then 0 else SumCounts(xs, lo, hi - 1) + multiset(xs)[hi]
  }

  lemma {:induction false} SumCountsAppend(xs: seq<int>, x: int, lo: int, hi: int)
    ensures SumCounts(xs + [x], lo, hi) == SumCounts(xs, lo, hi) + (if lo <= x <= hi then 1 else 0)
    decreases hi - lo
  {
    if hi >= lo {
      SumCountsAppend(xs, x, lo, hi - 1);
      assert multiset(xs + [x]) == multiset(xs) + multiset{x};
    }
  }

  lemma {:induction false} SumCountsEmpty(lo: int, hi: int)
    ensures SumCounts([], lo, hi) == 0
    decreases hi - lo
  {
    if hi >= lo {
      SumCountsEmpty(lo, hi - 1);
    }
  }

  /** When every tallied value lies in lo..hi, the counts over lo..hi add up
      to the number of values tallied. */
  lemma {:induction false} SumCountsTotal(xs: seq<int>, lo: int, hi: int)
    requires InRange(xs, lo, hi)
    ensures SumCounts(xs, lo, hi) == |xs|
  {
    if xs == [] {
      SumCountsEmpty(lo, hi);
    } else {
      var init := xs[..|xs| - 1];
      assert xs == init + [xs[|xs| - 1]];
      assert InRange(init, lo, hi) by {
        forall i | 0 <= i < |init| ensures lo <= init[i] <= hi {
          assert init[i] == xs[i];
        }
      }
      SumCountsTotal(init, lo, hi);
      SumCountsAppend(init, xs[|xs| - 1], lo, hi);
      assert lo <= xs[|xs| - 1] <= hi;
      assert SumCounts(xs, lo, hi) == SumCounts(init + [xs[|xs| - 1]], lo, hi);
    }
  }

  /** `Counter.get(v, 0)` on a dictionary of counts. */
  function Get(m: map<int, nat>, v: int): nat {
    if v in m then m[v] else 0
  }

  /** The keys of `Counter(xs)` in insertion order: each value at its first occurrence. */
  function Keys(xs: seq<int>): (r: seq<int>)
    ensures Distinct(r)
    ensures forall v :: v in r <==> v in xs
  {
    if xs == [] then []
    else
      var k := Keys(xs[..|xs| - 1]);
      var x := xs[|xs| - 1];
      assert xs == xs[..|xs| - 1] + [x];
      if x in k then k else k + [x]
  }

  /** Listed by decreasing `Counter(xs)` count. */
  predicate ByCount(t: seq<int>, xs: seq<int>) {
    forall i, j :: 0 <= i < j < |t| ==> multiset(xs)[t[i]] >= multiset(xs)[t[j]]
  }

  /** Inserts `v` in front of the first key whose count is not above its
      own, so that `v` precedes the keys it ties with. */
  function InsertByCount(v: int, t: seq<int>, xs: seq<int>): (r: seq<int>)
    requires ByCount(t, xs)
    ensures |r| == |t| + 1 && multiset(r) == multiset(t) + multiset{v}
    ensures ByCount(r, xs)
  {
    if t == [] || multiset(xs)[t[0]] <= multiset(xs)[v] then
      PrependByCount(v, t, xs);
      [v] + t
    else
      DropFirstByCount(t, xs);
      var u := InsertByCount(v, t[1..], xs);
      assert t == [t[0]] + t[1..];
      CountsBelow(u, t[1..], v, xs, multiset(xs)[t[0]]);
      PrependByCount(t[0], u, xs);
      [t[0]] + u
  }

  lemma DropFirstByCount(t: seq<int>, xs: seq<int>)
    requires ByCount(t, xs) && t != []
    ensures ByCount(t[1..], xs)
  {
    forall i, j | 0 <= i < j < |t[1..]| ensures multiset(xs)[t[1..][i]] >= multiset(xs)[t[1..][j]] {
      assert t[1..][i] == t[i + 1] && t[1..][j] == t[j + 1];
    }
  }

  /** A sequence holding the keys of `t` and `v` stays under a count that
      `v` and every key of `t` stay under. */
  lemma CountsBelow(u: seq<int>, t: seq<int>, v: int, xs: seq<int>, bound: nat)
    requires multiset(u) == multiset(t) + multiset{v}
    requires multiset(xs)[v] <= bound && forall m :: 0 <= m < |t| ==> multiset(xs)[t[m]] <= bound
    ensures forall k :: 0 <= k < |u| ==> multiset(xs)[u[k]] <= bound
  {
    forall k | 0 <= k < |u| ensures multiset(xs)[u[k]] <= bound {
      assert u[k] in multiset(u);
      if u[k] != v {
        assert u[k] in multiset(t);
        var m :| 0 <= m < |t| && t[m] == u[k];
      }
    }
  }

  lemma PrependByCount(a: int, u: seq<int>, xs: seq<int>)
    requires ByCount(u, xs) && forall k :: 0 <= k < |u| ==> multiset(xs)[u[k]] <= multiset(xs)[a]
    ensures ByCount([a] + u, xs)
  {
    var r := [a] + u;
    forall i, j | 0 <= i < j < |r| ensures multiset(xs)[r[i]] >= multiset(xs)[r[j]] {
      if i > 0 {
        assert r[i] == u[i - 1];
      }
      assert r[j] == u[j - 1];
    }
  }

  /** A stable sort of `keys` by decreasing count. */
  function RankByCount(keys: seq<int>, xs: seq<int>): (r: seq<int>)
    ensures |r| == |keys| && multiset(r) == multiset(keys)
    ensures ByCount(r, xs)
  {
    if keys == [] then []
    else
      assert keys == [keys[0]] + keys[1..];
      InsertByCount(keys[0], RankByCount(keys[1..], xs), xs)
  }

  /** `Counter(xs).most_common()`: every value that occurs, once, by
      decreasing count (a stable sort of the insertion-ordered keys). */
  function MostCommon(xs: seq<int>): (r: seq<int>)
    ensures Distinct(r)
    ensures forall v :: v in r <==> v in xs
    ensures forall i, j :: 0 <= i < j < |r| ==> multiset(xs)[r[i]] >= multiset(xs)[r[j]]
  {
    var k := Keys(xs);
    var r := RankByCount(k, xs);
    SubMultisetDistinct(r, k);
    assert forall v :: v in r <==> v in multiset(r);
    assert forall v :: v in k <==> v in multiset(k);
    r
  }

  /** `s[:n]`. */
  function Take(s: seq<int>, n: nat): (r: seq<int>)
    ensures |r| == if |s| <= n then |s| else n
    ensures forall x :: x in r ==> x in s
    ensures Distinct(s) ==> Distinct(r)
  {
    if |s| <= n then s else s[..n]
  }

  /** `s[-n:]` for n > 0. */
  function Last(s: seq<int>, n: nat): (r: seq<int>)
    ensures |r| == if |s| <= n then |s| else n
    ensures forall x :: x in r ==> x in s
    ensures Distinct(s) ==> Distinct(r)
  {
    if |s| <= n then s else s[|s| - n..]
  }

  /** `[num for num, count in Counter(xs).most_common(n)]`: at most n values,
      all of them occurring, none occurring more often outside the list. */
  lemma TopIsMostFrequent(xs: seq<int>, n: nat)
    ensures |Take(MostCommon(xs), n)| <= n
    ensures forall v :: v in Take(MostCommon(xs), n) ==> v in xs
    ensures |Take(MostCommon(xs), n)| < n ==> forall v :: v in xs ==> v in Take(MostCommon(xs), n)
    ensures forall v, w :: v in Take(MostCommon(xs), n) && w in xs && w !in Take(MostCommon(xs), n)
              ==> multiset(xs)[v] >= multiset(xs)[w]
  {
    var m := MostCommon(xs);
    var t := Take(m, n);
    forall v, w | v in t && w in xs && w !in t ensures multiset(xs)[v] >= multiset(xs)[w] {
      var i :| 0 <= i < |t| && t[i] == v;
      assert w in m;
      var j :| 0 <= j < |m| && m[j] == w;
      assert m[i] == v;
      assert forall k :: 0 <= k < |t| ==> m[k] == t[k];
    }
  }

  /** The kept values of `most_common(n)` come in order of decreasing count. */
  lemma TopRanked(xs: seq<int>, n: nat)
    ensures forall i, j :: 0 <= i < j < |Take(MostCommon(xs), n)| ==>
              multiset(xs)[Take(MostCommon(xs), n)[i]] >= multiset(xs)[Take(MostCommon(xs), n)[j]]
  {
    var m := MostCommon(xs);
    var t := Take(m, n);
    forall i, j | 0 <= i < j < |t| ensures multiset(xs)[t[i]] >= multiset(xs)[t[j]] {
      assert t[i] == m[i] && t[j] == m[j];
    }
  }

  /** `[num for num, count in Counter(xs).most_common()[-n:]]`: at most n
      values, none occurring less often outside the list. */
  lemma BottomIsLeastFrequent(xs: seq<int>, n: nat)
    ensures |Last(MostCommon(xs), n)| <= n
    ensures forall v :: v in Last(MostCommon(xs), n) ==> v in xs
    ensures |Last(MostCommon(xs), n)| < n ==> forall v :: v in xs ==> v in Last(MostCommon(xs), n)
    ensures forall v, w :: v in Last(MostCommon(xs), n) && w in xs && w !in Last(MostCommon(xs), n)
              ==> multiset(xs)[v] <= multiset(xs)[w]
  {
    var m := MostCommon(xs);
    var t := Last(m, n);
    forall v, w | v in t && w in xs && w !in t ensures multiset(xs)[v] <= multiset(xs)[w] {
      var i :| 0 <= i < |t| && t[i] == v;
      assert w in m;
      var j :| 0 <= j < |m| && m[j] == w;
      var off := |m| - |t|;
      assert m[off + i] == v;
      assert forall k :: off <= k < |m| ==> m[k] == t[k - off];
    }
  }

  /** The last n of the ranking keep its order: most frequent first. */
  lemma BottomRanked(xs: seq<int>, n: nat)
    ensures forall i, j :: 0 <= i < j < |Last(MostCommon(xs), n)| ==>
              multiset(xs)[Last(MostCommon(xs), n)[i]] >= multiset(xs)[Last(MostCommon(xs), n)[j]]
  {
    var m := MostCommon(xs);
    var t := Last(m, n);
    var off := |m| - |t|;
    assert t == m[off..];
    forall i, j | 0 <= i < j < |t| ensures multiset(xs)[t[i]] >= multiset(xs)[t[j]] {
      assert t[i] == m[off + i];
      assert t[j] == m[off + j];
    }
  }

  /** t is what `most_common(n)` lists of xs: at most n distinct values of
      xs, most frequent first, every value of xs when fewer than n, and no
      value left out occurring more often than one kept. */
  ghost predicate IsTop(xs: seq<int>, t: seq<int>, n: nat) {
    |t| <= n && Distinct(t) &&
    (forall v :: v in t ==> v in xs) &&
    (|t| < n ==> forall v :: v in xs ==> v in t) &&
    (forall v, w :: v in t && w in xs && w !in t ==> multiset(xs)[v] >= multiset(xs)[w]) &&
    (forall i, j :: 0 <= i < j < |t| ==> multiset(xs)[t[i]] >= multiset(xs)[t[j]])
  }

  /** t is what `most_common()[-n:]` lists of xs: the same, except that no
      value left out occurs less often than one kept. */
  ghost predicate IsBottom(xs: seq<int>, t: seq<int>, n: nat) {
    |t| <= n && Distinct(t) &&
    (forall v :: v in t ==> v in xs) &&
    (|t| < n ==> forall v :: v in xs ==> v in t) &&
    (forall v, w :: v in t && w in xs && w !in t ==> multiset(xs)[v] <= multiset(xs)[w]) &&
    (forall i, j :: 0 <= i < j < |t| ==> multiset(xs)[t[i]] >= multiset(xs)[t[j]])
  }

  lemma MostCommonTop(xs: seq<int>, n: nat)
    ensures IsTop(xs, Take(MostCommon(xs), n), n)
  {
    TopIsMostFrequent(xs, n);
    TopRanked(xs, n);
  }

  lemma MostCommonBottom(xs: seq<int>, n: nat)
    ensures IsBottom(xs, Last(MostCommon(xs), n), n)
  {
    BottomIsLeastFrequent(xs, n);
    BottomRanked(xs, n);
  }
}
