/** heat_index_rankings.py: one record per number with its count, z-score,
    a 0-100 heat index and a seven-band category, ranked by heat index. */
module Heat {
  import opened Base
  import opened Sorting
  import opened Tally
  import opened HotCold

  /** `max(0, min(100, 50 + z * 16.67))`: z = +3 is about 100, z = -3 about 0. */
  function HeatIndex(z: real): (h: real)
    ensures 0.0 <= h <= 100.0
    ensures z == 0.0 ==> h == 50.0
    ensures 0.0 < h < 100.0 ==> h == 50.0 + z * 16.67
    ensures 0.0 < 50.0 + z * 16.67 < 100.0 ==> h == 50.0 + z * 16.67
    ensures 50.0 + z * 16.67 >= 100.0 ==> h == 100.0
    ensures 50.0 + z * 16.67 <= 0.0 ==> h == 0.0
  {
    var raw := 50.0 + z * 16.67;
    var capped := if raw < 100.0 then raw else 100.0;
    if capped > 0.0 then capped else 0.0
  }

  lemma HeatIndexMonotone(z1: real, z2: real)
    requires z1 <= z2
    ensures HeatIndex(z1) <= HeatIndex(z2)
  {
    assert z1 * 16.67 <= z2 * 16.67;
  }

  datatype Category = BlazingHot | Hot | Warm | Neutral | Cool | Cold | Freezing

  /** `get_heat_category`: the first threshold z reaches, from the top. */
  function CategoryOf(z: real): Category {
    if z >= 2.0 then BlazingHot
    else if z >= 1.0 then Hot
    else if z >= 0.5 then Warm
    else if z >= -0.5 then Neutral
    else if z >= -1.0 then Cool
    else if z >= -2.0 then Cold
    else Freezing
  }

  /** The bands from coldest (0) to hottest (6). */
  function Rank(c: Category): nat {
    match c
    case Freezing => 0
    case Cold => 1
    case Cool => 2
    case Neutral => 3
    case Warm => 4
    case Hot => 5
    case BlazingHot => 6
  }

  /** Each band as a half-open interval of z-scores. */
  predicate InBand(z: real, c: Category) {
    match c
    case BlazingHot => 2.0 <= z
    case Hot => 1.0 <= z < 2.0
    case Warm => 0.5 <= z < 1.0
    case Neutral => -0.5 <= z < 0.5
    case Cool => -1.0 <= z < -0.5
    case Cold => -2.0 <= z < -1.0
    case Freezing => z < -2.0
  }

  /** The cascade puts z in the band that contains it, and in no other. */
  lemma CategoryIsBand(z: real, c: Category)
    ensures CategoryOf(z) == c <==> InBand(z, c)
  {
  }

  lemma CategoryMonotone(z1: real, z2: real)
    requires z1 <= z2
    ensures Rank(CategoryOf(z1)) <= Rank(CategoryOf(z2))
  {
  }

  lemma CategoryBoundaries()
    ensures CategoryOf(2.0) == BlazingHot && CategoryOf(-2.0) == Cold && CategoryOf(0.0) == Neutral
    ensures forall z :: z < -2.0 ==> CategoryOf(z) == Freezing
  {
  }

  /** One row of the table: `number`, `frequency`, `expected`,
      `deviation`, `percentage`, `z_score`, `heat_index`, `category`. */
  datatype HeatRecord = HeatRecord(
    number: int, frequency: nat, expected: real, deviation: real,
    percentage: real, zScore: real, heatIndex: real, category: Category)

  function HeatKey(r: HeatRecord): real { r.heatIndex }
  function NumberOf(r: HeatRecord): int { r.number }
  function FrequencyOf(r: HeatRecord): real { r.frequency as real }
  function DeviationOf(r: HeatRecord): real { r.deviation }

  /** The record the loop body appends for `num`. */
  function Record(balls: seq<int>, domain: nat, root: real, num: int): HeatRecord
    requires |balls| > 0 && domain > 0 && root > 0.0
  {
    var observed := multiset(balls)[num];
    var expected := Expected(|balls|, domain);
    var z := ZScore(observed, expected, root);
    HeatRecord(num, observed, expected, observed as real - expected,
               observed as real / |balls| as real * 100.0, z, HeatIndex(z), CategoryOf(z))
  }

  /** The fields of a record agree with each other as the loop computes them. */
  predicate Consistent(r: HeatRecord) {
    r.deviation == r.frequency as real - r.expected
    && r.heatIndex == HeatIndex(r.zScore) && r.category == CategoryOf(r.zScore)
  }

  /** The records of 1..n in the order appended. */
  function Records(balls: seq<int>, domain: nat, root: real, n: nat): (r: seq<HeatRecord>)
    requires |balls| > 0 && domain > 0 && root > 0.0
    ensures |r| == n
    ensures forall i :: 0 <= i < n ==> r[i] == Record(balls, domain, root, i + 1)
  {
    seq(n, i requires 0 <= i < n => Record(balls, domain, root, i + 1))
  }

  /** The finished table: the records of 1..domain after
      `sort(key=heat_index, reverse=True)`. */
  function HeatTable(balls: seq<int>, domain: nat, root: real): seq<HeatRecord>
    requires |balls| > 0 && domain > 0 && root > 0.0
  {
    SortBy(Records(balls, domain, root, domain), HeatKey)
  }

  /** What the loop body computes for one number: consistent fields, and
      a z-score with the sign of observed minus expected, so that a number
      drawn exactly as often as expected scores 0, heat 50 and NEUTRAL. */
  lemma RecordFacts(balls: seq<int>, domain: nat, root: real, num: int)
    requires |balls| > 0 && domain > 0 && root > 0.0
    ensures var r := Record(balls, domain, root, num);
      Consistent(r) && r.number == num && r.frequency == multiset(balls)[num]
      && (r.frequency as real == r.expected ==> r.zScore == 0.0 && r.heatIndex == 50.0 && r.category == Neutral)
      && (r.zScore > 0.0 <==> r.frequency as real > r.expected)
      && (r.zScore < 0.0 <==> r.frequency as real < r.expected)
  {
  }

  /** Every row of the table is one of the records of 1..domain. */
  lemma HeatTableRows(balls: seq<int>, domain: nat, root: real)
    requires |balls| > 0 && domain > 0 && root > 0.0
    ensures forall r :: r in HeatTable(balls, domain, root) ==>
      1 <= r.number <= domain && r == Record(balls, domain, root, r.number)
  {
    var s := Records(balls, domain, root, domain);
    forall r | r in HeatTable(balls, domain, root)
      ensures 1 <= r.number <= domain && r == Record(balls, domain, root, r.number)
    {
      assert r in multiset(SortBy(s, HeatKey));
      assert r in multiset(s);
      var i :| 0 <= i < |s| && s[i] == r;
      assert r == Record(balls, domain, root, i + 1);
    }
  }

  /** Exactly one record per number 1..domain. */
  lemma HeatTableNumbers(balls: seq<int>, domain: nat, root: real)
    requires |balls| > 0 && domain > 0 && root > 0.0
    ensures |HeatTable(balls, domain, root)| == domain
    ensures multiset(Project(HeatTable(balls, domain, root), NumberOf)) == multiset(Interval(1, domain))
  {
    var s := Records(balls, domain, root, domain);
    SortByProject(s, HeatKey, NumberOf);
    assert Project(s, NumberOf) == Interval(1, domain);
  }

  /** Ranking: descending heat index, and numbers that tie in ascending
      order, since the sort is stable and records were appended 1, 2, .... */
  lemma HeatTableOrder(balls: seq<int>, domain: nat, root: real)
    requires |balls| > 0 && domain > 0 && root > 0.0
    ensures LexDescending(HeatTable(balls, domain, root), HeatKey, NumberOf)
  {
    SortByLex(Records(balls, domain, root, domain), HeatKey, NumberOf);
  }

  lemma RecordsStep(balls: seq<int>, domain: nat, root: real, n: nat)
    requires |balls| > 0 && domain > 0 && root > 0.0 && n > 0
    ensures Records(balls, domain, root, n) == Records(balls, domain, root, n - 1) + [Record(balls, domain, root, n)]
  {
  }

  lemma {:induction false} FrequencySums(balls: seq<int>, domain: nat, root: real, n: nat)
    requires |balls| > 0 && domain > 0 && root > 0.0
    ensures SumBy(Records(balls, domain, root, n), FrequencyOf) == SumCounts(balls, 1, n) as real
  {
    if n == 0 {
      assert Records(balls, domain, root, n) == [];
    } else {
      var init := Records(balls, domain, root, n - 1);
      var last := Record(balls, domain, root, n);
      RecordsStep(balls, domain, root, n);
      FrequencySums(balls, domain, root, n - 1);
      SumByAppend(init, last, FrequencyOf);
      assert FrequencyOf(last) == multiset(balls)[n] as real;
    }
  }

  lemma DeviationSums(balls: seq<int>, domain: nat, root: real, n: nat)
    requires |balls| > 0 && domain > 0 && root > 0.0
    ensures SumBy(Records(balls, domain, root, n), DeviationOf)
              == SumCounts(balls, 1, n) as real - Copies(n, Expected(|balls|, domain))
  {
    var s := Records(balls, domain, root, n);
    var e := Expected(|balls|, domain);
    forall i | 0 <= i < |s| ensures s[i].deviation == multiset(balls)[i + 1] as real - e {
      assert s[i] == Record(balls, domain, root, i + 1);
    }
    DeviationTotal(s, balls, e);
  }

  /** `n` copies of `e` added up. */
  function Copies(n: nat, e: real): real {
    if n == 0 then 0.0 else Copies(n - 1, e) + e
  }

  lemma {:induction false} CopiesIsProduct(n: nat, e: real)
    ensures Copies(n, e) == n as real * e
  {
    if n > 0 {
      CopiesIsProduct(n - 1, e);
    }
  }

  /** `domain` expected counts add up to the total. */
  lemma CopiesOfExpected(total: nat, domain: nat)
    requires domain > 0
    ensures Copies(domain, Expected(total, domain)) == total as real
  {
    var e := Expected(total, domain);
    CopiesIsProduct(domain, e);
    assert domain as real * e == e * domain as real;
  }

  /** Records whose deviations are count minus `e`, for 1, 2, ..., add up
      to the total count minus one `e` per record. */
  lemma {:induction false} DeviationTotal(s: seq<HeatRecord>, balls: seq<int>, e: real)
    requires forall i :: 0 <= i < |s| ==> s[i].deviation == multiset(balls)[i + 1] as real - e
    ensures SumBy(s, DeviationOf) == SumCounts(balls, 1, |s|) as real - Copies(|s|, e)
  {
    if s != [] {
      var n := |s|;
      var init := s[..n - 1];
      DeviationTotal(init, balls, e);
      assert s == init + [s[n - 1]];
      SumByAppend(init, s[n - 1], DeviationOf);
    }
  }

  /** When every tallied ball is in the domain, the frequencies add up to
      the number of balls and the deviations from the expected count to 0. */
  lemma HeatTableSums(balls: seq<int>, domain: nat, root: real)
    requires |balls| > 0 && domain > 0 && root > 0.0
    requires InRange(balls, 1, domain)
    ensures SumBy(HeatTable(balls, domain, root), FrequencyOf) == |balls| as real
    ensures SumBy(HeatTable(balls, domain, root), DeviationOf) == 0.0
  {
    var s := Records(balls, domain, root, domain);
    SortBySum(s, HeatKey, FrequencyOf);
    SortBySum(s, HeatKey, DeviationOf);
    FrequencySums(balls, domain, root, domain);
    DeviationSums(balls, domain, root, domain);
    CopiesOfExpected(|balls|, domain);
    SumCountsTotal(balls, 1, domain);
  }

  /** `[data for data in table if data['heat_index'] > 70]`. */
  function HottestRows(table: seq<HeatRecord>): (r: seq<HeatRecord>)
    ensures forall x :: x in r <==> x in table && x.heatIndex > 70.0
  {
    if table == [] then []
    else if table[0].heatIndex > 70.0 then [table[0]] + HottestRows(table[1..])
    else HottestRows(table[1..])
  }

  /** `[data for data in table if data['heat_index'] < 30]`. */
  function ColdestRows(table: seq<HeatRecord>): (r: seq<HeatRecord>)
    ensures forall x :: x in r <==> x in table && x.heatIndex < 30.0
  {
    if table == [] then []
    else if table[0].heatIndex < 30.0 then [table[0]] + ColdestRows(table[1..])
    else ColdestRows(table[1..])
  }

  /** The two lists never share a row; on consistent rows a heat index
      above 70 means a z-score above 1 (HOT or BLAZING HOT) and one below
      30 a z-score below -1 (COLD or FREEZING). */
  lemma HottestColdest(table: seq<HeatRecord>)
    requires forall x :: x in table ==> Consistent(x)
    ensures forall x :: x in HottestRows(table) ==> x !in ColdestRows(table)
    ensures forall x :: x in HottestRows(table) ==> x.zScore > 1.0 && x.category in {Hot, BlazingHot}
    ensures forall x :: x in ColdestRows(table) ==> x.zScore < -1.0 && x.category in {Cold, Freezing}
  {
    forall x | x in HottestRows(table) ensures x.zScore > 1.0 {
      if x.zScore <= 1.0 {
        HeatIndexMonotone(x.zScore, 1.0);
      }
    }
    forall x | x in ColdestRows(table) ensures x.zScore < -1.0 {
      if x.zScore >= -1.0 {
        HeatIndexMonotone(-1.0, x.zScore);
      }
    }
  }

  /** The ranking object: the tallied balls and the two tables built from them. */
  class HeatIndexRankings {
    var whiteBalls: seq<int>
    var powerballs: seq<int>
    var whiteHeatData: seq<HeatRecord>
    var pbHeatData: seq<HeatRecord>

    /** `__init__`: the history stands for the loaded file. */
    constructor(draws: seq<Draw>, whiteRoot: real, pbRoot: real)
      requires ValidHistory(draws) && draws != []
      requires Ready(Flatten(draws), WhiteMax, whiteRoot) && Ready(Powerballs(draws), PowerMax, pbRoot)
      ensures whiteBalls == Flatten(draws) && powerballs == Powerballs(draws)
      ensures whiteHeatData == HeatTable(whiteBalls, WhiteMax, whiteRoot)
      ensures pbHeatData == HeatTable(powerballs, PowerMax, pbRoot)
    {
      whiteBalls := Flatten(draws);
      powerballs := Powerballs(draws);
      whiteHeatData := [];
      pbHeatData := [];
      new;
      var ok := CalculateHeatIndex(whiteRoot, pbRoot);
    }

    /** `calculate_heat_index`. The percentage divides by the number of
        balls tallied, so an empty tally raises in the first iteration of
        its loop, after the table was reset and before anything is sorted;
        `ok` is false then. */
    method CalculateHeatIndex(whiteRoot: real, pbRoot: real) returns (ok: bool)
      requires Ready(whiteBalls, WhiteMax, whiteRoot) && Ready(powerballs, PowerMax, pbRoot)
      modifies this
      ensures whiteBalls == old(whiteBalls) && powerballs == old(powerballs)
      ensures ok <==> |whiteBalls| > 0 && |powerballs| > 0
      ensures ok ==> (whiteHeatData == HeatTable(whiteBalls, WhiteMax, whiteRoot)
                      && pbHeatData == HeatTable(powerballs, PowerMax, pbRoot))
      ensures |whiteBalls| == 0 ==> whiteHeatData == [] && pbHeatData == old(pbHeatData)
      ensures |whiteBalls| > 0 && |powerballs| == 0 ==>
                whiteHeatData == Records(whiteBalls, WhiteMax, whiteRoot, WhiteMax) && pbHeatData == []
    {
      var white, pbs := whiteBalls, powerballs;
      whiteHeatData := [];
      if |white| == 0 {
        return false;
      }
      var num := 1;
      while num <= WhiteMax
        invariant 1 <= num <= WhiteMax + 1
        invariant whiteBalls == white && powerballs == pbs
        invariant whiteHeatData == Records(white, WhiteMax, whiteRoot, num - 1)
      {
        whiteHeatData := whiteHeatData + [Record(white, WhiteMax, whiteRoot, num)];
        num := num + 1;
      }
      pbHeatData := [];
      if |pbs| == 0 {
        return false;
      }
      num := 1;
      while num <= PowerMax
        invariant 1 <= num <= PowerMax + 1
        invariant whiteBalls == white && powerballs == pbs
        invariant whiteHeatData == Records(white, WhiteMax, whiteRoot, WhiteMax)
        invariant pbHeatData == Records(pbs, PowerMax, pbRoot, num - 1)
      {
        pbHeatData := pbHeatData + [Record(pbs, PowerMax, pbRoot, num)];
        num := num + 1;
      }
      whiteHeatData := SortBy(whiteHeatData, HeatKey);
      pbHeatData := SortBy(pbHeatData, HeatKey);
      ok := true;
    }
  }
}
