# Powerball pattern engine, modelled in Dafny

The repository analyses historical Powerball draws and proposes new tickets.
Each draw has five distinct white balls in 1..69 and one powerball in 1..26.
Several near-duplicate Python scripts share one engine. This project models
that engine once and records where the scripts differ:

- **Per-draw features** of the advanced pattern analyzers: sum, range,
  even/odd counts, consecutive pairs, sorted gaps and their variance,
  low/high ratio, prime and Fibonacci counts. Also the longest
  consecutive run, the per-position tallies, the gap list, and the
  best-k rule of the clustering sweep (`Features`).
- **Counting** as `collections.Counter` does it: counts, `most_common`
  with its insertion-order tie-break, and `[:n]` / `[-n:]` (`Tally`).
  Python's stable sort is modelled in `Sorting`.
- **Z-score classification** into hot and cold numbers, which every
  generator and the pattern summary run (`HotCold`). Also the heat-index
  table with its 0-100 clamp, its seven-band category cascade and its
  stable ranking (`Heat`).
- **The random choices** the generators make, and the selection loops
  they share (`Sampler`, `Strategies`). Randomness is a parameter: a
  stream of naturals, one entry per call into `random`.
- **The four generator classes**, each with its fields and strategies:
  `Intelligent.IntelligentGenerator`, `Final.FinalGenerator`,
  `Ultimate.UltimateGenerator` and `Smart.SmartGenerator`.
- **The tallies of the basic analyzer**: full and recent counts, draws
  with consecutive numbers, even/odd labels, sum buckets and decade
  buckets (`Analyzer`).

Some failures are modelled as `Result` errors:

- `random.sample` asked for more values than its list holds;
- `random.choice` on an empty list;
- a rejection loop whose supply of choices ran out.

`np.sqrt` of an expected count is not computed. A caller supplies
`root` with `root * root == expected`, so z-scores, the heat index and
the category cascade are exact real arithmetic.

The helper functions of advanced_pattern_summary.py (lines 74-103) are the
same code as those of advanced_pattern_analyzer.py (lines 83-112). They
are modelled once. The two best-k sweeps differ only in the initial k
(3 and 2), which is a parameter of `Features.SelectBestK`.

## Model

| member | source | states |
|---|---|---|
| Base.Flatten | lottery_analyzer.py:41 | all white balls row by row; five per draw when every draw has five |
| Base.Powerballs | lottery_analyzer.py:42 | the powerball column, one entry per draw, in draw order |
| Base.FlattenInRange | lottery_analyzer.py:37-41 | every tallied white ball of a valid history lies in 1..69 |
| Base.Interval | smart_lottery_generator.py:89 | `range(lo, hi + 1)`: exactly the integers lo..hi, ascending, of length hi - lo + 1 |
| Base.Without | smart_lottery_generator.py:90 | the comprehension `if num not in white_balls`: an element is kept iff it is in s and not avoided |
| Base.Available | smart_lottery_generator.py:89-90 | the unchosen white balls: at least 69 minus the number chosen |
| Base.AvailableMembers | smart_lottery_generator.py:89-90 | a ball is available iff it is in 1..69 and not chosen |
| Base.AvailableAscending | smart_lottery_generator.py:89-90 | the available list is strictly ascending, so without repeats |
| Sorting.SortBy | heat_index_rankings.py:106-107 | `sort(key, reverse=True)`: a permutation, descending by key |
| Sorting.SortByLex | heat_index_rankings.py:106-107 | stability: records appended in increasing tie order keep it among equal keys |
| Sorting.SortBySum | heat_index_rankings.py:106-107 | sorting records keeps the sum of every field |
| Sorting.SortByProject | heat_index_rankings.py:106-107 | sorting records permutes each integer field |
| Sorting.SortAsc | smart_lottery_generator.py:96 | `sorted(white_balls)`: an ascending permutation, strictly ascending when there are no repeats |
| Sorting.SortAscSameElements | smart_lottery_generator.py:96 | sorting keeps exactly the same members |
| Features.SortAscIdempotent | lottery_analyzer.py:119 | sorting an already sorted list changes nothing |
| Tally.SumCountsTotal | lottery_analyzer.py:63 | when every value lies in lo..hi, the Counter's counts over lo..hi add up to the number of values |
| Tally.Keys | lottery_analyzer.py:63 | the Counter's keys: without repeats, exactly the values that occur |
| Tally.RankByCount | lottery_analyzer.py:67 | a permutation of the keys, ordered by decreasing count |
| Tally.MostCommon | lottery_analyzer.py:67 | `most_common()`: each occurring value once, by non-increasing count |
| Tally.Take | lottery_analyzer.py:67 | `[:n]`: min(n, len) entries, all from the list, no repeats added |
| Tally.Last | lottery_analyzer.py:71 | `[-n:]`: min(n, len) entries, all from the list, no repeats added |
| Tally.TopIsMostFrequent | lottery_analyzer.py:67 | `most_common(n)`: at most n occurring values; all values if fewer than n are kept; none left out occurs more often than one kept |
| Tally.TopRanked | lottery_analyzer.py:67 | `most_common(n)` lists its values in order of decreasing count |
| Tally.BottomIsLeastFrequent | lottery_analyzer.py:71 | `most_common()[-n:]`: at most n occurring values; all values if fewer than n are kept; none left out occurs less often than one kept |
| Tally.BottomRanked | lottery_analyzer.py:71 | `most_common()[-n:]` keeps the ranking's order of decreasing count |
| Tally.MostCommonTop | lottery_analyzer.py:67 | `most_common(n)` meets `IsTop`: at most n distinct occurring values, complete when fewer than n, ranked, and none left out more frequent than one kept |
| Tally.MostCommonBottom | lottery_analyzer.py:71 | `most_common()[-n:]` meets `IsBottom`: the same, with none left out less frequent than one kept |
| Features.Sum | advanced_pattern_analyzer.py:56 | `Sum`: for balls in 1..69, between len and 69 * len |
| Features.Count | advanced_pattern_analyzer.py:60 | `sum(1 for num in x if p(num))`: at most the length |
| Features.CountExtremes | advanced_pattern_analyzer.py:60 | the count is 0 iff no ball has the property, and the full length iff every ball has it |
| Features.CountComplement | advanced_pattern_analyzer.py:60-61 | counting a property and its negation splits the draw |
| Features.OddCountIsOdd | advanced_pattern_analyzer.py:60-61 | for five balls Even_Count is in 0..5 and `5 - Even_Count` is the number of odd balls |
| Features.Gaps | advanced_pattern_analyzer.py:95 | the gaps list: len - 1 entries, each the difference of neighbours |
| Features.GapsTelescope | advanced_pattern_analyzer.py:92-96 | the gaps add up to last minus first |
| Features.GapsPositive | advanced_pattern_analyzer.py:92-96 | gaps of a strictly ascending list are all at least 1 |
| Features.Spread | advanced_pattern_analyzer.py:59 | `max(x) - min(x)`: non-negative, bounds every difference of balls, attained by one |
| Features.SortedEnds | advanced_pattern_analyzer.py:59 | the first and last sorted balls are the minimum and maximum of the draw |
| Features.GapsSumToSpread | advanced_pattern_analyzer.py:92-96 | the sorted gaps add up to the Range feature |
| Features.SpreadBounds | advanced_pattern_analyzer.py:59 | for a valid draw Range is the gap sum and lies in 4..68 |
| Features.CountConsecutivePairs | advanced_pattern_analyzer.py:83-90 | the loop counts sorted neighbours differing by 1, at most len - 1 (also advanced_pattern_summary.py:74-81) |
| Features.NoPairs | advanced_pattern_analyzer.py:83-90 | the pair count is 0 iff no sorted neighbours differ by 1 |
| Features.ConsecutiveExample | advanced_pattern_analyzer.py:83-90 | 1 2 3 4 5 has four consecutive pairs |
| Features.UnitGaps | advanced_pattern_analyzer.py:92-96 | 1 2 3 4 5 has four pairs and every gap equal to 1 |
| Features.SquaredDeviations | advanced_pattern_analyzer.py:96 | the squared deviations add up to a non-negative real |
| Features.Variance | advanced_pattern_analyzer.py:96 | `np.var` of a non-empty list is non-negative |
| Features.GapVariance | advanced_pattern_analyzer.py:92-96 | `_calculate_gap_variance`: non-negative, 0 when there are fewer than two balls |
| Features.ConstantVariance | advanced_pattern_analyzer.py:96 | a list of equal values has variance 0 |
| Features.EqualGapsZeroVariance | advanced_pattern_analyzer.py:92-96 | equally spaced balls have gap variance 0 |
| Features.SmallDrawVariance | advanced_pattern_analyzer.py:92-96 | the gap variance of 1 2 3 4 5 is 0 |
| Features.LowHighRatio | advanced_pattern_analyzer.py:98-102 | the ratio is exactly 5.0 or in [0, 4]; for five balls it is 5.0 iff every ball is at most 34 |
| Features.RatioBound | advanced_pattern_analyzer.py:98-102 | low / (5 - low) with a positive denominator lies in [0, 4] |
| Features.PrimeCount | advanced_pattern_analyzer.py:104-107 | `_count_primes`: at most the number of balls |
| Features.FibonacciCount | advanced_pattern_analyzer.py:109-112 | `_count_fibonacci`: at most the number of balls |
| Features.SmallDrawCounts | advanced_pattern_analyzer.py:104-112 | 1 2 3 4 5 has three primes, four Fibonacci numbers and ratio 5.0 |
| Features.RunEndingAt | advanced_pattern_analyzer.py:136-144 | the current run at index i is between 1 and i + 1 |
| Features.RunBound | advanced_pattern_analyzer.py:136-144 | a run of length r uses r - 1 of the unit gaps before it |
| Features.RunLoop | advanced_pattern_analyzer.py:136-144 | `max_seq_len` is the longest run: at least 1, at most len, attained by some index, at most pairs + 1 |
| Features.LongestRun | advanced_pattern_analyzer.py:134-146 | the run of one sorted draw: in 1..len, at most the pair count + 1, no run of consecutive numbers longer, and some run exactly that long |
| Features.SequenceLengths | advanced_pattern_analyzer.py:133-146 | `sequence_lengths`: one run per draw, each in 1..5, at most the draw's pairs + 1, and the longest run of consecutive numbers of that draw's sorted balls: none longer, one attaining it (also advanced_pattern_summary.py:124-137) |
| Features.Column | advanced_pattern_analyzer.py:154-158 | the balls at one sorted position, one per draw |
| Features.Increment | advanced_pattern_analyzer.py:158 | `counter[x] += 1` adds one occurrence of x to the tally |
| Features.AddRow | advanced_pattern_analyzer.py:156-158 | one draw adds its sorted ball p to tally p, for every position |
| Features.TallyPositions | advanced_pattern_analyzer.py:154-158 | `position_freq[p]` counts the sorted position-p balls of all draws (also advanced_pattern_summary.py:145-149) |
| Features.PositionTotals | advanced_pattern_analyzer.py:154-158 | each position's tallies over 1..69 add up to the number of draws |
| Features.FirstPositionIsMinimum | advanced_pattern_analyzer.py:155-158 | position 0 receives the draw's minimum |
| Features.AllGapsShape | advanced_pattern_summary.py:112-116 | `all_gaps` has four entries per valid draw, each at least 1 |
| Features.CollectGaps | advanced_pattern_analyzer.py:121-125 | the gap loop builds `all_gaps`: 4 per draw, each at least 1 |
| Features.SelectBestK | advanced_pattern_analyzer.py:185-195 | best k in 2..7 has the maximal score, strictly above all earlier scores (the earliest maximum wins); it stays at the initial k when no score exceeds -1; with the initial k = 2 of advanced_pattern_summary.py (lines 176-189) the chosen k is always in 2..7 |
| Features.FeatureBounds | advanced_pattern_analyzer.py:56-68 | the bounds of every integer feature of a valid draw: sum, range, even/odd, pairs, ratio, primes, Fibonacci numbers, gap variance |
| HotCold.Expected | intelligent_lottery_generator.py:57-58 | `len / domain`: non-negative, domain copies add back to the total |
| HotCold.ZScore | intelligent_lottery_generator.py:66 | z has the sign of observed minus expected, and is 0 iff they are equal |
| HotCold.Classify | intelligent_lottery_generator.py:64-74 | the classification loop: hot are exactly the numbers with z above the threshold, cold exactly those with z below minus it and not hot; no repeats; hottest first, coldest first (also the powerball loop at 80-90) |
| HotCold.HotColdMeaning | intelligent_lottery_generator.py:64-70 | a hot number occurs more often than expected and a cold one less often; the `elif` adds nothing for a non-negative threshold |
| HotCold.Neutral | intelligent_lottery_generator.py:119-121 | the numbers of 1..domain neither hot nor cold, ascending |
| HotCold.SortedByZ | intelligent_lottery_generator.py:73-74 | after the two sorts, hot is by decreasing z and cold by increasing z |
| HotCold.ClassifiedBounds | intelligent_lottery_generator.py:64-70 | hot and cold lie in the domain, are disjoint, and hold at most domain numbers together |
| HotCold.HotList | advanced_pattern_summary.py:272-279 | the hot list: exactly the numbers with z > 2, no repeats, by decreasing z |
| HotCold.ColdList | advanced_pattern_summary.py:283-290 | the cold list: exactly the numbers with z < -2, no repeats, by increasing z |
| HotCold.SeparateListsAgree | advanced_pattern_summary.py:272-291 | the two separate loops give the generators' classification; the lists are disjoint |
| Heat.HeatIndex | heat_index_rankings.py:67 | the clamp: in [0, 100], 50 at z = 0; exactly 50 + 16.67z when that lies strictly between 0 and 100, 100 when it reaches 100, 0 when it falls to 0 or below |
| Heat.HeatIndexMonotone | heat_index_rankings.py:67 | the heat index never decreases as z grows |
| Heat.CategoryIsBand | heat_index_rankings.py:109-124 | the cascade returns a category iff z is in that category's half-open band |
| Heat.CategoryMonotone | heat_index_rankings.py:109-124 | a larger z never gets a colder category |
| Heat.CategoryBoundaries | heat_index_rankings.py:109-124 | z = 2 is BLAZING HOT, z = -2 COLD, z = 0 NEUTRAL, and below -2 FREEZING |
| Heat.Records | heat_index_rankings.py:56-78 | the appended records, one for each number 1..n in order |
| Heat.RecordFacts | heat_index_rankings.py:56-78 | a record's fields agree; z has the sign of count minus expected; an exactly expected count gives z 0, heat 50 and NEUTRAL |
| Heat.HeatTableRows | heat_index_rankings.py:56-106 | every row of the ranked table is the record of a number in the domain |
| Heat.HeatTableNumbers | heat_index_rankings.py:56-106 | exactly one record per number 1..domain |
| Heat.HeatTableOrder | heat_index_rankings.py:106-107 | descending heat index, with ties in ascending number order |
| Heat.FrequencySums | heat_index_rankings.py:56-61 | the frequencies of the first n records add up to the counts of 1..n |
| Heat.DeviationSums | heat_index_rankings.py:63 | the deviations of the first n records add up to their counts minus n expected counts |
| Heat.CopiesOfExpected | heat_index_rankings.py:51-52 | domain copies of the expected count add up to the total |
| Heat.HeatTableSums | heat_index_rankings.py:47-63 | with every ball in the domain, frequencies add up to the balls tallied and deviations to 0 |
| Heat.HottestRows | heat_index_rankings.py:156-157 | exactly the rows with heat index above 70 |
| Heat.ColdestRows | heat_index_rankings.py:175-176 | exactly the rows with heat index below 30 |
| Heat.HottestColdest | heat_index_rankings.py:156-176 | the two filters share no row; hot rows have z > 1 and are HOT or BLAZING HOT, cold rows z < -1 and are COLD or FREEZING |
| Heat.HeatIndexRankings.constructor | heat_index_rankings.py:14-21 | the tallied balls of the history and both ranked tables |
| Heat.HeatIndexRankings.CalculateHeatIndex | heat_index_rankings.py:42-107 | both tables are rebuilt and ranked; with no balls the percentage division raises, leaving the state the loop reached |
| Sampler.Choice | intelligent_lottery_generator.py:129 | `random.choice`: fails iff the pool is empty, otherwise returns a pool member |
| Sampler.ChoiceReachesAll | intelligent_lottery_generator.py:129 | every member of the pool is returned by some stream |
| Sampler.RandInt | smart_lottery_generator.py:94 | `random.randint(lo, hi)` lies in lo..hi, both ends included |
| Sampler.RandIntReachesAll | smart_lottery_generator.py:94 | every value in lo..hi is returned by some stream |
| Sampler.Chance | intelligent_lottery_generator.py:243 | `random.random() < p`: always true at 100%, never at 0% |
| Sampler.ChanceBothWays | intelligent_lottery_generator.py:243 | both outcomes occur for a probability strictly between 0 and 1 |
| Sampler.Sample | smart_lottery_generator.py:84 | `random.sample(pool, k)`: k values, failing iff k exceeds the pool |
| Sampler.SampleSubMultiset | smart_lottery_generator.py:84 | a sample takes each value at most as often as the pool lists it |
| Sampler.SampleDistinct | smart_lottery_generator.py:84 | a sample of a list without repeats has no repeats and holds only pool members |
| Sampler.SampleOf | smart_lottery_generator.py:84 | the sample step: k members of the pool, without repeats when the pool has none |
| Sampler.SampleSome | smart_lottery_generator.py:83-84 | `randint(lo, hi)` values of the pool; fails when the pool is shorter than lo, succeeds when it has hi |
| Sampler.Within | intelligent_lottery_generator.py:242 | `[num for num in s if num in among]`: exactly the common members |
| Sampler.RejectionFill | intelligent_lottery_generator.py:127-131 | the loop returns the first five distinct values chosen, in choice order, and stops at the first choice that completes them |
| Sampler.UniformPick | final_lottery_generator.py:102-104 | one uniform pick among the unchosen white balls, in 1..69 |
| Sampler.UniformPickFresh | final_lottery_generator.py:102-104 | the pick is `random.choice` of the available list and is never already held |
| Sampler.ToppedUpSpec | final_lottery_generator.py:101-104 | topping up keeps the prefix; each new entry is a white ball not held before; no repeat is introduced |
| Sampler.UniformFill | final_lottery_generator.py:101-104 | the while loop tops the list up to five unseen white balls and keeps what it had |
| Sampler.TopUpToFive | final_lottery_generator.py:101-104 | the loop body run 5 - len times gives the topped-up list |
| Sampler.DedupRepair | final_lottery_generator.py:248-253 | the repair gives five distinct balls that keep every earlier pick; a list already distinct is unchanged |
| Sampler.FillFrom | final_lottery_generator.py:93-98 | the sample of unchosen candidates: min(remaining, available) of them, none already chosen |
| Sampler.BiasedChoice | final_lottery_generator.py:238-243 | hot choice when the chance succeeds and there are hot numbers, otherwise a choice from the row |
| Sampler.PositionPicks | final_lottery_generator.py:234-245 | one pick per position from its row; hot where hot numbers exist and the chance is certain; fails iff a row is empty |
| Sampler.Join | ultimate_lottery_generator.py:164-166 | the concatenated lists hold exactly the members of any list |
| Sampler.Repeat | final_lottery_generator.py:197 | `[num] * weight`: weight copies of num and nothing else |
| Sampler.ExtendEach | intelligent_lottery_generator.py:109-111 | each listed number gains weight copies per listing, nothing else changes |
| Sampler.Weight | final_lottery_generator.py:196 | `max(1, count // d)`: at least 1 and at most count / d + 1 |
| Sampler.WeightedPool | final_lottery_generator.py:191-197 | every number of the domain is in the pool with its weight, nothing else is |
| Sampler.NeutralFill | intelligent_lottery_generator.py:169-175 | fills to five distinct balls neither chosen nor excluded; succeeds whenever enough are left |
| Sampler.SortedTicket | smart_lottery_generator.py:96 | five distinct balls in range, sorted, with a powerball in range, form a valid ticket |
| Sampler.DisplayCounts | ultimate_lottery_generator.py:305-307 | with disjoint hot and cold lists, hot + cold + neutral counts equal the balls shown; final_lottery_generator.py lines 278-280 count the same way |
| Strategies.TablesWellFormed | intelligent_lottery_generator.py:230-236 | both fixed position tables have five non-empty rows of white balls |
| Strategies.RandomTicket | intelligent_lottery_generator.py:267-268 | five distinct sorted white balls and a powerball in 1..26 |
| Strategies.PositionWhites | intelligent_lottery_generator.py:239-253 | one pick per row, repaired and sorted: five strictly ascending balls holding every pick, equal to the sorted picks when they were distinct |
| Strategies.TopUp | final_lottery_generator.py:93-104 | candidate sample then uniform picks: five white balls keeping the prefix; a non-candidate is added only when candidates ran short |
| Strategies.GroupThenTopUp | final_lottery_generator.py:87-110 | count numbers of the group, then the top-up, sorted; fails iff the group is shorter than count |
| Strategies.SplitPowerball | final_lottery_generator.py:176-181 | 60%: one of the ten most common powerballs, otherwise one of the ten least common |
| Strategies.SplitPowerballTicket | final_lottery_generator.py:175-183 | the sorted whites with the 60/40 powerball form a valid ticket whose powerball was drawn; fails iff there are no powerballs |
| Strategies.FrequencyWeightedTicket | final_lottery_generator.py:191-213 | the frequency-weighted ticket is valid, or the choices ran out |
| Intelligent.ContrarianFallbackAsWritten | intelligent_lottery_generator.py:214-216 | the fallback list as written: powerballs not hot and not a cold WHITE number |
| Intelligent.ContrarianPowerballAsWritten | intelligent_lottery_generator.py:211-217 | the contrarian powerball as written comes from the cold powerballs or that fallback |
| Intelligent.ContrarianFallbackAdmitsCold | intelligent_lottery_generator.py:214-216 | a cold powerball that is not a cold white number is on the "neutral" list |
| Intelligent.ContrarianColdWithoutChance | intelligent_lottery_generator.py:211-217 | a run where the 70% draw fails still returns cold powerball 7 |
| Intelligent.ContrarianPowerball | intelligent_lottery_generator.py:211-217 | corrected: never hot unless cold; cold only via the 70% branch; otherwise neither hot nor cold |
| Intelligent.WeightedPoolMembers | intelligent_lottery_generator.py:109-124 | a pool with positive weights holds exactly the weighted numbers |
| Intelligent.IntelligentGenerator.constructor | intelligent_lottery_generator.py:16-27 | tallied balls of the history, classified |
| Intelligent.IntelligentGenerator.AnalyzePatterns | intelligent_lottery_generator.py:48-90 | white thresholds ±2 and powerball thresholds ±1.5, classified and ordered, tallies unchanged |
| Intelligent.IntelligentGenerator.ConservativePool | intelligent_lottery_generator.py:106-124 | hot ×70, cold ×1, neutral ×4: every white ball in the pool |
| Intelligent.IntelligentGenerator.ConservativePowerballPool | intelligent_lottery_generator.py:134-144 | hot powerballs ×40, neutral ×10, cold not at all |
| Intelligent.IntelligentGenerator.ConservativePowerball | intelligent_lottery_generator.py:146 | the choice is hot or neutral, and fails iff both lists are empty |
| Intelligent.IntelligentGenerator.GenerateConservative | intelligent_lottery_generator.py:95-148 | a valid ticket whose powerball is hot or neutral, never cold |
| Intelligent.IntelligentGenerator.BalancedWhites | intelligent_lottery_generator.py:156-175 | five sorted balls with 2-3 hot and 1-2 cold; fails with fewer than two hot or no cold numbers |
| Intelligent.IntelligentGenerator.GenerateBalanced | intelligent_lottery_generator.py:150-186 | the balanced ticket: valid, 2-3 hot and 1-2 cold whites, powerball hot or neutral |
| Intelligent.IntelligentGenerator.BalancedOverlap | intelligent_lottery_generator.py:159-175 | exactly the hot picks are hot and the cold picks cold |
| Intelligent.IntelligentGenerator.ContrarianWhites | intelligent_lottery_generator.py:194-208 | five sorted balls with 3-4 cold and no hot; fails with fewer than three cold numbers |
| Intelligent.IntelligentGenerator.GenerateContrarian | intelligent_lottery_generator.py:188-219 | the contrarian ticket with the corrected powerball: valid, 3-4 cold whites, powerball not hot |
| Intelligent.IntelligentGenerator.ContrarianOverlap | intelligent_lottery_generator.py:197-208 | exactly the cold picks are cold, and none is hot |
| Intelligent.IntelligentGenerator.GeneratePatternBased | intelligent_lottery_generator.py:221-260 | valid ticket holding every table pick, with a powerball among the ten most common; fails iff there are no powerballs |
| Final.FinalGenerator.constructor | final_lottery_generator.py:15-24 | tallied balls of the history, classified |
| Final.FinalGenerator.AnalyzeAllPatterns | final_lottery_generator.py:45-75 | white hot above 2 and cold below -2, tallies unchanged |
| Final.FinalGenerator.FrequentInRange | final_lottery_generator.py:95 | the 20 most and least frequent numbers are white balls |
| Final.FinalGenerator.GenerateUltimateHot | final_lottery_generator.py:79-110 | valid ticket with at least min(4, #hot) hot whites, the rest from the 20 most frequent when possible; powerball among the ten most common |
| Final.FinalGenerator.GenerateUltimateCold | final_lottery_generator.py:112-143 | mirror image: at least min(4, #cold) cold whites, the 20 least frequent, powerball among the ten least common |
| Final.FinalGenerator.BalancedWhites | final_lottery_generator.py:150-173 | five sorted balls with at least min(2, #hot) hot and min(2, #cold) cold |
| Final.FinalGenerator.GenerateBalanced | final_lottery_generator.py:145-183 | the balanced whites and the 60/40 powerball: one of the ten most common when the 60% chance at the returned coin position comes up, otherwise one of the ten least common; fails iff there are no powerballs |
| Final.FinalGenerator.GeneratePositionBased | final_lottery_generator.py:217-259 | valid ticket holding every pick from the final table, powerball among the ten most common |
| Ultimate.Preferences | ultimate_lottery_generator.py:107-111 | one learned list per position, five lists |
| Ultimate.ColumnInRange | ultimate_lottery_generator.py:102-105 | every tallied positional ball is a white ball |
| Ultimate.PreferenceMembers | ultimate_lottery_generator.py:107-111 | at most five distinct balls, each seen at that position; empty iff no draws |
| Ultimate.PreferenceRanked | ultimate_lottery_generator.py:110 | ordered by decreasing positional count; no ball left out is more frequent there |
| Ultimate.LearnPreferences | ultimate_lottery_generator.py:98-111 | the loop builds exactly the learned lists |
| Ultimate.BalancedFillAsWritten | ultimate_lottery_generator.py:236-245 | the fill as written: unchosen members of the joined lists, possibly repeated |
| Ultimate.BalancedFillRepeats | ultimate_lottery_generator.py:236-245 | a concrete history and stream for which the fill repeats a ball |
| Ultimate.GroupTicket | ultimate_lottery_generator.py:156-183 | 4-5 group numbers, then fill: valid, at least four group balls, powerball from the pool; fails with fewer than four group numbers; with exactly four, succeeds iff `randint(4, 5)` gives 4 and there is a powerball; succeeds with five or more when there is a powerball |
| Ultimate.UltimateGenerator.constructor | ultimate_lottery_generator.py:15-27 | the parsed draws, classified and with learned lists |
| Ultimate.UltimateGenerator.AnalyzeAllPatterns | ultimate_lottery_generator.py:48-93 | both classifications and the learned lists |
| Ultimate.UltimateGenerator.AnalyzePositionPatterns | ultimate_lottery_generator.py:98-111 | the learned lists are set, nothing else changes |
| Ultimate.UltimateGenerator.PreferencesShape | ultimate_lottery_generator.py:107-111 | five lists of white balls, all non-empty iff there are draws |
| Ultimate.UltimateGenerator.PowerballsPresent | ultimate_lottery_generator.py:143-145 | there is a powerball to choose iff there are draws |
| Ultimate.UltimateGenerator.JoinedInRange | ultimate_lottery_generator.py:164-166 | the joined learned lists are white balls |
| Ultimate.UltimateGenerator.GenerateUltimate | ultimate_lottery_generator.py:113-147 | valid ticket holding every learned pick, powerball among the ten most common; fails iff no draws |
| Ultimate.UltimateGenerator.PoolsInRange | ultimate_lottery_generator.py:144 | most and least common lists are in range and non-empty iff there is a tally |
| Ultimate.UltimateGenerator.GenerateSuperHot | ultimate_lottery_generator.py:149-183 | at least four hot whites, powerball among the five most common; raises with fewer than four hot numbers |
| Ultimate.UltimateGenerator.GenerateContrarian | ultimate_lottery_generator.py:185-217 | at least four cold whites, powerball among the ten least common; raises with fewer than four cold numbers |
| Ultimate.UltimateGenerator.BalancedWhites | ultimate_lottery_generator.py:226-251 | corrected fill: five distinct sorted balls, min(2, #hot) hot, min(2, #cold) cold |
| Ultimate.UltimateGenerator.GenerateBalanced | ultimate_lottery_generator.py:219-262 | the corrected whites with the 60/40 powerball: one of the ten most common when the 60% chance at the returned coin position comes up, otherwise one of the ten least common; fails iff there are no powerballs |
| Smart.GroupThenFill | smart_lottery_generator.py:82-96 | group sample then fill from unused balls: five sorted balls, at least lo of the group |
| Smart.SampleUpToTwo | smart_lottery_generator.py:129-131 | min(2, len) distinct members of the group, nothing from an empty group |
| Smart.SmartGenerator.constructor | smart_lottery_generator.py:15-24 | tallied balls of the history, classified |
| Smart.SmartGenerator.AnalyzePatterns | smart_lottery_generator.py:45-71 | hot above 2, cold below -2, ordered; tallies unchanged |
| Smart.SmartGenerator.GenerateHot | smart_lottery_generator.py:75-96 | at least three hot whites, uniform powerball; fails with fewer than three hot numbers, succeeds with four or more |
| Smart.SmartGenerator.GenerateCold | smart_lottery_generator.py:98-119 | at least three cold whites, uniform powerball; fails with fewer than three cold numbers, succeeds with four or more |
| Smart.SmartGenerator.BalancedWhites | smart_lottery_generator.py:126-142 | five sorted balls, min(2, #hot) hot and min(2, #cold) cold; never fails |
| Smart.SmartGenerator.GenerateBalanced | smart_lottery_generator.py:121-147 | the balanced whites and a uniform powerball in 1..26 |
| Smart.SmartGenerator.GeneratePosition | smart_lottery_generator.py:149-186 | valid ticket holding every pick from the table, uniform powerball |
| Analyzer.CountAdjacent | lottery_analyzer.py:163 | two adjacent half-open buckets count their union |
| Analyzer.FullTallies | lottery_analyzer.py:63-64 | white tallies add up to five per draw, powerball tallies to one per draw |
| Analyzer.Tail | lottery_analyzer.py:90 | `df.tail(n)`: the last min(n, len) draws in order |
| Analyzer.TailValid | lottery_analyzer.py:90 | the recent window of a valid history is valid |
| Analyzer.RecentTallies | lottery_analyzer.py:90-95 | recent white tallies add up to five per draw in the window |
| Analyzer.HotColdAnalysis | lottery_analyzer.py:90-106 | the ten most and ten least common whites of the recent window and its ten most common powerballs: distinct occurring values in order of decreasing count, none left out more (hot) or less (cold) common than one kept, and every occurring value kept when fewer than ten are listed |
| Analyzer.HasPairMeaning | lottery_analyzer.py:119-126 | a draw counts iff two sorted neighbours differ by 1 |
| Analyzer.ExamplesAt | lottery_analyzer.py:118-129 | the i-th example is that of the i-th draw |
| Analyzer.KeptMembers | lottery_analyzer.py:126-129 | every kept example belongs to a draw and has a pair |
| Analyzer.KeptEmpty | lottery_analyzer.py:126-129 | nothing is kept iff no example has a pair |
| Analyzer.WithPairsMeaning | lottery_analyzer.py:118-129 | the draws kept are exactly the draws with pairs, none iff there are none |
| Analyzer.SortAndCount | lottery_analyzer.py:119-124 | one row: the draw's balls in ascending order and the number of sorted neighbours that differ by 1, which is the example of that draw |
| Analyzer.ConsecutiveAnalysis | lottery_analyzer.py:115-129 | the count of draws with a pair, and the first min(10, count) of them in order |
| Analyzer.EvenOddLabel | lottery_analyzer.py:176-178 | five characters `eE-oO` |
| Analyzer.EvenOddLabelDecodes | lottery_analyzer.py:176-178 | the label gives back the even count and 5 minus it |
| Analyzer.EvenOddLabelInjective | lottery_analyzer.py:178 | different even counts get different labels |
| Analyzer.EvenOddPatterns | lottery_analyzer.py:173-179 | one label per draw in order; its second digit is the number of odd balls |
| Analyzer.Sums | lottery_analyzer.py:144 | `df['Sum']`: each draw's sum |
| Analyzer.SumBucketsPartition | lottery_analyzer.py:153-163 | the half-open buckets are disjoint and cover exactly [50, 300) |
| Analyzer.SumAnalysis | lottery_analyzer.py:162-163 | each bucket's count; together the sums in [50, 300) |
| Analyzer.SumBucketsTotal | lottery_analyzer.py:153-163 | the five counts add up to the sums in [50, 300) |
| Analyzer.DecadesPartition | lottery_analyzer.py:289-291 | every white ball lies in exactly one decade |
| Analyzer.DecadeCounts | lottery_analyzer.py:287-293 | `range_counts`: each decade's count; together the balls in 1..69 |
| Analyzer.DecadesTotal | lottery_analyzer.py:287-293 | the seven counts add up to the balls in 1..69 |
| Analyzer.DecadesOfHistory | lottery_analyzer.py:287-293 | on a valid history the decade counts add up to five per draw |

## Left out

- Reading the CSV file and parsing dates (`load_data` in every script): a history is a sequence of `Draw` values.
- Printing, the `display_*` and `show_*` text, `generate_multiple_sets` and the other set loops, and `main`: console output and drivers. Of `display_numbers`, only the hot/cold/neutral and even counts are modelled.
- Plotting, including the Multiplier chart, and simple_visualization.py: simple_visualization.py is not part of this model. Its tallies are the ones above.
- KMeans, StandardScaler, silhouette_score, PCA, `chisquare`, `corr`, `groupby` and `rolling`: library calls over floats. Only the best-k rule over a given sequence of scores is modelled.
- The Mean and Std columns, the rolling and calendar columns of `prepare_features`, and `temporal_pattern_analysis` and `correlation_analysis`: floating-point statistics.
- `np.sqrt`: abstracted as a caller-supplied root. Floating-point rounding is not modelled. The heat factor 16.67 and all thresholds are exact reals.
- Probabilities: a stream of naturals stands for the random generator. `random.random() < p` is a remainder below p out of 100, and an index is a remainder. The model states which pool each choice comes from and which results are reachable, not how often.
- `list(set(white_balls))` order: modelled as the distinct values in first-occurrence order. The repaired list is then sorted, and the fill list is built from 1..69, so the ticket's members do not depend on it.
- The gap and run-length `Counter`s that are only printed (`gap_freq`, `seq_freq`): the lists they count are modelled.
- Sampler.RejectionFill: the loop `while len < 5: choice; if not in` need not end, so it is given a fuel bound. Running out of fuel is reported as `OutOfChoices`.
- Strategies.FrequencyWeightedTicket: states that the ticket is valid or the choices ran out. It does not restate that the whites are the first five distinct choices from the weighted pool. `Sampler.WeightedPool` and `Sampler.RejectionFill` state those two steps.
- Intelligent.IntelligentGenerator.GenerateConservative: states the ticket is valid and the powerball hot or neutral. It does not restate which pool entries were chosen. The same fuel bound applies.
- Intelligent.IntelligentGenerator.BalancedWhites: success is stated for at least three hot and two cold numbers with room for the fill, not for every input on which the random counts happen to fit.
- Heat.HeatIndexRankings.constructor: requires a non-empty history, because the percentage division raises on an empty one. `CalculateHeatIndex` models that failure as `ok == false`.
- Ultimate.UltimateGenerator.GenerateSuperHot: the fill from the learned lists is stated only by `Ultimate.GroupTicket` and `Strategies.GroupThenTopUp`.
- Intelligent.IntelligentGenerator.GenerateContrarian: draws its powerball with the corrected neutral fallback, which leaves out the cold powerballs, not with the fallback as written. The behaviour as written is `Intelligent.ContrarianPowerballAsWritten`, with `Intelligent.ContrarianColdWithoutChance` exhibiting the difference (first row of the Findings).
- Ultimate.UltimateGenerator.GenerateBalanced: fills its whites from the distinct learned numbers (`BalancedWhites`), not from the concatenated lists as written, which can repeat a ball. The behaviour as written is `Ultimate.BalancedFillAsWritten`, with `Ultimate.BalancedFillRepeats` exhibiting the difference (second row of the Findings).
- Ultimate.UltimateGenerator.GenerateContrarian: the fill from the 20 least frequent is stated only by `Ultimate.GroupTicket` and `Strategies.GroupThenTopUp`.

## Findings

| source | as written | input that shows it | evidently intended | confidence | as-written member | corrected member |
|---|---|---|---|---|---|---|
| intelligent_lottery_generator.py:214-216 | the "neutral" powerball fallback of the contrarian strategy leaves out hot powerballs and cold WHITE numbers, so a cold powerball stays on it | cold powerballs [7], no hot powerball, no cold white number, a stream where the 70% draw fails (99) and the index is 6: powerball 7, a cold one, comes from the neutral branch | leave out the cold powerballs, as the comment and `generate_balanced_numbers` do | not executed | Intelligent.ContrarianColdWithoutChance | Intelligent.ContrarianPowerball |
| ultimate_lottery_generator.py:236-245 | the balanced fill samples from the concatenated position lists, which can list a number twice | learned lists [a], [b], [c], [d, e], [e, f] (1 to 6 with two draws), hot picks c and d, a stream of twos: the fill is e, e, f, so the ticket repeats e | sample from the distinct learned numbers | not executed | Ultimate.BalancedFillRepeats | Ultimate.UltimateGenerator.BalancedWhites |
