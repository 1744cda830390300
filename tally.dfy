/**
 * The body of `main`: two tables keyed by the integers min..max are
 * pre-filled with zero, then every trial draws one bucket, adds one to its
 * occurrence count and rewrites its percentage as `count / iterations * 100`.
 *
 * The tables are the maps `occurences` (counts) and `probabilities`
 * (percentages, as exact reals). The random draws are an input: `roots`
 * holds the square root of each trial's draw, in trial order.
 */
module Tally {
  import opened Sampler

  /** `k` lies in the inclusive range min..max. */
  predicate InRange(min: int, k: int, max: int)
  {
    min <= k <= max
  }

  /**
   * The keys min..max that both tables are pre-filled with. The bounds
   * make the set finite; `InRange` gives its membership a trigger.
   */
  function Keys(min: int, max: int): (r: set<int>)
    ensures forall k :: k in r <==> min <= k <= max
  {
    set k | min <= k <= max && InRange(min, k, max)
  }

  /** There are `max - min + 1` keys in a non-empty range, none otherwise. */
  lemma {:induction false} KeysCardinality(min: int, max: int)
    ensures |Keys(min, max)| == if min <= max then max - min + 1 else 0
    decreases max - min + 1
  {
    if min <= max {
      KeysCardinality(min, max - 1);
      assert Keys(min, max) == Keys(min, max - 1) + {max};
    }
  }

  /**
   * The percentage stored for a count: `count / iterations * 100`, the
   * number that is to 100 as the count is to `iterations`.
   */
  function Percent(count: int, iterations: int): (r: real)
    requires iterations > 0
    ensures r * iterations as real == count as real * 100.0
  {
    count as real / iterations as real * 100.0
  }

  /**
   * The bucket drawn by each trial, in trial order: one call of the sampler
   * per root. With bounds `min <= max` and every root in [0, 1], every
   * bucket lies in min..max.
   */
  function Samples(max: int, min: int, roots: seq<real>): (r: seq<int>)
    ensures |r| == |roots|
    ensures forall j :: 0 <= j < |r| ==> r[j] == Bucket(max, min, roots[j])
    ensures min <= max && (forall j :: 0 <= j < |roots| ==> 0.0 <= roots[j] <= 1.0) ==>
              forall j :: 0 <= j < |r| ==> min <= r[j] <= max
  {
    seq(|roots|, j requires 0 <= j < |roots| => Bucket(max, min, roots[j]))
  }

  /**
   * Every trial's bucket is one of the keys min..max, so the table lookup
   * for it always finds an entry.
   */
  lemma SamplesInRange(max: int, min: int, roots: seq<real>)
    requires min <= max
    requires forall j :: 0 <= j < |roots| ==> 0.0 <= roots[j] <= 1.0
    ensures forall j :: 0 <= j < |roots| ==> Samples(max, min, roots)[j] in Keys(min, max)
  {
  }

  /** How many of the trials in `trials` drew the bucket `k`. */
  function Count(trials: seq<int>, k: int): (n: nat)
    ensures n <= |trials|
  {
    if trials == [] then 0
    else Count(trials[..|trials| - 1], k) + (if trials[|trials| - 1] == k then 1 else 0)
  }

  /** A bucket's count is zero exactly when no trial drew it. */
  lemma {:induction false} CountZeroIffAbsent(trials: seq<int>, k: int)
    ensures Count(trials, k) == 0 <==> k !in trials
  {
    if trials != [] {
      var prefix := trials[..|trials| - 1];
      CountZeroIffAbsent(prefix, k);
      assert trials == prefix + [trials[|trials| - 1]];
    }
  }

  /** Appending one trial adds one to the count of its bucket only. */
  lemma CountAppend(trials: seq<int>, x: int, k: int)
    ensures Count(trials + [x], k) == Count(trials, k) + (if x == k then 1 else 0)
  {
  }

  /** The sum of the counts stored under the keys lo..hi. */
  function Total(counts: map<int, int>, lo: int, hi: int): (r: int)
    decreases hi - lo + 1
  {
    if hi < lo then 0
    else (if hi in counts then counts[hi] else 0) + Total(counts, lo, hi - 1)
  }

  /** The sum of the percentages stored under the keys lo..hi. */
  function TotalPercent(percentages: map<int, real>, lo: int, hi: int): (r: real)
    decreases hi - lo + 1
  {
    if hi < lo then 0.0
    else (if hi in percentages then percentages[hi] else 0.0) + TotalPercent(percentages, lo, hi - 1)
  }

  /**
   * The two tables agree: they have the same keys, and every key's
   * percentage is the one its count gives.
   */
  ghost predicate Consistent(occurences: map<int, int>, probabilities: map<int, real>, iterations: int)
    requires iterations > 0
  {
    && occurences.Keys == probabilities.Keys
    && forall k :: k in occurences ==> probabilities[k] == Percent(occurences[k], iterations)
  }

  /**
   * Overwriting one entry changes the sum over a range by the difference,
   * if the key is in the range, and not at all otherwise.
   */
  lemma {:induction false} TotalUpdate(counts: map<int, int>, lo: int, hi: int, x: int, v: int)
    ensures Total(counts[x := v], lo, hi)
         == Total(counts, lo, hi) + (if lo <= x <= hi then v - (if x in counts then counts[x] else 0) else 0)
    decreases hi - lo + 1
  {
    if lo <= hi {
      TotalUpdate(counts, lo, hi - 1, x, v);
    }
  }

  /**
   * When every stored percentage is the one its count gives, the
   * percentages add up to the percentage of the summed counts.
   */
  lemma {:induction false} TotalPercentOfCounts(occurences: map<int, int>, probabilities: map<int, real>,
                                                 lo: int, hi: int, iterations: int)
    requires iterations > 0
    requires forall k :: lo <= k <= hi ==> k in occurences && k in probabilities
    requires forall k :: lo <= k <= hi ==> probabilities[k] == Percent(occurences[k], iterations)
    ensures TotalPercent(probabilities, lo, hi) == Percent(Total(occurences, lo, hi), iterations)
    decreases hi - lo + 1
  {
    if lo <= hi {
      TotalPercentOfCounts(occurences, probabilities, lo, hi - 1, iterations);
      PercentAdd(occurences[hi], Total(occurences, lo, hi - 1), iterations);
    }
  }

  lemma PercentAdd(a: int, b: int, iterations: int)
    requires iterations > 0
    ensures Percent(a + b, iterations) == Percent(a, iterations) + Percent(b, iterations)
  {
  }

  /**
   * The state of the tables after the trials `trials`: keys min..max in
   * both, each count the number of trials that drew its key, percentages
   * consistent with the counts, and the counts adding up to the number of
   * trials so far.
   */
  ghost predicate Tallied(occurences: map<int, int>, probabilities: map<int, real>,
                          min: int, max: int, iterations: int, trials: seq<int>)
    requires iterations > 0
  {
    && occurences.Keys == Keys(min, max)
    && Consistent(occurences, probabilities, iterations)
    && (forall k :: k in occurences ==> occurences[k] == Count(trials, k))
    && Total(occurences, min, max) == |trials|
  }

  /** The empty tables of the initialisation are the tally of no trials. */
  lemma InitialTallied(occurences: map<int, int>, probabilities: map<int, real>,
                       min: int, max: int, iterations: int)
    requires iterations > 0
    requires occurences.Keys == Keys(min, max) && probabilities.Keys == Keys(min, max)
    requires forall k :: k in occurences ==> occurences[k] == 0
    requires forall k :: k in probabilities ==> probabilities[k] == 0.0
    requires Total(occurences, min, max) == 0
    ensures Tallied(occurences, probabilities, min, max, iterations, [])
  {
  }

  /**
   * A trial that draws a key of the tables and updates them as `Trial`
   * promises turns the tally of `trials` into the tally of `trials + [num]`.
   */
  lemma TrialPreservesTallied(occurences: map<int, int>, probabilities: map<int, real>,
                              occurences': map<int, int>, probabilities': map<int, real>,
                              min: int, max: int, iterations: int, trials: seq<int>, num: int)
    requires iterations > 0 && min <= num <= max
    requires Tallied(occurences, probabilities, min, max, iterations, trials)
    requires occurences'.Keys == occurences.Keys && probabilities'.Keys == probabilities.Keys
    requires occurences'[num] == occurences[num] + 1
    requires probabilities'[num] == Percent(occurences'[num], iterations)
    requires forall k :: k in occurences && k != num ==> occurences'[k] == occurences[k]
    requires forall k :: k in probabilities && k != num ==> probabilities'[k] == probabilities[k]
    ensures Tallied(occurences', probabilities', min, max, iterations, trials + [num])
  {
    forall k | k in occurences'
      ensures occurences'[k] == Count(trials + [num], k)
    {
      CountAppend(trials, num, k);
    }
    TotalUpdate(occurences, min, max, num, occurences[num] + 1);
    assert occurences' == occurences[num := occurences[num] + 1];
  }

  /** A percentage is zero exactly when its count is. */
  lemma PercentZero(count: int, iterations: int)
    requires iterations > 0
    ensures Percent(count, iterations) == 0.0 <==> count == 0
  {
  }

  /** A key drawn by every trial stands at 100 percent. */
  lemma PercentOfAll(iterations: int)
    requires iterations > 0
    ensures Percent(iterations, iterations) == 100.0
  {
    assert iterations as real / iterations as real == 1.0;
  }

  /**
   * The tally of a full run of `iterations` trials: every count is between
   * 0 and `iterations`, a key's count and percentage are zero exactly when
   * no trial drew it, the percentages add up to 100, and over a single key
   * that key holds every trial at 100 percent.
   */
  lemma CompletedTables(occurences: map<int, int>, probabilities: map<int, real>,
                        min: int, max: int, iterations: int, trials: seq<int>)
    requires iterations > 0 && |trials| == iterations
    requires Tallied(occurences, probabilities, min, max, iterations, trials)
    ensures occurences.Keys == Keys(min, max) && probabilities.Keys == Keys(min, max)
    ensures forall k :: k in occurences ==> occurences[k] == Count(trials, k)
    ensures Consistent(occurences, probabilities, iterations)
    ensures Total(occurences, min, max) == iterations
    ensures forall k :: k in occurences ==> 0 <= occurences[k] <= iterations
    ensures forall k :: k in occurences ==> (occurences[k] == 0 <==> k !in trials)
    ensures forall k :: k in probabilities ==> (probabilities[k] == 0.0 <==> k !in trials)
    ensures TotalPercent(probabilities, min, max) == 100.0
    ensures min == max ==> occurences[min] == iterations && probabilities[min] == 100.0
  {
    forall k | k in probabilities
      ensures occurences[k] == 0 <==> k !in trials
      ensures probabilities[k] == 0.0 <==> occurences[k] == 0
    {
      CountZeroIffAbsent(trials, k);
      PercentZero(occurences[k], iterations);
    }
    TotalPercentOfCounts(occurences, probabilities, min, max, iterations);
    PercentOfAll(iterations);
  }

  /**
   * The tables hold exactly the keys min..hi, every count and percentage
   * zero.
   */
  ghost predicate Prefilled(occurences: map<int, int>, probabilities: map<int, real>, min: int, hi: int)
  {
    && occurences.Keys == Keys(min, hi)
    && probabilities.Keys == Keys(min, hi)
    && (forall k :: k in occurences ==> occurences[k] == 0)
    && (forall k :: k in probabilities ==> probabilities[k] == 0.0)
    && Total(occurences, min, hi) == 0
  }

  /** Adding the next key with zero entries extends the pre-filled range by one. */
  lemma PrefillStep(occurences: map<int, int>, probabilities: map<int, real>, min: int, i: int)
    requires min <= i
    requires Prefilled(occurences, probabilities, min, i - 1)
    ensures Prefilled(occurences[i := 0], probabilities[i := 0.0], min, i)
  {
    TotalUpdate(occurences, min, i, i, 0);
  }

  /**
   * The initialisation loop: every key min..max gets count 0 and
   * percentage 0, and nothing else is in either table.
   */
  method InitTables(min: int, max: int) returns (occurences: map<int, int>, probabilities: map<int, real>)
    ensures occurences.Keys == Keys(min, max) && probabilities.Keys == Keys(min, max)
    ensures |occurences| == |probabilities| == if min <= max then max - min + 1 else 0
    ensures forall k :: k in occurences ==> occurences[k] == 0
    ensures forall k :: k in probabilities ==> probabilities[k] == 0.0
    ensures Total(occurences, min, max) == 0
  {
    occurences, probabilities := map[], map[];
    var i := min;
    while i <= max
      invariant min <= i <= if min <= max then max + 1 else min
      invariant Prefilled(occurences, probabilities, min, i - 1)
      decreases max - i
    {
      PrefillStep(occurences, probabilities, min, i);
      occurences := occurences[i := 0];
      probabilities := probabilities[i := 0.0];
      i := i + 1;
    }
    if min > max {
      assert Keys(min, i - 1) == Keys(min, max) == {};
    }
    KeysCardinality(min, max);
  }

  /**
   * One trial that drew the bucket `num`: its count goes up by one and its
   * percentage is rewritten from the new count; every other entry and the
   * key sets stay as they were, so the tables stay consistent.
   */
  method Trial(occurences: map<int, int>, probabilities: map<int, real>, num: int, iterations: int)
    returns (occurences': map<int, int>, probabilities': map<int, real>)
    requires iterations > 0
    requires num in occurences && num in probabilities
    ensures occurences'.Keys == occurences.Keys && probabilities'.Keys == probabilities.Keys
    ensures occurences'[num] == occurences[num] + 1
    ensures probabilities'[num] == Percent(occurences'[num], iterations)
    ensures forall k :: k in occurences && k != num ==> occurences'[k] == occurences[k]
    ensures forall k :: k in probabilities && k != num ==> probabilities'[k] == probabilities[k]
    ensures Consistent(occurences, probabilities, iterations) ==> Consistent(occurences', probabilities', iterations)
  {
    occurences' := occurences[num := occurences[num] + 1];
    probabilities' := probabilities[num := occurences'[num] as real / iterations as real * 100.0];
  }

  /**
   * The trial loop: starting from the pre-filled tables, each trial draws
   * the bucket of its root and tallies it. Every bucket is a key of both
   * tables, so each lookup succeeds; afterwards the tables are the tally of
   * all the trials' buckets.
   */
  method RunTrials(occurences0: map<int, int>, probabilities0: map<int, real>,
                   min: int, max: int, iterations: int, roots: seq<real>)
    returns (occurences: map<int, int>, probabilities: map<int, real>)
    requires min <= max && iterations > 0
    requires |roots| == iterations
    requires forall j :: 0 <= j < |roots| ==> 0.0 <= roots[j] <= 1.0
    requires Tallied(occurences0, probabilities0, min, max, iterations, [])
    ensures Tallied(occurences, probabilities, min, max, iterations, Samples(max, min, roots))
  {
    var samples := Samples(max, min, roots);
    occurences, probabilities := occurences0, probabilities0;
    var i := 0;
    assert samples[..0] == [];
    while i < iterations
      invariant 0 <= i <= iterations
      invariant Tallied(occurences, probabilities, min, max, iterations, samples[..i])
    {
      var num := Bucket(max, min, roots[i]);
      assert samples[..i + 1] == samples[..i] + [num];
      var occurences', probabilities' := Trial(occurences, probabilities, num, iterations);
      TrialPreservesTallied(occurences, probabilities, occurences', probabilities',
                            min, max, iterations, samples[..i], num);
      occurences, probabilities := occurences', probabilities';
      i := i + 1;
    }
    assert samples[..i] == samples;
  }

  /**
   * The whole run: initialise both tables over min..max, then run the
   * trials. Afterwards every key holds the number of trials that drew it
   * and the matching percentage; the counts add up to `iterations` and the
   * percentages to exactly 100.
   */
  method Simulate(min: int, max: int, iterations: int, roots: seq<real>)
    returns (occurences: map<int, int>, probabilities: map<int, real>)
    requires min <= max && iterations > 0
    requires |roots| == iterations
    requires forall j :: 0 <= j < |roots| ==> 0.0 <= roots[j] <= 1.0
    ensures occurences.Keys == Keys(min, max) && probabilities.Keys == Keys(min, max)
    ensures forall k :: k in occurences ==> occurences[k] == Count(Samples(max, min, roots), k)
    ensures forall k :: k in occurences ==> 0 <= occurences[k] <= iterations
    ensures forall k :: k in occurences ==> (occurences[k] == 0 <==> k !in Samples(max, min, roots))
    ensures forall k :: k in probabilities ==> (probabilities[k] == 0.0 <==> k !in Samples(max, min, roots))
    ensures Consistent(occurences, probabilities, iterations)
    ensures Total(occurences, min, max) == iterations
    ensures TotalPercent(probabilities, min, max) == 100.0
    ensures min == max ==> occurences[min] == iterations && probabilities[min] == 100.0
  {
    var occurences0, probabilities0 := InitTables(min, max);
    InitialTallied(occurences0, probabilities0, min, max, iterations);
    occurences, probabilities := RunTrials(occurences0, probabilities0, min, max, iterations, roots);
    CompletedTables(occurences, probabilities, min, max, iterations, Samples(max, min, roots));
  }
}
