# Tokenomics sampler and tally, modelled in Dafny

The script `test/tokenomics.py` estimates, by Monte Carlo sampling, how often a
biased random-number generator produces each integer of a range. Two parts of
it are modelled here:

- **the sampler** `getRandomNumber(max, min)` (module `Sampler`, file
  `sampler.dfy`): a uniform draw `u` is turned into the bucket
  `int(min + (max - min) * (1 - u ** 0.5))`. Python's `int()` truncates toward
  zero, and the model keeps that (`Trunc`). The draw enters through its square
  root `s`, a real number. `IsRoot(u, s)` says that `s` is the non-negative
  square root of `u`. The parameters keep the source's order, `max` first.
- **the accumulator**, the body of `main` (module `Tally`, file `tally.dfy`).
  Two dictionaries, `occurences` and `probabilities`, are pre-filled with zero
  for every key `min..max`. Each trial then adds one to the drawn bucket's
  count and rewrites that bucket's percentage as
  `count / iterations * 100`. The dictionaries are local variables of `main`,
  so they are modelled as `map` values held in local variables. The two loops
  are methods that reassign those variables: `InitTables` is the pre-fill
  loop, `RunTrials` the trial loop, `Trial` one trial's two updates, and
  `Simulate` the whole of `main` up to the file write. The random draws are an
  input: `roots` holds the square root of each trial's draw, in trial order.

The proofs show the following. A bucket always lies in `min..max`, so the
dictionary lookup of a trial always finds its key. The key sets never change.
Each trial changes exactly one key. Each count is the number of trials that
drew that key. The counts add up to `iterations`. Every percentage agrees with
its count, so in exact arithmetic the percentages add up to exactly 100.

The bucket is the truncation toward zero that `int()` performs, not the
floor. The two agree when `min >= 0`, which `BucketIsFloor` proves. The range bound in `Bucket`'s
contract holds for every `min <= max`, negative bounds included.
The script's draw `random.uniform(0, 1)` is `0 + (1 - 0) * random()` with
`random()` in [0, 1), so it lies in [0, 1) and a draw of exactly 1 never
occurs. The model accepts the closed interval [0, 1] for `s`, which contains
every draw the script can make, so every lemma still covers all of them. The
`s = 1` clause of `BucketEndpoints` and the "draw 1" case of `ReferenceDraws`
are facts about the formula, not draws the script makes.

## Model

| member | source | states |
|---|---|---|
| `Sampler.Trunc` | test/tokenomics.py:7 | Python `int()` on a number: a non-negative value goes to the largest integer not above it, a negative value to the smallest integer not below it; the result is within one of the value and on the same side of zero |
| `Sampler.TruncMonotone` | test/tokenomics.py:7 | truncation toward zero preserves order |
| `Sampler.TruncOfInt` | test/tokenomics.py:7 | truncating an integer gives that integer back |
| `Sampler.Bucket` | test/tokenomics.py:5-8 | for any bounds `min <= max` and any root `s` in [0, 1], the bucket lies in `min..max` inclusive |
| `Sampler.Scaled` | test/tokenomics.py:7 | the value inside `int(...)`, `min + (max - min) * (1 - s)`: a root of 0 lands on `max`, a root of 1 on `min`, and a single-value range always gives `min` |
| `Sampler.ScaledInRange` | test/tokenomics.py:7 | the value `min + (max - min) * (1 - s)` before truncation lies between `min` and `max` |
| `Sampler.BucketIsFloor` | test/tokenomics.py:7 | when `0 <= min`, truncation toward zero equals the floor of that value |
| `Sampler.BucketEndpoints` | test/tokenomics.py:7 | a root of 0 gives `max`, a root of 1 gives `min`, and when `min == max` every root gives `min` |
| `Sampler.BucketMonotone` | test/tokenomics.py:7 | a larger root never gives a larger bucket, for any bounds `min <= max` |
| `Sampler.BucketIsMaxExactlyAtZero` | test/tokenomics.py:7 | with `0 <= min < max`, the bucket is `max` if and only if the root is 0 |
| `Sampler.BucketIsMinExactly` | test/tokenomics.py:7 | with `0 <= min <= max`, the bucket is `min` if and only if `(max - min) * (1 - s) < 1` |
| `Sampler.IsRoot` | test/tokenomics.py:7 | `s` is `u ** 0.5` in exact reals: `0 <= s` and `s * s == u`; only a non-negative draw has such a root |
| `Sampler.RootInUnit` | test/tokenomics.py:6-7 | the square root of a draw in [0, 1] lies in [0, 1], so it meets the sampler's range condition |
| `Sampler.RootUnique` | test/tokenomics.py:7 | a draw has only one non-negative square root, so the bucket is a function of the draw |
| `Sampler.ReferenceDraws` | test/tokenomics.py:5-8 | with the script's bounds 0 and 5000, draw 0 gives 5000, draw 1 gives 0 and draw 0.25 gives 2500 |
| `Tally.Keys` | test/tokenomics.py:17 | the keys `range(min, max + 1)` produces: an integer is a key if and only if it lies in `min..max` |
| `Tally.Samples` | test/tokenomics.py:20-21 | one `getRandomNumber(max, min)` call per trial, in trial order: as many buckets as roots, the `j`-th being the bucket of the `j`-th root; with `min <= max` and every root in [0, 1], every bucket lies in `min..max` |
| `Tally.Percent` | test/tokenomics.py:23 | the stored percentage `float(count) / iterations * 100`: the number that is to 100 as the count is to `iterations` |
| `Tally.KeysCardinality` | test/tokenomics.py:17-19 | the range `min..max` has `max - min + 1` keys when `min <= max`, and none otherwise |
| `Tally.SamplesInRange` | test/tokenomics.py:21-22 | when `min <= max` and every root is in [0, 1], every trial's bucket is one of the keys `min..max` |
| `Tally.Count` | test/tokenomics.py:20-22 | the number of trials that drew a given bucket is at most the number of trials |
| `Tally.CountZeroIffAbsent` | test/tokenomics.py:19-22 | a bucket's count is zero if and only if no trial drew it |
| `Tally.CountAppend` | test/tokenomics.py:22 | one more trial adds one to the count of its own bucket and nothing to the others |
| `Tally.TotalUpdate` | test/tokenomics.py:22 | overwriting one count changes the sum of the counts over a range by the difference when the key is in the range, and not at all otherwise |
| `Tally.PercentZero` | test/tokenomics.py:19-23 | a percentage `count / iterations * 100` is zero if and only if its count is |
| `Tally.PercentOfAll` | test/tokenomics.py:23 | a key drawn by every one of the `iterations` trials stands at 100 percent |
| `Tally.TotalPercentOfCounts` | test/tokenomics.py:23 | when every percentage agrees with its count, the percentages over a range add up to the percentage of the summed counts |
| `Tally.PrefillStep` | test/tokenomics.py:17-19 | adding the next key with count 0 and percentage 0 extends the pre-filled range `min..i-1` to `min..i`, keeping every entry zero |
| `Tally.InitTables` | test/tokenomics.py:15-19 | after the pre-fill loop both tables have exactly the keys `min..max`, `max - min + 1` of them when `min <= max`, with every count 0, every percentage 0 and the counts summing to 0 |
| `Tally.InitialTallied` | test/tokenomics.py:15-20 | the pre-filled tables are the tally of zero trials |
| `Tally.Trial` | test/tokenomics.py:22-23 | one trial on bucket `num`: its count rises by exactly one and its percentage is recomputed from the new count; the key sets and every other key's count and percentage are unchanged; consistent tables stay consistent |
| `Tally.TrialPreservesTallied` | test/tokenomics.py:21-23 | a trial on a key in `min..max` turns the tally of the trials so far into the tally of those trials plus this one: each count is its key's number of draws, percentages agree with counts, and the counts sum to the number of trials |
| `Tally.RunTrials` | test/tokenomics.py:20-23 | the trial loop: every lookup hits an existing key, and afterwards the tables are the tally of all the trials' buckets |
| `Tally.CompletedTables` | test/tokenomics.py:20-23 | after all `iterations` trials every count is between 0 and `iterations`, a key's count and percentage are zero exactly when no trial drew it, the percentages add up to 100, and when `min == max` the single key holds `iterations` at 100 percent |
| `Tally.Simulate` | test/tokenomics.py:11-23 | the whole run: both tables keep exactly the keys `min..max`; each count is the number of trials that drew its key, between 0 and `iterations`; count and percentage are zero exactly for keys never drawn; each percentage is `count / iterations * 100`; counts sum to `iterations` and percentages to 100; when `min == max` the single key has count `iterations` and percentage 100 |

## Left out

- `random.uniform(0, 1)` (test/tokenomics.py:6) is a nondeterministic library call. The model takes the square roots of the draws as an input sequence, one per trial.
- Floating point: `** 0.5` and the percentage division (test/tokenomics.py:7, 23) are modelled with exact reals, not IEEE doubles. So the percentages add up to exactly 100 here, while the script's doubles add up to about 100.
- The initial percentage is the Python integer `0` in the source (test/tokenomics.py:19); the model stores the real `0.0`, which has the same value.
- The JSON write to `probabilities.json` (test/tokenomics.py:25-26) is output only and is not modelled.
- The constants `max = 5000`, `min = 0` and `iterations = 100000000` (test/tokenomics.py:12-14) become parameters. `Simulate` and `RunTrials` require `min <= max` and `iterations > 0`, which the constants meet. With `min > max` the script would stop on a missing key, and with `iterations == 0` it would write an all-zero table; neither case is modelled.
- The claim that buckets near `min` come up more often is statistical; it is not a property of any single run, so it is not stated. `BucketMonotone` and the two endpoint lemmas state what the formula fixes deterministically.
- Python integers are unbounded, as are Dafny's, so counts need no overflow model.
