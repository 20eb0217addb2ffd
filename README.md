# kana quiz engine, modelled in Dafny

`kana` is a terminal quiz for the Japanese kana. It merges the hiragana and
katakana tables into one map, optionally limits it to a number of items, and
then asks questions in a loop.

- **Drawing a question.** Each question is drawn at random, weighted by a
  per-item selection weight.
- **Repeat guard.** A short history keeps the same item from coming back too
  soon.
- **Re-weighting.** A miss multiplies the item's weight by 8 while it is
  below 512. A correct answer halves it while it is above 1/16.
- **Bookkeeping.** The counters record attempts, misses and answer times.
- **Quitting.** The quiz stops on `q` or `quit` and prints the score and the
  p95/p50 answer latencies.

The project also models the vendored helpers the quiz core relies on:

- from `blend/go-sdk/mathutil`: the percentile, copy-and-sort, mean, sum and
  min/max routines on ints and durations;
- `ansi.Table`: a box-drawing table writer;
- the space-trimming helpers of `ansi/slant`;
- from `sh`: `ArgsTrailer` (the arguments after a `--` token) and
  `MaxBytesWriter` (a writer with a byte budget).

Modules, one file each:

- `Runes` (runes.dfy): the rune predicates the program borrows from Go's
  standard library: white space, ASCII lower-casing, `TrimSpace` and
  `utf8.RuneLen`.
- `Weights` (weights.dfy): the selection-weight table, a class over a
  `map<string, real>`. Its invariant is that every weight is a power of two
  between 2^-4 and 2^11.
- `Sampler` (sampler.dfy): `selectWeighted`. It collects the choices, sums
  them into running totals and binary-searches for the drawn point.
- `History` (history.dfy): `listHas`, `listAddFixedLength` and the repeat
  window size.
- `Items` (items.dfy): `mergeSets`, `selectCount`, `incrementCount` and
  `min`.
- `Answer` (answer.dfy): the classification inside `ask`.
- `Session` (session.dfy): the state of `main` and one pass of the quiz loop,
  as the class `Quiz`.
- `MathSum`, `MathExtrema`, `MathSort`, `MathPercentile`: the `mathutil`
  routines. main.go's private copies (`percentileOfDuration` through
  `sumDurations`, main.go:483-560) are identical to them and are modelled by
  the same members.
- `AnsiTable` (table.dfy): `Table`, `stringWidth` and `writeWidth`. The
  output is modelled as a sequence of lines.
- `Slant` (slant.dfy): `trimAmount` and the row trimming helpers of
  `slant/print.go`.
- `Sh` (sh.dfy): `ArgsTrailer`, and `MaxBytesWriter` as a class.

In these places the model follows the code as written, not what its names
or comments suggest:

- **Weight overshoot.** `increaseWeight` tests `weight < weightMax` before it
  multiplies, so a weight of 256 becomes 2048. The weights are therefore
  bounded by 2048, not by `weightMax` (`Weights.IncreasedExponent`,
  `Weights.IncreasedTimesSaturates`).
- **Untrimmed answers.** `ask` trims white space only when it tests for the
  quit command. The answer itself is compared untrimmed, so `"ka "` is
  incorrect for `ka` (`Answer.PaddedAnswerIncorrect`).
- **`ArgsTrailer` at index 0.** A `--` at index 0 leaves `foundIndex` at 0,
  which is the value meaning "no token". Such an argument list is reported as
  missing its token, even when a later `--` exists
  (`Sh.TokenFirstHidesLater`).
- **`maxRepeatHistory`.** The repeat window is `maxRepeatHistory` (5). With
  no more than 5 items it is half the item count. `listAddFixedLength` keeps
  at most `window - 1` entries once the list reaches the window, so the guard
  holds `max(window - 1, 0)` keys (`History.Capacity`).

## Model

| member | source | states |
|---|---|---|
| Runes.RuneLen | vendor/github.com/blend/go-sdk/ansi/table.go:157 | the UTF-8 length of a rune is 1 to 4 bytes, and 1 exactly for runes below 0x80 |
| Runes.ToLower | main.go:290 | lower-casing keeps the length and maps each rune on its own |
| Runes.TrimLeadingSpec | main.go:290 | TrimLeading drops exactly the leading white-space run: the result is a suffix that is empty or starts with a non-space |
| Runes.TrimTrailingSpec | main.go:290 | TrimTrailing drops exactly the trailing white-space run: the result is a prefix that is empty or ends with a non-space |
| Runes.TrimSpaceSpec | vendor/github.com/blend/go-sdk/sh/args_trailer.go:19 | TrimSpace is a contiguous slice of its input with no white space at either end, and everything it drops is white space |
| Runes.LowerKeepsSpace | main.go:290 | lower-casing a rune does not change whether it is white space |
| Runes.LowerTrimLeading | main.go:290 | lower-casing and trimming leading space commute |
| Runes.LowerTrimTrailing | main.go:290 | lower-casing and trimming trailing space commute |
| Runes.LowerTrimSpace | main.go:290 | `ToLower(TrimSpace(s)) == TrimSpace(ToLower(s))`, so the order of the two calls in the quit test does not matter |
| Weights.Pow2 | main.go:22-26 | powers of two are positive; they are the values every weight takes |
| Weights.Pow2Monotone | main.go:22-26 | 2^a < 2^b whenever a < b |
| Weights.Thresholds | main.go:22-26 | weightMax is 2^9, weightMin is 2^-4 and weightDefault is 2^0 |
| Weights.IncreasedExponent | main.go:309-315 | an increase adds 3 to the exponent exactly when the weight is below 512 (2^9), so 256 becomes 2048 |
| Weights.DecreasedExponent | main.go:317-324 | a decrease takes 1 from the exponent exactly when the weight is above 1/16 |
| Weights.StepsToMaxFacts | main.go:309-315 | the number of increases before saturation drops by one per increase, and the saturated exponent is 9, 10 or 11 |
| Weights.IncreasedTimesExponent | main.go:309-315 | after n increases, 2^e is 2^(e + 3·min(n, steps to saturation)) |
| Weights.IncreasedTimesSaturates | main.go:309-315 | enough misses drive any reachable weight into [512, 2048], and it stays there |
| Weights.DecreasedTimesFloor | main.go:317-324 | after n correct answers, 2^e is max(1/16, 2^e / 2^n) |
| Weights.SetPower | main.go:309-324 | writing 2^e with e in range into the table keeps every weight a power of two in range |
| Weights.WeightTable.constructor | main.go:301-307 | createWeights: exactly the item keys, each with weight 1.0, and the table invariant holds |
| Weights.WeightTable.WeightsInRange | main.go:22-26 | every weight lies in [1/16, 2048] and is positive |
| Weights.WeightTable.Increase | main.go:309-315 | increaseWeight: a present key below 512 is multiplied by 8, one at or above 512 is kept; other keys and missing keys are untouched; the key set and the power-of-two invariant are kept |
| Weights.WeightTable.Decrease | main.go:317-324 | decreaseWeight: a present key above 1/16 is halved, one at or below it is kept; other keys and missing keys are untouched; the invariant is kept |
| Sampler.WeightsAlong | main.go:332-338 | one weight per ranked key, a missing weight read as Go's zero value |
| Sampler.RunningTotals | main.go:346-351 | entry j is the sum of the first j + 1 weights |
| Sampler.FirstAtLeast | main.go:353 | the first index whose total reaches x (or the length): every earlier total is below x |
| Sampler.SearchFloat64s | main.go:353 | the binary search over ascending totals returns exactly that first index |
| Sampler.FirstAtLeastUnique | main.go:353 | any index with "all before are below x, this one reaches x" is the first one |
| Sampler.WeightsAlongNonNegative | main.go:336 | non-negative weights give non-negative weights along the ranking |
| Sampler.PrefixMonotone | main.go:346-351 | with non-negative weights the running sums never decrease |
| Sampler.RunningTotalsAscending | main.go:346-351 | the totals slice is ascending, as SearchFloat64s requires |
| Sampler.CollectChoices | main.go:332-338 | the collecting loop yields one choice per key, in order, carrying the key's weight |
| Sampler.ChoiceWeights | main.go:348-349 | the weights of the choices, position by position |
| Sampler.AccumulateTotals | main.go:346-351 | the summing loop fills totals with the running sums and ends with the sum of all weights |
| Sampler.SelectWeighted | main.go:326-358 | the drawn key is an item and roman is its value; it is the ranked key at the first total reaching u·(sum of weights) |
| Sampler.Scale | main.go:352 | the drawn point lies in [0, total], and is 0 when the total is 0 |
| Sampler.DrawInRange | main.go:352-355 | a point no larger than the sum of weights selects an index inside the slice, so `keys[randomIndex]` cannot go out of range |
| Sampler.DrawInterval | main.go:346-355 | a positive point selects key j exactly when it lies in (sum of weights before j, sum through j] |
| Sampler.ZeroWeightNeverDrawn | main.go:346-355 | a key with weight 0 is never selected by a positive point |
| Sampler.EveryKeyReachable | main.go:346-355 | with positive weights every key has an interval of positive length and some u selects it |
| Sampler.Ratio | main.go:352 | the u in [0, 1) that scales the total to a given point below it |
| History.ListHas | main.go:451-458 | listHas is true exactly when the value occurs in the list |
| History.ListAddFixedLength | main.go:461-467 | the value is appended; the length grows by one only while it stays below max |
| History.AddIsSuffix | main.go:461-467 | the result is list + [value], or that sequence without its first element |
| History.Last | main.go:96 | the window of the last n entries has length min(n, length of the sequence) |
| History.LastIsSuffix | main.go:96 | that window is the suffix of the sequence of that length |
| History.InLast | main.go:93-96 | an entry within n of the end is in the last n |
| History.AddStaysWithinCapacity | main.go:96 | the history never grows past the guard's capacity |
| History.AddKeepsLatestWindow | main.go:96 | adding to the last-capacity window of the accepted keys gives the last-capacity window of the accepted keys plus the new one |
| History.WindowSize | main.go:85-88 | the window is maxRepeatHistory (5), or half the item count when there are at most 5 items |
| History.WindowLeavesRoom | main.go:85-88 | the guard holds fewer keys than there are items |
| History.SomeKeyEligible | main.go:90-95 | a history shorter than the key set leaves some key the guard lets through |
| Items.MergeSets | main.go:360-368 | the loop computes the merge of all maps in order |
| Items.MergedKeys | main.go:360-368 | a key is in the merge exactly when some input map has it |
| Items.MergedLastWriterWins | main.go:360-368 | a key takes its value from the last map that has it |
| Items.SelectCount | main.go:436-448 | selectCount: a sub-map of values; all of values when count >= len(values) or count <= 0; otherwise exactly count entries, namely the first count keys in iteration order |
| Items.CopyUntilCount | main.go:440-447 | the copying loop stops once count entries are in, and copies everything when count <= 0 |
| Items.WalkedEveryKey | main.go:441-446 | a copy holding every key in the iteration order is the whole map |
| Items.Incremented | main.go:384-390 | incrementCount: a missing key becomes 1, a present key goes up by one, other keys are unchanged |
| Items.IncrementedSum | main.go:384-390 | incrementCount raises the sum of all counts by exactly one |
| Items.MapSumNonNegative | main.go:384-390 | counts that are all non-negative have a non-negative sum |
| Items.MapSumMonotone | main.go:104-116 | pointwise smaller counts over fewer keys have a smaller sum (misses never exceed attempts in total) |
| Items.Min | main.go:469-480 | min of no values is 0; otherwise an element no larger than any other |
| Answer.Ask | main.go:288-299 | Quit exactly when the trimmed, lower-cased input is "q" or "quit"; Correct exactly when it is not a quit command and the untrimmed input equals the expected romaji ignoring case |
| Answer.AskIgnoresCase | main.go:295 | inputs and expectations that lower-case alike get the same outcome |
| Answer.PaddedQuitQuits | main.go:290-292 | " Q\n" quits |
| Answer.UpperCaseAnswerCorrect | main.go:295-296 | "KA" is correct for ka |
| Answer.PaddedAnswerIncorrect | main.go:295-298 | "ka " is incorrect for ka: the answer is not trimmed |
| Session.Quiz.constructor | main.go:35-54 | the set-up: weight 1.0 for every item, empty counters and history, window from the item count, invariants established |
| Session.Quiz.Draw | main.go:90-96 | the drawn key is an item, chosen as selectWeighted chooses; it is accepted exactly when it is not in the history; an accepted key enters the history; a refused draw changes nothing |
| Session.Quiz.Admit | main.go:96 | an accepted key enters the history, the oldest leaving once full, and the guard invariant is kept |
| Session.Quiz.Step | main.go:100-121 | the outcome is Ask's; quitting changes nothing; otherwise the counters record the answer, and the key's weight is halved on a correct answer and raised on a miss |
| Session.Quiz.Reweigh | main.go:104-116 | decreaseWeight after a correct answer, increaseWeight after a miss, for that key only |
| Session.Quiz.Record | main.go:105-121 | the counters become Answered(old counters): one more attempt, a correct answer or a miss, one more sample |
| Session.Quiz.Percentiles | main.go:65 | each of the p95 and p50 figures is 0 or lies between two of the recorded answer times; with no answers both are 0 |
| Session.Quiz.ScoreBounds | main.go:59-63 | the score is 0 <= correct <= answered, and total misses are at most total attempts |
| Session.Quiz.SomeKeyEligible | main.go:90-95 | the rejection loop can always make progress: some item is not held by the guard |
| Session.AnswerKeepsPerKeyCounts | main.go:104-120 | per key: attempts >= 1, as many samples as attempts, misses <= attempts, all kept by an answer |
| Session.AnswerKeepsTotals | main.go:104-121 | the totals keep totalAnswered = number of samples = sum of attempts and totalCorrect + sum of misses = totalAnswered |
| Session.AnswerKeepsCounts | main.go:104-121 | recording an answer for an item keeps all the bookkeeping invariants |
| Session.AcceptKeepsGuard | main.go:93-96 | accepting a key the guard does not hold keeps the guard invariant |
| Session.CountsBound | main.go:104-116 | correct answers never exceed answered ones, nor misses attempts |
| Session.FreshWithinNoRepeat | main.go:93-96 | no key is accepted twice within capacity + 1 consecutive acceptances |
| MathSum.SumConcat | vendor/github.com/blend/go-sdk/mathutil/sum.go:30-37 | the sum of a concatenation is the sum of the sums |
| MathSum.SumPermutation | vendor/github.com/blend/go-sdk/mathutil/sum.go:30-37 | the sum does not depend on the order, so the sorted copy has the same sum |
| MathSum.SumBounds | vendor/github.com/blend/go-sdk/mathutil/sum.go:30-37 | n values in [lo, hi] sum to between n·lo and n·hi |
| MathSum.SumInts | vendor/github.com/blend/go-sdk/mathutil/sum.go:20-27 | the loop returns the sum of all values |
| MathSum.SumDurations | vendor/github.com/blend/go-sdk/mathutil/sum.go:30-37 | the loop returns the sum of all values (also main.go:553-560) |
| MathExtrema.MinInts | vendor/github.com/blend/go-sdk/mathutil/min.go:19-31 | 0 for an empty slice; otherwise an element that is at most every element |
| MathExtrema.MaxInts | vendor/github.com/blend/go-sdk/mathutil/max.go:21-35 | 0 for an empty slice; otherwise an element that is at least every element |
| MathExtrema.MinMaxInts | vendor/github.com/blend/go-sdk/mathutil/min_max.go:24-39 | (0, 0) for an empty slice; otherwise two elements bounding every element |
| MathExtrema.MinMaxDurations | vendor/github.com/blend/go-sdk/mathutil/min_max.go:42-57 | the same for durations |
| MathSort.Insert | vendor/github.com/blend/go-sdk/mathutil/copy_sort.go:37-41 | inserting into a sorted sequence gives a sorted sequence with one more element |
| MathSort.SortSeq | vendor/github.com/blend/go-sdk/mathutil/copy_sort.go:37-41 | the reference sort: a sorted permutation of its input |
| MathSort.SortedUnique | vendor/github.com/blend/go-sdk/mathutil/copy_sort.go:37-41 | two sorted sequences with the same elements are equal, so the sorted copy is unique |
| MathSort.Swap | vendor/github.com/blend/go-sdk/mathutil/copy_sort.go:59-61 | Durations.Swap exchanges two slots, leaves the others and keeps the multiset |
| MathSort.Sort | vendor/github.com/blend/go-sdk/mathutil/copy_sort.go:54-66 | sort.Sort through Len/Less/Swap leaves the slice sorted and a permutation of what it held |
| MathSort.CopyInts | vendor/github.com/blend/go-sdk/mathutil/copy_sort.go:30-34 | a fresh slice with the same elements |
| MathSort.CopyDurations | vendor/github.com/blend/go-sdk/mathutil/copy_sort.go:44-48 | a fresh slice with the same elements (also main.go:517-521) |
| MathSort.CopySortInts | vendor/github.com/blend/go-sdk/mathutil/copy_sort.go:23-27 | a fresh sorted permutation of the input, equal to the reference sort, with the input left unchanged |
| MathSort.CopySortDurations | vendor/github.com/blend/go-sdk/mathutil/copy_sort.go:37-41 | the same for durations (also main.go:510-514) |
| MathPercentile.MeanDurations | vendor/github.com/blend/go-sdk/mathutil/mean.go:25-33 | 0 for no samples; otherwise the floor of sum / n, i.e. r·n <= sum < (r + 1)·n (also main.go:542-550) |
| MathPercentile.SumNonNegative | vendor/github.com/blend/go-sdk/mathutil/sum.go:30-37 | non-negative durations have a non-negative sum |
| MathPercentile.MeanOfOne | vendor/github.com/blend/go-sdk/mathutil/mean.go:25-33 | the mean of one sample is that sample |
| MathPercentile.MeanOfTwo | vendor/github.com/blend/go-sdk/mathutil/percentile.go:51 | the mean of two samples is their halved sum, rounded down |
| MathPercentile.MeanBetween | vendor/github.com/blend/go-sdk/mathutil/mean.go:25-33 | the mean lies between any lower and upper bound of the samples |
| MathPercentile.Pow10 | main.go:575 | 10^places is at least 1 |
| MathPercentile.HalfUp | main.go:576-583 | the digit rounded half up: within 1/2 of it, ties going up |
| MathPercentile.RoundPlaces | main.go:563-586 | roundPlaces keeps the sign of its input |
| MathPercentile.RoundHalfUp | main.go:563-586 | at 0 places a non-negative value rounds to floor(x + 1/2), within 1/2 of x |
| MathPercentile.RoundPlacesWhole | main.go:574-585 | the result is a whole number of units of 10^-places |
| MathPercentile.RoundPlacesSymmetric | main.go:568-585 | rounding -x gives minus the rounding of x, so halves go away from zero on both sides |
| MathPercentile.RankIndex | vendor/github.com/blend/go-sdk/mathutil/percentile.go:43 | the rank (p/100)·n lies in [0, n), and is 0 for no samples |
| MathPercentile.AtIndex | vendor/github.com/blend/go-sdk/mathutil/percentile.go:44-59 | the figure read at a rank is never negative |
| MathPercentile.PercentileSortedDurations | vendor/github.com/blend/go-sdk/mathutil/percentile.go:42-60 | non-negative, and 0 for no samples (also main.go:491-507) |
| MathPercentile.PercentileOfDuration | vendor/github.com/blend/go-sdk/mathutil/percentile.go:34-39 | 0 for no samples; never negative (also main.go:483-488) |
| MathPercentile.AtWholeIndex | vendor/github.com/blend/go-sdk/mathutil/percentile.go:44-51 | a whole rank i >= 1 gives the mean of the samples at i - 1 and i |
| MathPercentile.AtFractionalIndex | vendor/github.com/blend/go-sdk/mathutil/percentile.go:54-59 | a fractional rank, rounded half up to i, gives 0 when i < 1 and the sample at i - 1 otherwise |
| MathPercentile.AtIndexWithinRange | vendor/github.com/blend/go-sdk/mathutil/percentile.go:44-59 | on sorted samples the figure is 0 or between the smallest and largest sample |
| MathPercentile.PercentileWholeIndex | vendor/github.com/blend/go-sdk/mathutil/percentile.go:43-51 | a whole rank i >= 1 averages the samples at i - 1 and i |
| MathPercentile.PercentileZeroIndex | vendor/github.com/blend/go-sdk/mathutil/percentile.go:43-49 | a rank of 0 gives 0 |
| MathPercentile.PercentileFractionalIndex | vendor/github.com/blend/go-sdk/mathutil/percentile.go:43-59 | a fractional rank picks the sample at its half-up rounding minus one, or 0 |
| MathPercentile.PercentileWithinRange | vendor/github.com/blend/go-sdk/mathutil/percentile.go:42-60 | on sorted samples the percentile is 0 or within the samples' range |
| MathPercentile.PercentileOfDurationWithinRange | vendor/github.com/blend/go-sdk/mathutil/percentile.go:34-39 | on unsorted samples the percentile is 0 or lies between two of the samples |
| MathPercentile.PercentileExample | vendor/github.com/blend/go-sdk/mathutil/percentile.go:42-60 | p50 of [10, 20, 30, 40] is 25, p95 is 40, and any percentile of no samples is 0 |
| AnsiTable.WidthAppend | vendor/github.com/blend/go-sdk/ansi/table.go:153-165 | the display width of a concatenation is the sum of the widths |
| AnsiTable.WidthBounds | vendor/github.com/blend/go-sdk/ansi/table.go:153-165 | n runes are between n and 2n columns wide, and exactly n wide when all of them are ASCII |
| AnsiTable.StringWidth | vendor/github.com/blend/go-sdk/ansi/table.go:153-165 | the loop counts 2 per multi-byte rune and 1 per single-byte rune |
| AnsiTable.WidthOfSpaces | vendor/github.com/blend/go-sdk/ansi/table.go:173 | n spaces are n columns wide |
| AnsiTable.RepeatCount | vendor/github.com/blend/go-sdk/ansi/table.go:91 | strings.Repeat(c, n) holds n copies of c and nothing else |
| AnsiTable.WriteWidth | vendor/github.com/blend/go-sdk/ansi/table.go:167-174 | the value followed by width - Width(value) spaces, exactly width columns wide; only a cell that gets padded (and so becomes an Fprintf format) must be free of '%' |
| AnsiTable.PaddedWidthIs | vendor/github.com/blend/go-sdk/ansi/table.go:167-174 | every padded cell is exactly its column's width |
| AnsiTable.CellsJoin | vendor/github.com/blend/go-sdk/ansi/table.go:128-133 | the cells of a line are joined by the separator, with a trailing separator when the row is shorter than the columns |
| AnsiTable.JoinedBars | vendor/github.com/blend/go-sdk/ansi/table.go:89-97 | a border's interior has sum(widths) + n - 1 runes: that many horizontal bars and n - 1 separators |
| AnsiTable.BorderShape | vendor/github.com/blend/go-sdk/ansi/table.go:89-97 | a border is its corner, the bars and separators, then its other corner, sum(widths) + n + 1 runes |
| AnsiTable.ColumnWidthIsMax | vendor/github.com/blend/go-sdk/ansi/table.go:73-85 | a column's width is the largest width among its name and its cells, and some of them attains it |
| AnsiTable.ColumnWidthsFit | vendor/github.com/blend/go-sdk/ansi/table.go:73-85 | every name and every cell fits its column |
| AnsiTable.MaxWidths | vendor/github.com/blend/go-sdk/ansi/table.go:73-85 | the width loops leave maxWidths equal to the column maxima |
| AnsiTable.DrawBorder | vendor/github.com/blend/go-sdk/ansi/table.go:89-97 | one border line: corner, a bar run per column with separators between them, corner |
| AnsiTable.DrawRow | vendor/github.com/blend/go-sdk/ansi/table.go:126-136 | one row line: a bar, the padded cells with bars between them, a closing bar |
| AnsiTable.Table | vendor/github.com/blend/go-sdk/ansi/table.go:67-151 | no columns is the error case; otherwise top border, header, middle border, one line per row, and footer, |rows| + 4 lines |
| AnsiTable.LayoutRowLines | vendor/github.com/blend/go-sdk/ansi/table.go:102-136 | line 1 is the header and line 3 + i is row i, both drawn against the column widths |
| AnsiTable.FullLine | vendor/github.com/blend/go-sdk/ansi/table.go:126-136 | a full row is bars around the padded cells, each exactly its column's width |
| AnsiTable.FullRowMatchesHeader | vendor/github.com/blend/go-sdk/ansi/table.go:102-136 | a full row's line has the header line's length and the same bars at the same places |
| AnsiTable.ShortRowEndsInDoubleBar | vendor/github.com/blend/go-sdk/ansi/table.go:126-136 | a row shorter than the columns ends in two bars |
| Slant.LeadingRun | vendor/github.com/blend/go-sdk/ansi/slant/print.go:85-92 | the length of the leading white-space run is within the row |
| Slant.TrailingRun | vendor/github.com/blend/go-sdk/ansi/slant/print.go:94-101 | the length of the trailing white-space run is within the row |
| Slant.LeadingRunSpec | vendor/github.com/blend/go-sdk/ansi/slant/print.go:85-92 | the run is all white space and is followed by a non-space or the end |
| Slant.LeadingRunUnique | vendor/github.com/blend/go-sdk/ansi/slant/print.go:85-92 | only one length has that property |
| Slant.TrailingRunSpec | vendor/github.com/blend/go-sdk/ansi/slant/print.go:94-101 | the run is all white space and preceded by a non-space or the start |
| Slant.TrailingRunUnique | vendor/github.com/blend/go-sdk/ansi/slant/print.go:94-101 | only one length has that property |
| Slant.TrimLeadingAfterRun | vendor/github.com/blend/go-sdk/ansi/slant/print.go:113-120 | dropping leading space is slicing off the leading run |
| Slant.TrimTrailingBeforeRun | vendor/github.com/blend/go-sdk/ansi/slant/print.go:142-150 | dropping trailing space is slicing off the trailing run |
| Slant.AllSpaceIsLeadingRun | vendor/github.com/blend/go-sdk/ansi/slant/print.go:85-92 | a row is all white space exactly when its leading run is the whole row |
| Slant.CountLeadingSpace | vendor/github.com/blend/go-sdk/ansi/slant/print.go:85-92 | the index of the first non-space rune, or the length when there is none |
| Slant.CountTrailingSpace | vendor/github.com/blend/go-sdk/ansi/slant/print.go:94-101 | the length of the trailing run, except 0 for a row that is all white space |
| Slant.TrimLeft | vendor/github.com/blend/go-sdk/ansi/slant/print.go:103-111 | the row without its first count runes, empty when count reaches the length |
| Slant.TrimRight | vendor/github.com/blend/go-sdk/ansi/slant/print.go:152-160 | the row without its last count runes, empty when count reaches the length |
| Slant.TrimRightThenLeft | vendor/github.com/blend/go-sdk/ansi/slant/print.go:103-160 | the part trimRight keeps and the part trimLeft keeps, for complementary counts, make up the row |
| Slant.TrimLeftSpace | vendor/github.com/blend/go-sdk/ansi/slant/print.go:113-120 | the row from its first non-space rune; an all-space row is returned whole |
| Slant.TrimRightSpace | vendor/github.com/blend/go-sdk/ansi/slant/print.go:142-150 | the row up to its last non-space rune; an all-space non-empty row keeps its first rune; the empty row stays empty |
| Slant.TrimRightSpaceMax | vendor/github.com/blend/go-sdk/ansi/slant/print.go:122-131 | at most max trailing spaces are removed (none when max <= 0); only spaces are removed, and the budget left is max minus the removed count |
| Slant.TrimLeftSpaceMax | vendor/github.com/blend/go-sdk/ansi/slant/print.go:133-140 | the row from the first non-space rune or from index max, whichever comes first, with the budget left; an all-space row within budget is returned whole |
| Slant.ReplaceRunes | vendor/github.com/blend/go-sdk/ansi/slant/print.go:162-169 | every old rune becomes the new one in place, other runes stay, and the same slice is returned |
| Slant.TrimAmount | vendor/github.com/blend/go-sdk/ansi/slant/print.go:56-79 | at most the larger row count, at most the trailing space of a plus the leading space of b on every row, and equal to one of those |
| Sh.FirstToken | vendor/github.com/blend/go-sdk/sh/args_trailer.go:18-23 | the index of the first "--" is within the arguments |
| Sh.FirstTokenSpec | vendor/github.com/blend/go-sdk/sh/args_trailer.go:18-23 | no argument before it is a token, and it is one when in range |
| Sh.ArgsTrailer | vendor/github.com/blend/go-sdk/sh/args_trailer.go:16-31 | missing-token error exactly when the scan leaves index 0; nothing-follows error exactly when the token is the last argument; otherwise the arguments after the first token |
| Sh.TrailerAfterFirstToken | vendor/github.com/blend/go-sdk/sh/args_trailer.go:16-31 | a first token at index f > 0 with something after it yields a non-empty trailer from f + 1 |
| Sh.TokenFirstHidesLater | vendor/github.com/blend/go-sdk/sh/args_trailer.go:24-26 | a token at index 0 looks like no token at all |
| Sh.NoTokenNoTrailer | vendor/github.com/blend/go-sdk/sh/args_trailer.go:24-26 | without any token the scan reports the missing-token error |
| Sh.MaxBytesWriter.LimitBytes | vendor/github.com/blend/go-sdk/sh/limit_bytes.go:16-21 | a writer with the given maximum that has counted and passed on nothing |
| Sh.MaxBytesWriter.Max | vendor/github.com/blend/go-sdk/sh/limit_bytes.go:33-35 | the maximum |
| Sh.MaxBytesWriter.Count | vendor/github.com/blend/go-sdk/sh/limit_bytes.go:38-40 | the bytes counted so far |
| Sh.MaxBytesWriter.Write | vendor/github.com/blend/go-sdk/sh/limit_bytes.go:42-59 | refused, passing nothing on, when the count has reached max or the contents would take it to max; otherwise passed on, with the inner writer's count added even on error; with an honest inner writer the count never decreases and stays below max |

## Left out

- Terminal I/O is not part of this model. `promptf`'s reading of standard
  input becomes the `answer` parameter of `Session.Quiz.Step`. The printing in
  `finish`, `printResults`, the score lines and the ANSI colour helpers are
  left out, and so are flag parsing, `fatal` and `os.Exit`.
- Concurrency is not modelled: the quiz goroutine, `recover`, `waitSigInt`
  and the mutex inside `MaxBytesWriter`. The model is sequential.
- Randomness and the clock are parameters. `rand.Float64` is the `u` in
  [0, 1), and the elapsed time of an answer is an `int`.
- Map iteration order and `sort.Slice`'s tie order are parameters.
  `selectWeighted` takes the ascending ranking, and `selectCount` takes the
  iteration order.
- Floating point: weights, the drawn point and the percentile rank are exact
  reals. Every reachable weight is a power of two, so the weights lose
  nothing. The rank (p/100)·n is exact, so float rounding of it is not
  captured, and roundPlaces' `math.IsNaN` branch cannot arise.
- `mathutil.RoundPlaces` is not part of this model (it is not in
  mathutil/round.go). PercentileSortedDurations rounds with main.go's
  `roundPlaces` (main.go:563-586), the copy main.go's own percentile code
  calls.
- MathPercentile.RoundPlaces: its contract states its sign; RoundHalfUp
  states its value at 0 places, RoundPlacesWhole that the result is a whole
  number of units of 10^-places and RoundPlacesSymmetric its symmetry about
  zero; that the result lies within half a unit of the input at more than 0
  places is not stated.
- MathPercentile.MeanDurations: requires non-negative samples. The
  `uint64` reinterpretation of a negative sum is not modelled.
- MathPercentile.PercentileSortedDurations: requires 0 <= percentile < 100.
  At 100 the whole-rank branch reads past the end of the slice, and a
  negative percentile is never passed (the program asks for 95 and 50).
- Go's fixed-width integer wrap-around in sums and counters is not modelled;
  integers are unbounded.
- Session.Quiz.Percentiles: the p95 and p50 figures are not rounded to
  the millisecond as `finish` prints them (main.go:65). That rounding is
  display only, and a rounded figure can fall outside the range of the
  samples.
- Runes.ToLower: lower-cases ASCII letters only. Unicode case mapping beyond
  ASCII is not modelled; the quizzed answers are ASCII romaji.
- AnsiTable.Table: the output is a sequence of lines, with no writer errors.
  Its precondition excludes rows longer than the column list, where Go
  panics. It also excludes a '%' in a cell narrower than its column: such a
  cell is padded through Fprintf, which would read the '%' as a verb. A
  full-width cell goes through Fprint and may hold '%'.
- `ansi.TableForSlice` (reflection) is not modelled.
- `slant.Print`, `PrintString` and `rowsForLetter` are not modelled. They
  need the font table and its offset constants, which are not part of this
  model. `Slant.TrimAmount` takes the two letters' rows as parameters.
- Sampler.SelectWeighted: requires at least one item, and so does
  Session.Quiz.Draw. With `-katakana=false -hiragana=false` the item map is
  empty. selectWeighted then indexes `keys[0]` of an empty slice
  (main.go:355), the panic is recovered and passed to `fatal`
  (main.go:72-75), and the program exits. That path is deliberately
  excluded.
- Sampler.SelectWeighted: does not model a draw that lands past the last
  total through float rounding.
- The `ex` package is not modelled. Errors are enum results: the two
  `ErrFlagsNoTrailer` messages become `MissingToken` and `TokenIsLast`, and
  the writer errors become `CapacityLimit` and `InnerError`.
- The writer behind `MaxBytesWriter` is modelled by the log of slices passed
  to it. Its reply (bytes written, failure) is a parameter of
  `Sh.MaxBytesWriter.Write`.
- main_test.go uses helpers main.go does not have and other constants
  (factor 2, floor 0.125). The model follows main.go's constants.
