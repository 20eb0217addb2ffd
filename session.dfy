/**
 * The quiz session of main.go: the state set up in main (lines 35-54 and
 * 85-88) and one pass of the quiz loop (lines 90-121), split into the draw
 * with its repeat guard and the recording of an answer. Reading the answer,
 * the clock and the random source are outside the model: the typed line,
 * the elapsed time, the draw u and the order selectWeighted sorts into are
 * parameters.
 */
module Session {
  import opened Weights
  import opened Sampler
  import opened History
  import opened Items
  import opened Answer
  import opened MathPercentile

  class Quiz {
    /** The quizzed items, kana to romaji. */
    const values: map<string, string>
    /** effectiveMaxRepeatHistory. */
    const window: int
    const weights: WeightTable

    var history: seq<string>
    /** total, incorrect, kanaTimes, times, totalAnswered and totalCorrect. */
    var tally: Tally

    /** Every key accepted by the repeat guard, in order. */
    ghost var shown: seq<string>

    ghost predicate Valid()
      reads this, weights
    {
      && weights.Valid()
      && weights.weights.Keys == values.Keys
      && window == WindowSize(|values|)
      && GuardInvariant(values, window, history, shown)
      && CountInvariant(values, tally)
    }

    /** The set-up in main: fresh weights, empty counters, an empty history. */
    constructor (values: map<string, string>)
      ensures Valid()
      ensures this.values == values && window == WindowSize(|values|)
      ensures fresh(weights)
      ensures weights.weights.Keys == values.Keys
      ensures forall k :: k in weights.weights ==> weights.weights[k] == WeightDefault
      ensures history == [] && shown == []
      ensures tally == NoAnswers
    {
      this.values := values;
      weights := new WeightTable(values);
      var effectiveMaxRepeatHistory := MaxRepeatHistory;
      if MaxRepeatHistory >= |values| {
        effectiveMaxRepeatHistory := |values| / 2;
      }
      window := effectiveMaxRepeatHistory;
      history := [];
      tally := NoAnswers;
      shown := [];
    }

    /**
     * The top of the quiz loop: draw a key with selectWeighted; if the guard
     * holds it, the loop goes round again (accepted is false and nothing
     * changes); otherwise the key enters the history.
     */
    method Draw(ranked: seq<string>, u: real) returns (kana: string, roman: string, accepted: bool)
      requires Valid()
      requires |values| > 0
      requires RankedByWeight(ranked, values, weights.weights)
      requires 0.0 <= u < 1.0
      modifies this
      ensures Valid()
      ensures kana in values && roman == values[kana]
      ensures var ws := WeightsAlong(ranked, old(weights.weights));
        var j := FirstAtLeast(RunningTotals(ws), Scale(u, Prefix(ws, |ws|)));
        j < |ranked| && kana == ranked[j]
      ensures accepted <==> kana !in old(history)
      ensures accepted ==> history == ListAddFixedLength(old(history), kana, window) && shown == old(shown) + [kana]
      ensures !accepted ==> history == old(history) && shown == old(shown)
      ensures tally == old(tally)
    {
      assert NonNegativeWeights(weights.weights) by { weights.WeightsInRange(); }
      kana, roman := SelectWeighted(values, weights.weights, ranked, u);
      var held := ListHas(history, kana);
      if held {
        return kana, roman, false;
      }
      Admit(kana);
      accepted := true;
    }

    /** The guard lets kana through: it enters the history, the oldest entry leaving once full. */
    method Admit(kana: string)
      requires Valid()
      requires kana in values && kana !in history
      modifies this
      ensures Valid()
      ensures history == ListAddFixedLength(old(history), kana, window) && shown == old(shown) + [kana]
      ensures tally == old(tally)
    {
      AcceptKeepsGuard(values, window, history, shown, kana);
      history := ListAddFixedLength(history, kana, window);
      shown := shown + [kana];
    }

    /**
     * The rest of one pass: the answer is classified; quitting changes
     * nothing here (finish prints and exits); otherwise the counters, the
     * key's weight and the samples are updated.
     */
    method Step(kana: string, answer: string, elapsed: int) returns (outcome: Outcome)
      requires Valid()
      requires kana in values
      requires 0 <= elapsed
      modifies this, weights
      ensures Valid()
      ensures outcome == Ask(answer, values[kana])
      ensures history == old(history) && shown == old(shown)
      ensures outcome == Quit ==> tally == old(tally) && weights.weights == old(weights.weights)
      ensures outcome != Quit ==> tally == Answered(old(tally), kana, elapsed, outcome == Correct)
      ensures outcome == Correct ==>
        weights.weights == old(weights.weights)[kana := Decreased(old(weights.weights[kana]))]
      ensures outcome == Incorrect ==>
        weights.weights == old(weights.weights)[kana := Increased(old(weights.weights[kana]))]
    {
      outcome := Ask(answer, values[kana]);
      if outcome == Quit {
        return;
      }
      var correct := outcome == Correct;
      Reweigh(kana, correct);
      Record(kana, elapsed, correct);
    }

    /** increaseWeight after a miss, decreaseWeight after a correct answer. */
    method Reweigh(kana: string, correct: bool)
      requires Valid()
      requires kana in values
      modifies weights
      ensures Valid()
      ensures weights.weights == old(weights.weights)[kana := if correct then Decreased(old(weights.weights[kana]))
                                                              else Increased(old(weights.weights[kana]))]
    {
      if correct {
        weights.Decrease(kana);
      } else {
        weights.Increase(kana);
      }
    }

    /**
     * The counters of one answer: one more attempt for the key and overall,
     * one more correct answer or one more miss, and one more sample.
     */
    method Record(kana: string, elapsed: int, correct: bool)
      requires Valid()
      requires kana in values
      requires 0 <= elapsed
      modifies this
      ensures Valid()
      ensures history == old(history) && shown == old(shown)
      ensures tally == Answered(old(tally), kana, elapsed, correct)
    {
      AnswerKeepsCounts(values, tally, kana, elapsed, correct);
      tally := Answered(tally, kana, elapsed, correct);
    }

    /** The two latency figures finish prints: p95 and p50 of all answer times. */
    function Percentiles(): (r: (int, int))
      requires Valid()
      reads this, weights
      ensures var times := tally.times;
        r.0 == 0 || exists lo, hi :: 0 <= lo < |times| && 0 <= hi < |times| && times[lo] <= r.0 <= times[hi]
      ensures var times := tally.times;
        r.1 == 0 || exists lo, hi :: 0 <= lo < |times| && 0 <= hi < |times| && times[lo] <= r.1 <= times[hi]
      ensures tally.totalAnswered == 0 ==> r == (0, 0)
    {
      PercentileOfDurationWithinRange(tally.times, 95.0);
      PercentileOfDurationWithinRange(tally.times, 50.0);
      (PercentileOfDuration(tally.times, 95.0), PercentileOfDuration(tally.times, 50.0))
    }

    /** The score: correct answers never exceed answered ones, nor misses per key their attempts. */
    lemma ScoreBounds()
      requires Valid()
      ensures 0 <= tally.totalCorrect <= tally.totalAnswered
      ensures 0 <= MapSum(tally.incorrect) <= MapSum(tally.total)
    {
      CountsBound(values, tally);
    }

    /**
     * The rejection loop can always make progress: some key is not held by
     * the guard (and, with positive weights, EveryKeyReachable gives a draw
     * that picks it).
     */
    lemma SomeKeyEligible()
      requires Valid()
      requires |values| > 0
      ensures exists k :: k in values && k !in history
    {
      WindowLeavesRoom(|values|);
      History.SomeKeyEligible(values.Keys, history);
    }
  }

  /**
   * The counters main keeps across the quiz loop: attempts and misses per
   * key, the answer times per key and overall, and the two running totals.
   */
  datatype Tally = Tally(total: map<string, int>, incorrect: map<string, int>,
                         kanaTimes: map<string, seq<int>>, times: seq<int>,
                         totalAnswered: int, totalCorrect: int)

  /** The counters before the first answer. */
  const NoAnswers := Tally(map[], map[], map[], [], 0, 0)

  /**
   * One answered question (main.go, quiz loop): one more attempt for the key
   * and overall, one more correct answer or one more miss for the key, and
   * the elapsed time appended to the key's samples and to all samples.
   */
  function Answered(t: Tally, kana: string, elapsed: int, correct: bool): Tally {
    Tally(Incremented(t.total, kana),
          if correct then t.incorrect else Incremented(t.incorrect, kana),
          t.kanaTimes[kana := SamplesOf(t.kanaTimes, kana) + [elapsed]],
          t.times + [elapsed],
          t.totalAnswered + 1,
          if correct then t.totalCorrect + 1 else t.totalCorrect)
  }

  /**
   * The repeat guard: the history is the latest Capacity(window) accepted
   * keys, every accepted key is an item, and no key was accepted twice
   * within Capacity(window) + 1 consecutive acceptances.
   */
  ghost predicate GuardInvariant(values: map<string, string>, window: int, history: seq<string>, shown: seq<string>) {
    && history == Last(shown, Capacity(window))
    && (forall i :: 0 <= i < |shown| ==> shown[i] in values)
    && FreshWithin(shown, Capacity(window))
  }

  /**
   * Each accepted key was absent from the last capacity keys accepted
   * before it: what the guard checks, one acceptance at a time.
   */
  ghost predicate FreshWithin(shown: seq<string>, capacity: nat)
    decreases |shown|
  {
    |shown| == 0 ||
    var prior := shown[..|shown| - 1];
    FreshWithin(prior, capacity) && shown[|shown| - 1] !in Last(prior, capacity)
  }

  /**
   * The bookkeeping of the quiz loop: every answered key has an attempt count
   * of at least one, as many samples, and no more misses than attempts; the
   * totals agree with the samples and with each other.
   */
  ghost predicate CountInvariant(values: map<string, string>, t: Tally) {
    && t.total.Keys <= values.Keys
    && PerKeyCounts(t.total, t.incorrect, t.kanaTimes)
    && Totals(t.total, t.incorrect, t.times, t.totalAnswered, t.totalCorrect)
  }

  ghost predicate PerKeyCounts(total: map<string, int>, incorrect: map<string, int>, kanaTimes: map<string, seq<int>>) {
    && incorrect.Keys <= total.Keys
    && kanaTimes.Keys == total.Keys
    && (forall k :: k in incorrect ==> 0 <= incorrect[k] <= total[k])
    && (forall k :: k in total ==> 1 <= total[k] && |kanaTimes[k]| == total[k] && NonNegative(kanaTimes[k]))
  }

  ghost predicate Totals(total: map<string, int>, incorrect: map<string, int>, times: seq<int>,
                         totalAnswered: int, totalCorrect: int) {
    && totalAnswered == |times| == MapSum(total)
    && totalCorrect + MapSum(incorrect) == totalAnswered
    && 0 <= totalCorrect
    && NonNegative(times)
  }

  /** The value of kanaTimes[kana] in Go: the samples so far, or nil. */
  function SamplesOf(kanaTimes: map<string, seq<int>>, kana: string): seq<int> {
    if kana in kanaTimes then kanaTimes[kana] else []
  }

  /** The counts for the answered key move up by one together; other keys keep theirs. */
  lemma AnswerKeepsPerKeyCounts(total: map<string, int>, incorrect: map<string, int>,
                                kanaTimes: map<string, seq<int>>, kana: string, elapsed: int, correct: bool)
    requires PerKeyCounts(total, incorrect, kanaTimes)
    requires 0 <= elapsed
    ensures PerKeyCounts(Incremented(total, kana),
                         if correct then incorrect else Incremented(incorrect, kana),
                         kanaTimes[kana := SamplesOf(kanaTimes, kana) + [elapsed]])
  {
    var prior := SamplesOf(kanaTimes, kana);
    var total' := Incremented(total, kana);
    var incorrect' := if correct then incorrect else Incremented(incorrect, kana);
    var kanaTimes' := kanaTimes[kana := prior + [elapsed]];
    forall k | k in incorrect'
      ensures 0 <= incorrect'[k] <= total'[k]
    {
      if k != kana {
        assert incorrect'[k] == incorrect[k];
      }
    }
    forall k | k in total'
      ensures 1 <= total'[k] && |kanaTimes'[k]| == total'[k] && NonNegative(kanaTimes'[k])
    {
      if k == kana {
        assert |prior| == CountOf(total, kana);
      }
    }
  }

  /** One more answer, one more sample, and one more correct answer or miss. */
  lemma AnswerKeepsTotals(total: map<string, int>, incorrect: map<string, int>, times: seq<int>,
                          totalAnswered: int, totalCorrect: int, kana: string, elapsed: int, correct: bool)
    requires Totals(total, incorrect, times, totalAnswered, totalCorrect)
    requires 0 <= elapsed
    ensures Totals(Incremented(total, kana), if correct then incorrect else Incremented(incorrect, kana),
                   times + [elapsed], totalAnswered + 1, if correct then totalCorrect + 1 else totalCorrect)
  {
    IncrementedSum(total, kana);
    if !correct {
      IncrementedSum(incorrect, kana);
    }
    assert NonNegative(times + [elapsed]);
  }

  /**
   * Recording an answer for an item keeps the bookkeeping consistent: one
   * more attempt, one more sample for the key and overall, and one more
   * correct answer or one more miss.
   */
  lemma AnswerKeepsCounts(values: map<string, string>, t: Tally, kana: string, elapsed: int, correct: bool)
    requires CountInvariant(values, t)
    requires kana in values && 0 <= elapsed
    ensures CountInvariant(values, Answered(t, kana, elapsed, correct))
  {
    AnswerKeepsPerKeyCounts(t.total, t.incorrect, t.kanaTimes, kana, elapsed, correct);
    AnswerKeepsTotals(t.total, t.incorrect, t.times, t.totalAnswered, t.totalCorrect, kana, elapsed, correct);
  }

  /** Accepting a key the guard does not hold keeps the guard's invariant. */
  lemma AcceptKeepsGuard(values: map<string, string>, window: int, history: seq<string>, shown: seq<string>, kana: string)
    requires GuardInvariant(values, window, history, shown)
    requires kana in values && kana !in history
    ensures GuardInvariant(values, window, ListAddFixedLength(history, kana, window), shown + [kana])
  {
    AddKeepsLatestWindow(shown, kana, window);
    assert (shown + [kana])[..|shown|] == shown;
  }

  /** Correct answers never exceed answered ones, nor all misses all attempts. */
  lemma CountsBound(values: map<string, string>, t: Tally)
    requires CountInvariant(values, t)
    ensures 0 <= t.totalCorrect <= t.totalAnswered
    ensures 0 <= MapSum(t.incorrect) <= MapSum(t.total)
  {
    MapSumNonNegative(t.incorrect);
    MapSumMonotone(t.incorrect, t.total);
  }

  /**
   * What the guard achieves: no key is accepted twice within capacity + 1
   * consecutive acceptances.
   */
  lemma {:induction false} FreshWithinNoRepeat(shown: seq<string>, capacity: nat)
    requires FreshWithin(shown, capacity)
    ensures forall i, j :: 0 <= i < j < |shown| && j - i <= capacity ==> shown[i] != shown[j]
    decreases |shown|
  {
    if |shown| > 0 {
      var prior := shown[..|shown| - 1];
      FreshWithinNoRepeat(prior, capacity);
      forall i, j | 0 <= i < j < |shown| && j - i <= capacity
        ensures shown[i] != shown[j]
      {
        assert shown[i] == prior[i];
        if j == |prior| {
          InLast(prior, capacity, i);
        } else {
          assert shown[j] == prior[j];
        }
      }
    }
  }
}
