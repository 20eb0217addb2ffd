/**
 * The selection-weight table of main.go: createWeights, increaseWeight and
 * decreaseWeight. Weights are float64 in the program; every reachable value
 * is a power of two between 1/16 and 2048, so exact reals model them
 * without loss.
 */
module Weights {

  const WeightDefault: real := 1.0
  const WeightIncreaseFactor: real := 8.0
  const WeightDecreaseFactor: real := 2.0
  const WeightMax: real := 512.0
  const WeightMin: real := 0.0625

  /** Exponents of the reachable weights: 2^-4 = weightMin up to 2^11 = 4 * weightMax. */
  const MinExponent: int := -4
  const MaxExponent: int := 11

  function Pow2(e: int): (r: real)
    ensures 0.0 < r
    decreases if e < 0 then -e else e
  {
    if e == 0 then 1.0
    else if e > 0 then 2.0 * Pow2(e - 1)
    else Pow2(e + 1) / 2.0
  }

  lemma Pow2Succ(e: int)
    ensures Pow2(e + 1) == 2.0 * Pow2(e)
  {
  }

  lemma {:induction false} Pow2Monotone(a: int, b: int)
    requires a < b
    ensures Pow2(a) < Pow2(b)
    decreases b - a
  {
    Pow2Succ(b - 1);
    if a < b - 1 {
      Pow2Monotone(a, b - 1);
    }
  }

  /** The two thresholds of the table are powers of two. */
  lemma Thresholds()
    ensures Pow2(9) == WeightMax
    ensures Pow2(MinExponent) == WeightMin
    ensures Pow2(0) == WeightDefault
  {
    Pow2Succ(-4); Pow2Succ(-3); Pow2Succ(-2); Pow2Succ(-1);
    Pow2Succ(0); Pow2Succ(1); Pow2Succ(2); Pow2Succ(3); Pow2Succ(4);
    Pow2Succ(5); Pow2Succ(6); Pow2Succ(7); Pow2Succ(8);
  }

  /** One weight after increaseWeight finds its key: times 8 while below weightMax. */
  function Increased(w: real): real {
    if w < WeightMax then w * WeightIncreaseFactor else w
  }

  /** One weight after decreaseWeight finds its key: halved while above weightMin. */
  function Decreased(w: real): real {
    if w <= WeightMin then w else w / WeightDecreaseFactor
  }

  /**
   * On a reachable weight 2^e an increase adds 3 to the exponent exactly when
   * e < 9, i.e. when the weight is below 512; the check comes before the
   * multiplication, so 256 becomes 2048.
   */
  lemma IncreasedExponent(e: int)
    requires MinExponent <= e <= MaxExponent
    ensures Increased(Pow2(e)) == Pow2(if e < 9 then e + 3 else e)
  {
    Thresholds();
    if e < 9 {
      Pow2Monotone(e, 9);
      Pow2Succ(e); Pow2Succ(e + 1); Pow2Succ(e + 2);
    } else if e > 9 {
      Pow2Monotone(9, e);
    }
  }

  /** On a reachable weight 2^e a decrease subtracts 1 from e exactly when e > -4. */
  lemma DecreasedExponent(e: int)
    requires MinExponent <= e <= MaxExponent
    ensures Decreased(Pow2(e)) == Pow2(if e > MinExponent then e - 1 else e)
  {
    Thresholds();
    if e > MinExponent {
      Pow2Monotone(MinExponent, e);
      Pow2Succ(e - 1);
    }
  }

  /** n successive increases of one weight. */
  function IncreasedTimes(w: real, n: nat): real
    decreases n
  {
    if n == 0 then w else IncreasedTimes(Increased(w), n - 1)
  }

  /** n successive decreases of one weight. */
  function DecreasedTimes(w: real, n: nat): real
    decreases n
  {
    if n == 0 then w else DecreasedTimes(Decreased(w), n - 1)
  }

  /** How many increases it takes 2^e to reach weightMax or beyond. */
  function StepsToMax(e: int): nat {
    if e >= 9 then 0 else (11 - e) / 3
  }

  /** StepsToMax counts the increases of 3 in the exponent until it reaches 9, 10 or 11. */
  lemma StepsToMaxFacts(e: int)
    requires MinExponent <= e <= MaxExponent
    ensures e < 9 ==> StepsToMax(e) == StepsToMax(e + 3) + 1
    ensures 9 <= e + 3 * StepsToMax(e) <= MaxExponent
  {
  }

  /**
   * After n increases, 2^e has grown by 8 per step until it reached 512 or
   * more, and then stays put.
   */
  lemma {:induction false} IncreasedTimesExponent(e: int, n: nat)
    requires MinExponent <= e <= MaxExponent
    ensures var k := if n < StepsToMax(e) then n else StepsToMax(e);
      IncreasedTimes(Pow2(e), n) == Pow2(e + 3 * k)
    decreases n
  {
    if n > 0 {
      IncreasedExponent(e);
      StepsToMaxFacts(e);
      if e < 9 {
        IncreasedTimesExponent(e + 3, n - 1);
      } else {
        IncreasedTimesExponent(e, n - 1);
      }
    }
  }

  /** Enough increases saturate a weight somewhere in [512, 2048]. */
  lemma IncreasedTimesSaturates(e: int, n: nat)
    requires MinExponent <= e <= MaxExponent
    requires n >= StepsToMax(e)
    ensures WeightMax <= IncreasedTimes(Pow2(e), n) <= Pow2(MaxExponent)
  {
    IncreasedTimesExponent(e, n);
    StepsToMaxFacts(e);
    var top := e + 3 * StepsToMax(e);
    Thresholds();
    if top > 9 { Pow2Monotone(9, top); }
    if top < MaxExponent { Pow2Monotone(top, MaxExponent); }
  }

  /** After n decreases, 2^e is max(weightMin, 2^e / 2^n). */
  lemma {:induction false} DecreasedTimesFloor(e: int, n: nat)
    requires MinExponent <= e <= MaxExponent
    ensures DecreasedTimes(Pow2(e), n) == Pow2(if e - n < MinExponent then MinExponent else e - n)
    decreases n
  {
    DecreasedExponent(e);
    if n > 0 {
      if e > MinExponent {
        DecreasedTimesFloor(e - 1, n - 1);
      } else {
        DecreasedTimesFloor(e, n - 1);
      }
    }
  }

  /** Every weight is 2^e for its recorded exponent e, with -4 <= e <= 11. */
  ghost predicate PowersOfTwo(weights: map<string, real>, exponents: map<string, int>) {
    && exponents.Keys == weights.Keys
    && forall k :: k in weights ==>
         MinExponent <= exponents[k] <= MaxExponent && weights[k] == Pow2(exponents[k])
  }

  /** Setting one key to 2^e with e in range keeps every weight a power of two in range. */
  lemma SetPower(weights: map<string, real>, exponents: map<string, int>, key: string, e: int)
    requires PowersOfTwo(weights, exponents)
    requires key in weights && MinExponent <= e <= MaxExponent
    ensures PowersOfTwo(weights[key := Pow2(e)], exponents[key := e])
  {
  }

  /**
   * The weight map of a quiz session. The Go map is shared by reference and
   * updated in place; here it is a field that the methods reassign. The ghost
   * map of exponents records that every weight is a power of two in range.
   */
  class WeightTable {
    var weights: map<string, real>
    ghost var exponents: map<string, int>

    ghost predicate Valid()
      reads this
    {
      PowersOfTwo(weights, exponents)
    }

    /** createWeights: every key of values, and only those, gets weight 1.0. */
    constructor (values: map<string, string>)
      ensures Valid()
      ensures weights.Keys == values.Keys
      ensures forall k :: k in weights ==> weights[k] == WeightDefault
    {
      var output: map<string, real> := map[];
      ghost var exps: map<string, int> := map[];
      var remaining := values.Keys;
      while remaining != {}
        invariant remaining <= values.Keys
        invariant output.Keys == exps.Keys == values.Keys - remaining
        invariant forall k :: k in output ==> output[k] == WeightDefault && exps[k] == 0
        decreases remaining
      {
        var key :| key in remaining;
        output := output[key := WeightDefault];
        exps := exps[key := 0];
        remaining := remaining - {key};
      }
      weights := output;
      exponents := exps;
      new;
      Thresholds();
    }

    /** The weight of every key stays a power of two in [1/16, 2048]. */
    lemma WeightsInRange()
      requires Valid()
      ensures forall k :: k in weights ==> WeightMin <= weights[k] <= Pow2(MaxExponent)
      ensures forall k :: k in weights ==> 0.0 < weights[k]
    {
      forall k | k in weights
        ensures WeightMin <= weights[k] <= Pow2(MaxExponent)
      {
        Thresholds();
        var e := exponents[k];
        if MinExponent < e { Pow2Monotone(MinExponent, e); }
        if e < MaxExponent { Pow2Monotone(e, MaxExponent); }
      }
    }

    /**
     * increaseWeight: a present key below weightMax is multiplied by 8; an
     * absent key and every other key are left alone.
     */
    method Increase(key: string)
      requires Valid()
      modifies this
      ensures Valid()
      ensures weights.Keys == old(weights.Keys)
      ensures key in weights && old(weights[key]) < WeightMax ==>
                weights[key] == old(weights[key]) * WeightIncreaseFactor
      ensures key in weights && old(weights[key]) >= WeightMax ==> weights[key] == old(weights[key])
      ensures forall k :: k in weights && k != key ==> weights[k] == old(weights[k])
      ensures weights == if key in old(weights) then old(weights)[key := Increased(old(weights[key]))] else old(weights)
    {
      if key in weights {
        var weight := weights[key];
        if weight < WeightMax {
          ghost var e := exponents[key];
          ghost var next := if e < 9 then e + 3 else e;
          IncreasedExponent(e);
          SetPower(weights, exponents, key, next);
          weights := weights[key := weight * WeightIncreaseFactor];
          exponents := exponents[key := next];
        }
      }
    }

    /**
     * decreaseWeight: a present key above weightMin is halved; an absent key
     * and every other key are left alone.
     */
    method Decrease(key: string)
      requires Valid()
      modifies this
      ensures Valid()
      ensures weights.Keys == old(weights.Keys)
      ensures key in weights && old(weights[key]) > WeightMin ==>
                weights[key] == old(weights[key]) / WeightDecreaseFactor
      ensures key in weights && old(weights[key]) <= WeightMin ==> weights[key] == old(weights[key])
      ensures forall k :: k in weights && k != key ==> weights[k] == old(weights[k])
      ensures weights == if key in old(weights) then old(weights)[key := Decreased(old(weights[key]))] else old(weights)
    {
      if key in weights {
        var weight := weights[key];
        if weight <= WeightMin {
          return;
        }
        ghost var e := exponents[key];
        ghost var next := if e > MinExponent then e - 1 else e;
        DecreasedExponent(e);
        SetPower(weights, exponents, key, next);
        weights := weights[key := weight / WeightDecreaseFactor];
        exponents := exponents[key := next];
      }
    }
  }
}
