/**
 * Stimulus generation for the paced addition task: a rejection sampler that
 * draws digits until each block holds a seed plus the requested number of
 * accepted values.
 *
 * Randomness is an input. Every `_.random(lower, upper)` call consumes one raw
 * draw `u: nat` from a finite sequence; when the sequence runs out before the
 * block is complete, the generator reports `OutOfDraws` instead of looping on.
 */
module Stimuli {
  import opened Common

  datatype Difficulty = Easy | Medium | Hard

  datatype GenError = OutOfDraws

  /** The label a block type carries in the trial data. */
  function Label(d: Difficulty): (s: string)
    ensures |s| >= 4
  {
    match d
    case Easy => "easy"
    case Medium => "medium"
    case Hard => "hard"
  }

  /**
   * `_.random(lower, upper)` on integers, driven by the raw draw `u`: lodash
   * swaps reversed bounds and returns the smaller bound plus an offset that
   * never exceeds their distance.
   */
  function RandomInt(lower: int, upper: int, u: nat): (r: int)
    ensures lower <= upper ==> lower <= r <= upper
    ensures upper < lower ==> upper <= r <= lower
  {
    var lo := if lower <= upper then lower else upper;
    var hi := if lower <= upper then upper else lower;
    lo + u % (hi - lo + 1)
  }

  /** Every value in range is the outcome of some draw. */
  lemma RandomIntReaches(lower: int, upper: int, v: int)
    requires lower <= v <= upper
    ensures RandomInt(lower, upper, v - lower) == v
  {
  }

  /** Largest value `_.random(1, digit_max)` may return for a difficulty. */
  function DigitMax(d: Difficulty): int
  {
    match d
    case Easy => 7
    case Medium => 9
    case Hard => 19
  }

  /**
   * Whether `candidate`, drawn to become stimulus number `i` (the seed is
   * number 0), is kept, given the last value kept so far. The medium case is
   * the intended test on the candidate itself, which only GeneratedCorrected
   * uses; the browser code tests a stale sum (see SampleMediumAsWritten).
   */
  predicate Accepts(d: Difficulty, i: int, candidate: int, last: int)
  {
    match d
    case Easy => candidate + last <= 9
    case Medium => candidate + last >= 9
    case Hard => if i % 2 == 0 then candidate >= 10 else candidate < 10
  }

  /** Every value lies in 1..DigitMax(d). */
  predicate InRange(d: Difficulty, s: seq<int>)
  {
    forall j :: 0 <= j < |s| ==> 1 <= s[j] <= DigitMax(d)
  }

  /** The property a block of each difficulty is meant to have; the seed itself is free. */
  predicate FollowsRule(d: Difficulty, s: seq<int>)
  {
    match d
    case Easy => forall j :: 1 <= j < |s| ==> s[j - 1] + s[j] <= 9
    case Medium => forall j :: 1 <= j < |s| ==> s[j - 1] + s[j] >= 9
    case Hard => forall j :: 1 <= j < |s| ==> (s[j] >= 10 <==> j % 2 == 0)
  }

  /**
   * The rejection loop from the state (stimuli so far, counter i) onwards:
   * while i <= numTrials, draw a value and keep it when Accepts says so.
   */
  function Sample(d: Difficulty, numTrials: int, stimuli: seq<int>, i: int, draws: seq<nat>): Result<seq<int>, GenError>
    requires |stimuli| > 0
    decreases |draws|
  {
    if i > numTrials then Ok(stimuli)
    else if draws == [] then Err(OutOfDraws)
    else
      var v := RandomInt(1, DigitMax(d), draws[0]);
      if Accepts(d, i, v, stimuli[|stimuli| - 1])
      then Sample(d, numTrials, stimuli + [v], i + 1, draws[1..])
      else Sample(d, numTrials, stimuli, i, draws[1..])
  }

  /**
   * One seed draw, then rejection sampling with the new draw tested: how the
   * browser code generates easy and hard blocks, and how it evidently meant
   * to generate medium ones.
   */
  function GeneratedCorrected(d: Difficulty, numTrials: int, draws: seq<nat>): Result<seq<int>, GenError>
  {
    if draws == [] then Err(OutOfDraws)
    else Sample(d, numTrials, [RandomInt(1, DigitMax(d), draws[0])], 1, draws[1..])
  }

  /**
   * The block `generateStimuli(difficulty, num_trials)` produces from the
   * given draws: medium blocks come from the loop as written.
   */
  function Generated(d: Difficulty, numTrials: int, draws: seq<nat>): Result<seq<int>, GenError>
  {
    if d == Medium then GeneratedMediumAsWritten(numTrials, draws) else GeneratedCorrected(d, numTrials, draws)
  }

  /** `generateStimuli`: the medium loop as written, or one seed draw and rejection sampling. */
  method GenerateStimuli(d: Difficulty, numTrials: int, draws: seq<nat>) returns (r: Result<seq<int>, GenError>)
    ensures r == Generated(d, numTrials, draws)
  {
    if d == Medium {
      r := GenerateMediumAsWritten(numTrials, draws);
      return;
    }
    if draws == [] {
      return Err(OutOfDraws);
    }
    var stimuli := [RandomInt(1, DigitMax(d), draws[0])];
    var i := 1;
    var k := 1;
    while i <= numTrials
      invariant 1 <= k <= |draws|
      invariant |stimuli| > 0
      invariant Sample(d, numTrials, stimuli, i, draws[k..]) == GeneratedCorrected(d, numTrials, draws)
      decreases |draws| - k
    {
      if k == |draws| {
        return Err(OutOfDraws);
      }
      assert draws[k..][1..] == draws[k + 1..];
      var trialValue := RandomInt(1, DigitMax(d), draws[k]);
      k := k + 1;
      if Accepts(d, i, trialValue, stimuli[|stimuli| - 1]) {
        stimuli := stimuli + [trialValue];
        i := i + 1;
      }
    }
    return Ok(stimuli);
  }

  lemma {:induction false} SampleProperties(d: Difficulty, numTrials: int, stimuli: seq<int>, i: int, draws: seq<nat>)
    requires |stimuli| == i >= 1
    requires InRange(d, stimuli) && FollowsRule(d, stimuli)
    ensures Sample(d, numTrials, stimuli, i, draws).Ok? ==>
              var r := Sample(d, numTrials, stimuli, i, draws).value;
              && |r| == (if i <= numTrials then numTrials + 1 else i)
              && r[..i] == stimuli
              && InRange(d, r) && FollowsRule(d, r)
    decreases |draws|
  {
    if i <= numTrials && draws != [] {
      var v := RandomInt(1, DigitMax(d), draws[0]);
      if Accepts(d, i, v, stimuli[|stimuli| - 1]) {
        var next := stimuli + [v];
        assert InRange(d, next);
        assert FollowsRule(d, next) by {
          match d
          case Easy =>
          case Medium =>
          case Hard =>
        }
        SampleProperties(d, numTrials, next, i + 1, draws[1..]);
        if Sample(d, numTrials, next, i + 1, draws[1..]).Ok? {
          var r := Sample(d, numTrials, next, i + 1, draws[1..]).value;
          assert r[..i] == r[..i + 1][..i];
        }
      } else {
        SampleProperties(d, numTrials, stimuli, i, draws[1..]);
      }
    }
  }

  /**
   * With the new draw tested, a block holds the seed and then exactly
   * numTrials accepted values (just the seed when numTrials < 1); every value
   * is in range and the difficulty's rule holds between neighbours (for Hard:
   * position j >= 1 holds a two-digit value exactly when j is even).
   */
  lemma CorrectedProperties(d: Difficulty, numTrials: int, draws: seq<nat>)
    ensures GeneratedCorrected(d, numTrials, draws).Ok? ==>
              var r := GeneratedCorrected(d, numTrials, draws).value;
              && |r| == (if numTrials >= 1 then numTrials + 1 else 1)
              && r[0] == RandomInt(1, DigitMax(d), draws[0])
              && InRange(d, r) && FollowsRule(d, r)
  {
    if draws != [] {
      var seed := [RandomInt(1, DigitMax(d), draws[0])];
      SampleProperties(d, numTrials, seed, 1, draws[1..]);
    }
  }

  /**
   * A block of the browser code holds the seed and then exactly numTrials
   * values, all in range; easy and hard blocks follow their rule, medium
   * blocks need not (MediumAsWrittenBreaksSumRule).
   */
  lemma GeneratedProperties(d: Difficulty, numTrials: int, draws: seq<nat>)
    ensures Generated(d, numTrials, draws).Ok? ==>
              var r := Generated(d, numTrials, draws).value;
              && |r| == (if numTrials >= 1 then numTrials + 1 else 1)
              && r[0] == RandomInt(1, DigitMax(d), draws[0])
              && InRange(d, r)
              && (d != Medium ==> FollowsRule(d, r))
  {
    if d == Medium {
      GeneratedMediumAsWrittenProperties(numTrials, draws);
    } else {
      CorrectedProperties(d, numTrials, draws);
    }
  }

  // The medium loop as the browser code writes it
  // ----------------------------------------------
  // `digit_sum` is computed from `trial_value` BEFORE that iteration's draw,
  // so it adds the previous iteration's draw (accepted or not) to the last
  // kept value; on the first pass `trial_value` is undefined and the sum is
  // NaN, which fails the test. The value then kept is the new draw.

  function SampleMediumAsWritten(numTrials: int, stimuli: seq<int>, i: int, trialValue: Option<int>, draws: seq<nat>): Result<seq<int>, GenError>
    requires |stimuli| > 0
    decreases |draws|
  {
    if i > numTrials then Ok(stimuli)
    else if draws == [] then Err(OutOfDraws)
    else
      var staleSumReachesNine := trialValue.Some? && trialValue.value + stimuli[|stimuli| - 1] >= 9;
      var v := RandomInt(1, 9, draws[0]);
      if staleSumReachesNine
      then SampleMediumAsWritten(numTrials, stimuli + [v], i + 1, Some(v), draws[1..])
      else SampleMediumAsWritten(numTrials, stimuli, i, Some(v), draws[1..])
  }

  function GeneratedMediumAsWritten(numTrials: int, draws: seq<nat>): Result<seq<int>, GenError>
  {
    if draws == [] then Err(OutOfDraws)
    else SampleMediumAsWritten(numTrials, [RandomInt(1, 9, draws[0])], 1, None, draws[1..])
  }

  /** The `'medium'` case of `generateStimuli` exactly as written. */
  method GenerateMediumAsWritten(numTrials: int, draws: seq<nat>) returns (r: Result<seq<int>, GenError>)
    ensures r == GeneratedMediumAsWritten(numTrials, draws)
  {
    if draws == [] {
      return Err(OutOfDraws);
    }
    var stimuli := [RandomInt(1, 9, draws[0])];
    var trialValue: Option<int> := None;
    var i := 1;
    var k := 1;
    while i <= numTrials
      invariant 1 <= k <= |draws|
      invariant |stimuli| > 0
      invariant SampleMediumAsWritten(numTrials, stimuli, i, trialValue, draws[k..]) == GeneratedMediumAsWritten(numTrials, draws)
      decreases |draws| - k
    {
      if k == |draws| {
        return Err(OutOfDraws);
      }
      assert draws[k..][1..] == draws[k + 1..];
      var digitSumReachesNine := trialValue.Some? && trialValue.value + stimuli[|stimuli| - 1] >= 9;
      trialValue := Some(RandomInt(1, 9, draws[k]));
      k := k + 1;
      if digitSumReachesNine {
        stimuli := stimuli + [trialValue.value];
        i := i + 1;
      }
    }
    return Ok(stimuli);
  }

  lemma {:induction false} SampleMediumAsWrittenProperties(numTrials: int, stimuli: seq<int>, i: int, trialValue: Option<int>, draws: seq<nat>)
    requires |stimuli| == i >= 1
    requires InRange(Medium, stimuli)
    ensures SampleMediumAsWritten(numTrials, stimuli, i, trialValue, draws).Ok? ==>
              var r := SampleMediumAsWritten(numTrials, stimuli, i, trialValue, draws).value;
              |r| == (if i <= numTrials then numTrials + 1 else i) && r[..i] == stimuli && InRange(Medium, r)
    decreases |draws|
  {
    if i <= numTrials && draws != [] {
      var v := RandomInt(1, 9, draws[0]);
      if trialValue.Some? && trialValue.value + stimuli[|stimuli| - 1] >= 9 {
        SampleMediumAsWrittenProperties(numTrials, stimuli + [v], i + 1, Some(v), draws[1..]);
        if SampleMediumAsWritten(numTrials, stimuli + [v], i + 1, Some(v), draws[1..]).Ok? {
          var r := SampleMediumAsWritten(numTrials, stimuli + [v], i + 1, Some(v), draws[1..]).value;
          assert r[..i] == r[..i + 1][..i];
        }
      } else {
        SampleMediumAsWrittenProperties(numTrials, stimuli, i, Some(v), draws[1..]);
      }
    }
  }

  /** As written, a medium block still has the seed and then numTrials values, all in 1..9. */
  lemma GeneratedMediumAsWrittenProperties(numTrials: int, draws: seq<nat>)
    ensures GeneratedMediumAsWritten(numTrials, draws).Ok? ==>
              var r := GeneratedMediumAsWritten(numTrials, draws).value;
              && |r| == (if numTrials >= 1 then numTrials + 1 else 1)
              && r[0] == RandomInt(1, 9, draws[0])
              && InRange(Medium, r)
  {
    if draws != [] {
      var seed := [RandomInt(1, 9, draws[0])];
      SampleMediumAsWrittenProperties(numTrials, seed, 1, None, draws[1..]);
      if GeneratedMediumAsWritten(numTrials, draws).Ok? {
        assert GeneratedMediumAsWritten(numTrials, draws).value[..1] == seed;
      }
    }
  }

  /** As written, the first draw after the seed is always rejected (its sum is NaN). */
  lemma MediumAsWrittenRejectsFirstDraw(numTrials: int, seed: nat, u: nat)
    requires numTrials >= 1
    ensures GeneratedMediumAsWritten(numTrials, [seed, u]) == Err(OutOfDraws)
  {
    var s0 := [RandomInt(1, 9, seed)];
    assert [seed, u][1..] == [u];
    assert [u][1..] == [];
    assert SampleMediumAsWritten(numTrials, s0, 1, Some(RandomInt(1, 9, u)), []) == Err(OutOfDraws);
  }

  /**
   * As written, the sum rule fails: the seed 1 (draw 0), the rejected draw 8
   * (draw 7) and then the value 1 (draw 0), kept because 8 + 1 >= 9, give the
   * block [1, 1], whose neighbours sum to 2. Testing the new draw keeps the 8
   * instead.
   */
  lemma MediumAsWrittenBreaksSumRule()
    ensures Generated(Medium, 1, [0, 7, 0]) == Ok([1, 1])
    ensures !FollowsRule(Medium, [1, 1])
    ensures GeneratedCorrected(Medium, 1, [0, 7, 0]) == Ok([1, 8])
  {
    assert [0, 7, 0][1..] == [7, 0];
    assert [7, 0][1..] == [0];
    assert [0][1..] == [];
    assert RandomInt(1, 9, 0) == 1 && RandomInt(1, 9, 7) == 8;
    assert [1] + [1] == [1, 1];
    assert SampleMediumAsWritten(1, [1, 1], 2, Some(1), []) == Ok([1, 1]);
    assert SampleMediumAsWritten(1, [1] + [RandomInt(1, 9, 0)], 2, Some(RandomInt(1, 9, 0)), [0][1..]) == Ok([1, 1]);
    assert SampleMediumAsWritten(1, [1], 1, Some(8), [0]) == Ok([1, 1]);
    assert SampleMediumAsWritten(1, [1], 1, None, [7, 0]) == Ok([1, 1]);
    var s: seq<int> := [1, 1];
    assert s[0] + s[1] < 9;
    assert [1] + [8] == [1, 8];
    assert Sample(Medium, 1, [1, 8], 2, [0]) == Ok([1, 8]);
    assert Sample(Medium, 1, [1], 1, [7, 0]) == Sample(Medium, 1, [1] + [RandomInt(1, 9, 7)], 2, [7, 0][1..]);
  }
}
