/**
 * Scoring of one addition trial: the expected answer is the sum of the
 * current and the previous value of the block, the response is the number
 * typed on the digit row or the numeric keypad, and the trial is correct when
 * the two are the same number.
 */
module Scoring {
  import opened Common
  import PasatBlocks
  import Settings

  /** The code the runner records for "no key". */
  const NoKey := -1

  /**
   * What the scorer reads of the last trial: its index in the block, the
   * block's values and the decoded list of key codes.
   */
  datatype TrialData = TrialData(trialIndex: int, blockStimuli: seq<int>, keyPresses: seq<int>)

  /** Every code is "no key" or one of the digit keys the block accepts. */
  predicate RecordableKeys(keys: seq<int>)
  {
    forall i :: 0 <= i < |keys| ==> keys[i] == NoKey || PasatBlocks.IsDigitKeyCode(keys[i])
  }

  /** The character of a digit key, keypad codes moved onto the digit row first. */
  function KeyDigit(k: int): (c: char)
    requires PasatBlocks.IsDigitKeyCode(k)
    ensures IsDigitChar(c)
    ensures 48 <= k <= 57 ==> DigitValue(c) == k - 48
    ensures 96 <= k <= 105 ==> DigitValue(c) == k - 96
  {
    var code := if 96 <= k <= 105 then k - 48 else k;
    code as char
  }

  /** The digits typed, in order, with the "no key" codes skipped. */
  function DigitPresses(keys: seq<int>): (s: string)
    requires RecordableKeys(keys)
    ensures AllDigits(s)
    ensures |s| <= |keys|
  {
    if keys == [] then ""
    else
      var last := keys[|keys| - 1];
      DigitPresses(keys[..|keys| - 1]) + (if last == NoKey then "" else [KeyDigit(last)])
  }

  /** `parseInt` of a string of digits: its decimal value, NaN when it is empty. */
  function ParseDigits(s: string): (v: JsValue)
    requires AllDigits(s)
  {
    if s == "" then NaN else Number(DecimalValue(s))
  }

  /** `block_stimuli[i]`: undefined outside the list. */
  function ValueAt(s: seq<int>, i: int): (v: JsValue)
  {
    if 0 <= i < |s| then Number(s[i]) else Undefined
  }

  /** JavaScript `+` on numbers; an undefined operand gives NaN. */
  function JsAdd(a: JsValue, b: JsValue): (sum: JsValue)
  {
    if a.Number? && b.Number? then Number(a.n + b.n) else NaN
  }

  function Expected(t: TrialData): (e: JsValue)
  {
    if t.trialIndex == 0 then Undefined
    else JsAdd(ValueAt(t.blockStimuli, t.trialIndex), ValueAt(t.blockStimuli, t.trialIndex - 1))
  }

  function Response(t: TrialData): (r: JsValue)
    requires t.trialIndex != 0 ==> RecordableKeys(t.keyPresses)
  {
    if t.trialIndex == 0 then Undefined else ParseDigits(DigitPresses(t.keyPresses))
  }

  function Correct(t: TrialData): (c: JsValue)
    requires t.trialIndex != 0 ==> RecordableKeys(t.keyPresses)
  {
    if t.trialIndex == 0 then Undefined else Bool(StrictEquals(Expected(t), Response(t)))
  }

  /** The three results of a trial, before the extra data is merged in. */
  function Score(t: TrialData): (results: map<string, JsValue>)
    requires t.trialIndex != 0 ==> RecordableKeys(t.keyPresses)
  {
    map["expected" := Expected(t), "response" := Response(t), "correct" := Correct(t)]
  }

  /** `$.extend(target, source)`: the source's keys win, except where its value is undefined. */
  function Extend(target: map<string, JsValue>, source: map<string, JsValue>): (r: map<string, JsValue>)
    ensures r.Keys == target.Keys + (set k | k in source && source[k] != Undefined)
    ensures forall k :: k in source && source[k] != Undefined ==> r[k] == source[k]
    ensures forall k :: k in target && (k !in source || source[k] == Undefined) ==> r[k] == target[k]
  {
    target + map k | k in source && source[k] != Undefined :: source[k]
  }

  /** addTrialResults: scores the last trial and merges `addedData` on top. */
  method AddTrialResults(trial: TrialData, addedData: map<string, JsValue>) returns (results: map<string, JsValue>)
    requires trial.trialIndex != 0 ==> RecordableKeys(trial.keyPresses)
    ensures results == Extend(Score(trial), addedData)
  {
    var expected, response, correct := Undefined, Undefined, Undefined;
    var currentIndex := trial.trialIndex;
    if currentIndex != 0 {
      var previousIndex := currentIndex - 1;
      var currentValue := ValueAt(trial.blockStimuli, currentIndex);
      var previousValue := ValueAt(trial.blockStimuli, previousIndex);
      expected := JsAdd(currentValue, previousValue);

      var keyPresses := trial.keyPresses;
      var digitPresses: string := "";
      for i := 0 to |keyPresses|
        invariant digitPresses == DigitPresses(keyPresses[..i])
      {
        assert keyPresses[..i + 1][..i] == keyPresses[..i];
        var keyPress := keyPresses[i];
        if keyPress != NoKey {
          if 96 <= keyPress <= 105 {
            keyPress := keyPress - 48;
          }
          var digit := keyPress as char;
          digitPresses := digitPresses + [digit];
        }
      }
      assert keyPresses[..|keyPresses|] == keyPresses;
      response := ParseDigits(digitPresses);
      correct := Bool(StrictEquals(expected, response));
    }
    var trialResults := map["expected" := expected, "response" := response, "correct" := correct];
    results := Extend(trialResults, addedData);
  }

  // What the score means
  // --------------------

  /** Nothing is expected of the first trial of a block. */
  lemma FirstTrialUnscored(t: TrialData)
    requires t.trialIndex == 0
    ensures Score(t) == map["expected" := Undefined, "response" := Undefined, "correct" := Undefined]
  {
  }

  /** Later trials expect the sum of the current and the previous value. */
  lemma ExpectedIsSumOfNeighbours(t: TrialData)
    requires 1 <= t.trialIndex < |t.blockStimuli|
    ensures Expected(t) == Number(t.blockStimuli[t.trialIndex] + t.blockStimuli[t.trialIndex - 1])
  {
  }

  /** A trial is correct exactly when the response is the expected number; NaN is never correct. */
  lemma CorrectMeansSameNumber(t: TrialData)
    requires t.trialIndex != 0 && RecordableKeys(t.keyPresses)
    ensures Correct(t) == Bool(true) <==> Expected(t).Number? && Response(t) == Expected(t)
    ensures Response(t) == NaN ==> Correct(t) == Bool(false)
  {
  }

  lemma {:induction false} DigitPressesAppend(a: seq<int>, b: seq<int>)
    requires RecordableKeys(a) && RecordableKeys(b)
    ensures RecordableKeys(a + b)
    ensures DigitPresses(a + b) == DigitPresses(a) + DigitPresses(b)
    decreases |b|
  {
    if b != [] {
      var c := a + b;
      assert c[..|c| - 1] == a + b[..|b| - 1];
      DigitPressesAppend(a, b[..|b| - 1]);
    } else {
      assert a + b == a;
    }
  }

  lemma {:induction false} DigitPressesEmpty(keys: seq<int>)
    requires RecordableKeys(keys)
    ensures DigitPresses(keys) == "" <==> forall i :: 0 <= i < |keys| ==> keys[i] == NoKey
    decreases |keys|
  {
    if keys != [] {
      DigitPressesEmpty(keys[..|keys| - 1]);
      assert forall i :: 0 <= i < |keys| - 1 ==> keys[..|keys| - 1][i] == keys[i];
    }
  }

  /** The response is NaN exactly when no digit key was pressed. */
  lemma NoDigitMeansNaN(t: TrialData)
    requires t.trialIndex != 0 && RecordableKeys(t.keyPresses)
    ensures Response(t) == NaN <==> forall i :: 0 <= i < |t.keyPresses| ==> t.keyPresses[i] == NoKey
  {
    DigitPressesEmpty(t.keyPresses);
  }

  /** "No key" codes anywhere among the presses do not change the response. */
  lemma NoKeyIgnored(a: seq<int>, b: seq<int>)
    requires RecordableKeys(a) && RecordableKeys(b)
    ensures RecordableKeys(a + [NoKey] + b)
    ensures DigitPresses(a + [NoKey] + b) == DigitPresses(a + b)
  {
    DigitPressesAppend(a, [NoKey]);
    assert DigitPresses([NoKey]) == "" by {
      assert [NoKey][..0] == [];
    }
    DigitPressesAppend(a + [NoKey], b);
    DigitPressesAppend(a, b);
  }

  /** The digit-row codes that type the string s. */
  function RowKeys(s: string): (keys: seq<int>)
    requires AllDigits(s)
    ensures |keys| == |s| && RecordableKeys(keys)
  {
    seq(|s|, i requires 0 <= i < |s| => s[i] as int)
  }

  /** The keypad codes that type the string s. */
  function KeypadKeys(s: string): (keys: seq<int>)
    requires AllDigits(s)
    ensures |keys| == |s| && RecordableKeys(keys)
  {
    seq(|s|, i requires 0 <= i < |s| => s[i] as int + 48)
  }

  lemma {:induction false} DigitPressesOfTyped(s: string)
    requires AllDigits(s)
    ensures DigitPresses(RowKeys(s)) == s
    ensures DigitPresses(KeypadKeys(s)) == s
    decreases |s|
  {
    if s != [] {
      var p := s[..|s| - 1];
      DigitPressesOfTyped(p);
      assert RowKeys(s)[..|s| - 1] == RowKeys(p);
      assert KeypadKeys(s)[..|s| - 1] == KeypadKeys(p);
    }
  }

  /**
   * Typing the decimal digits of n, on the digit row or on the keypad, is
   * scored as the response n.
   */
  lemma TypedNumberIsResponse(t: TrialData, n: nat)
    requires t.trialIndex != 0
    requires t.keyPresses == RowKeys(NatToString(n)) || t.keyPresses == KeypadKeys(NatToString(n))
    ensures Response(t) == Number(n)
  {
    DigitPressesOfTyped(NatToString(n));
    DecimalValueOfNatToString(n);
  }

  /** The digit-row and keypad codes that type "10". */
  lemma TypingTen()
    ensures RowKeys(NatToString(10)) == [49, 48]
    ensures KeypadKeys(NatToString(10)) == [97, 96]
  {
    assert NatToString(10) == "10";
  }

  /**
   * The first practice block [9, 1, 3, 5, 2, 6]: at trial 1 the expected
   * answer is 1 + 9 = 10, and typing "1", "0" on the digit row scores as correct.
   */
  lemma PracticeBlockRowExample()
    ensures Correct(TrialData(1, Settings.Default.practiceBlock1Stimuli, [49, 48])) == Bool(true)
  {
    TypingTen();
    TypedNumberIsResponse(TrialData(1, Settings.Default.practiceBlock1Stimuli, [49, 48]), 10);
  }

  /** The same answer typed on the keypad is correct too. */
  lemma PracticeBlockKeypadExample()
    ensures Correct(TrialData(1, Settings.Default.practiceBlock1Stimuli, [97, 96])) == Bool(true)
  {
    TypingTen();
    TypedNumberIsResponse(TrialData(1, Settings.Default.practiceBlock1Stimuli, [97, 96]), 10);
  }

  /** No key pressed at all scores as incorrect. */
  lemma PracticeBlockNoKeyExample()
    ensures Correct(TrialData(1, Settings.Default.practiceBlock1Stimuli, [NoKey])) == Bool(false)
  {
    NoDigitMeansNaN(TrialData(1, Settings.Default.practiceBlock1Stimuli, [NoKey]));
  }
}
