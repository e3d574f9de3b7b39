/**
 * The second practice block of the attention task repeats until the
 * participant reaches the minimum number of correct trials or has used up the
 * allowed attempts. Running out of attempts sets a flag that skips the main
 * experiment: the closing notice is not shown and the participant is sent
 * straight to the follow-up questions.
 */
module Practice {
  import opened Common

  /** Number of trials of one attempt whose `correct` datum is truthy. */
  function CountCorrect(data: seq<JsValue>): (n: nat)
    ensures n <= |data|
  {
    if data == [] then 0
    else CountCorrect(data[..|data| - 1]) + (if Truthy(data[|data| - 1]) then 1 else 0)
  }

  /**
   * The closure state of `loop_function`: the attempt counter and the skip
   * flag, with the threshold and the cap it compares them against. `history`
   * records the correct count of each attempt so far.
   */
  class PracticeGate {
    const minCorrect: int
    const maxAttempts: int
    var attempts: int
    var skipExperiment: bool
    ghost var history: seq<nat>

    ghost predicate Valid()
      reads this
    {
      && attempts == |history|
      && (skipExperiment <==> exists k :: 0 <= k < |history| && history[k] < minCorrect && k + 1 >= maxAttempts)
    }

    /** Every attempt so far failed below the cap, so the runner calls the gate again. */
    ghost predicate Looping()
      reads this
    {
      forall k :: 0 <= k < |history| ==> history[k] < minCorrect && k + 1 < maxAttempts
    }

    constructor (minCorrect: int, maxAttempts: int)
      ensures Valid() && Looping()
      ensures this.minCorrect == minCorrect && this.maxAttempts == maxAttempts
      ensures attempts == 0 && !skipExperiment && history == []
    {
      this.minCorrect := minCorrect;
      this.maxAttempts := maxAttempts;
      attempts := 0;
      skipExperiment := false;
      history := [];
    }

    /**
     * `loop_function(data)`, called once per finished attempt with the
     * `correct` datum of each trial of the attempt; true means "run again".
     */
    method LoopFunction(data: seq<JsValue>) returns (repeat: bool)
      requires Valid()
      modifies this
      ensures Valid()
      ensures attempts == old(attempts) + 1
      ensures history == old(history) + [CountCorrect(data)]
      ensures repeat <==> CountCorrect(data) < minCorrect && attempts < maxAttempts
      ensures skipExperiment <==> old(skipExperiment) || (CountCorrect(data) < minCorrect && attempts >= maxAttempts)
      ensures old(Looping()) ==> (repeat <==> Looping())
      ensures old(Looping()) && !repeat ==>
                && (skipExperiment <==> forall k :: 0 <= k < |history| ==> history[k] < minCorrect)
                && attempts <= if maxAttempts >= 1 then maxAttempts else 1
    {
      attempts := attempts + 1;
      var numCorrect := 0;
      for i := 0 to |data|
        invariant numCorrect == CountCorrect(data[..i])
      {
        assert data[..i + 1][..i] == data[..i];
        if Truthy(data[i]) {
          numCorrect := numCorrect + 1;
        }
      }
      assert data[..|data|] == data;
      history := history + [numCorrect];
      if numCorrect >= minCorrect {
        repeat := false;
      } else if attempts >= maxAttempts {
        skipExperiment := true;
        repeat := false;
      } else {
        repeat := true;
      }
      assert forall k :: 0 <= k < |old(history)| ==> history[k] == old(history)[k];
      assert history[|history| - 1] == numCorrect;
      if old(skipExperiment) {
        var k :| 0 <= k < |old(history)| && old(history)[k] < minCorrect && k + 1 >= maxAttempts;
        assert history[k] < minCorrect;
      }
      if old(Looping()) && attempts >= 2 {
        assert old(history)[attempts - 2] < minCorrect && attempts - 1 < maxAttempts;
      }
    }
  }

  // The loop as a whole
  // -------------------

  datatype GateOutcome = Passed(attempts: nat) | Exhausted(attempts: nat) | Unfinished

  /**
   * The outcome of the retry loop when the attempts after the first `done`
   * ones score `counts`: it stops at the first attempt that reaches the
   * threshold, or at the first failing attempt at or past the cap.
   */
  function Gate(minCorrect: int, maxAttempts: int, counts: seq<nat>, done: nat): GateOutcome
    decreases |counts|
  {
    if counts == [] then Unfinished
    else if counts[0] >= minCorrect then Passed(done + 1)
    else if done + 1 >= maxAttempts then Exhausted(done + 1)
    else Gate(minCorrect, maxAttempts, counts[1..], done + 1)
  }

  /** The attempt cap in effect: a cap below 1 still allows the first attempt. */
  function Cap(maxAttempts: int): nat
  {
    if maxAttempts >= 1 then maxAttempts else 1
  }

  lemma {:induction false} GateFrom(minCorrect: int, maxAttempts: int, counts: seq<nat>, done: nat)
    requires done < Cap(maxAttempts)
    ensures match Gate(minCorrect, maxAttempts, counts, done)
            case Passed(a) =>
              && done < a <= Cap(maxAttempts) && a - done <= |counts|
              && counts[a - done - 1] >= minCorrect
              && forall k :: 0 <= k < a - done - 1 ==> counts[k] < minCorrect
            case Exhausted(a) =>
              && a == Cap(maxAttempts) && a - done <= |counts|
              && forall k :: 0 <= k < a - done ==> counts[k] < minCorrect
            case Unfinished =>
              && |counts| < Cap(maxAttempts) - done
              && forall k :: 0 <= k < |counts| ==> counts[k] < minCorrect
    decreases |counts|
  {
    if counts != [] && counts[0] < minCorrect && done + 1 < maxAttempts {
      GateFrom(minCorrect, maxAttempts, counts[1..], done + 1);
      assert forall k :: 1 <= k < |counts| ==> counts[k] == counts[1..][k - 1];
    }
  }

  /**
   * The loop ends at the first attempt reaching the threshold, or after
   * exactly Cap(maxAttempts) attempts that all failed; it never runs more
   * than Cap(maxAttempts) attempts, and enough attempts always end it.
   */
  lemma GateOutcomes(minCorrect: int, maxAttempts: int, counts: seq<nat>)
    ensures match Gate(minCorrect, maxAttempts, counts, 0)
            case Passed(a) =>
              && 1 <= a <= Cap(maxAttempts) && a <= |counts| && counts[a - 1] >= minCorrect
              && forall k :: 0 <= k < a - 1 ==> counts[k] < minCorrect
            case Exhausted(a) =>
              && a == Cap(maxAttempts) && a <= |counts|
              && forall k :: 0 <= k < a ==> counts[k] < minCorrect
            case Unfinished =>
              |counts| < Cap(maxAttempts)
    ensures |counts| >= Cap(maxAttempts) ==> !Gate(minCorrect, maxAttempts, counts, 0).Unfinished?
  {
    GateFrom(minCorrect, maxAttempts, counts, 0);
  }

  /** With a threshold of 13 and three attempts: three scores of 10 exhaust the attempts; a first 14 passes at once. */
  lemma GateExamples()
    ensures Gate(13, 3, [10, 10, 10], 0) == Exhausted(3)
    ensures Gate(13, 3, [14], 0) == Passed(1)
    ensures Gate(13, 3, [10, 13, 2], 0) == Passed(2)
  {
    assert [10, 10, 10][1..] == [10, 10];
    assert [10, 10][1..] == [10];
    assert [10, 13, 2][1..] == [13, 2];
  }

  function Counts(attemptsData: seq<seq<JsValue>>): (cs: seq<nat>)
    ensures |cs| == |attemptsData|
    ensures forall i :: 0 <= i < |attemptsData| ==> cs[i] == CountCorrect(attemptsData[i])
  {
    seq(|attemptsData|, i requires 0 <= i < |attemptsData| => CountCorrect(attemptsData[i]))
  }

  /**
   * The runner's `chunk_type: 'while'` loop around the same, already built
   * practice block: run an attempt (its data is the next element of
   * `attemptsData`), ask the gate, repeat while it says so.
   */
  method RunPracticeLoop(gate: PracticeGate, attemptsData: seq<seq<JsValue>>) returns (outcome: GateOutcome)
    requires gate.Valid() && gate.history == []
    modifies gate
    ensures gate.Valid()
    ensures outcome == Gate(gate.minCorrect, gate.maxAttempts, Counts(attemptsData), 0)
    ensures gate.skipExperiment <==> outcome.Exhausted?
    ensures !outcome.Unfinished? ==> gate.attempts == outcome.attempts
  {
    var counts := Counts(attemptsData);
    var n := 0;
    while true
      invariant 0 <= n <= |attemptsData|
      invariant gate.Valid() && gate.Looping() && gate.attempts == n
      invariant gate.history == counts[..n]
      invariant Gate(gate.minCorrect, gate.maxAttempts, counts[n..], n) == Gate(gate.minCorrect, gate.maxAttempts, counts, 0)
      decreases |attemptsData| - n
    {
      if n == |attemptsData| {
        assert counts[n..] == [];
        return Unfinished;
      }
      assert counts[n..][1..] == counts[n + 1..];
      var repeat := gate.LoopFunction(attemptsData[n]);
      n := n + 1;
      assert gate.history == counts[..n];
      if !repeat {
        if gate.skipExperiment {
          outcome := Exhausted(n);
        } else {
          outcome := Passed(n);
        }
        return;
      }
    }
  }

  // After the loop
  // --------------

  /** The post-practice notice is shown unless the experiment is skipped. */
  function ShowsPostPracticeNotice(skipExperiment: bool): bool
  {
    !skipExperiment
  }

  /** After a finished loop the notice is shown exactly when the practice was passed. */
  lemma NoticeShownIffPassed(outcome: GateOutcome, skipExperiment: bool)
    requires !outcome.Unfinished?
    requires skipExperiment <==> outcome.Exhausted?
    ensures ShowsPostPracticeNotice(skipExperiment) <==> outcome.Passed?
  {
  }

  /**
   * The page the practice hands over to. `encode` stands for the query
   * encoding of the participant ID; the flag itself serialises as "true".
   */
  function RedirectUrl(participantId: string, skipExperiment: bool, encode: string -> string): string
  {
    var path := if skipExperiment then "follow_up" else "experiment";
    var query := "pid=" + encode(participantId) + (if skipExperiment then "&skip_experiment=true" else "");
    path + "?" + query
  }

  /** The part of a URL before its first '?'. */
  function PathOf(url: string): (p: string)
    ensures '?' !in p
  {
    if url == [] || url[0] == '?' then [] else [url[0]] + PathOf(url[1..])
  }

  /** The part of a URL after its first '?'. */
  function QueryOf(url: string): string
  {
    if url == [] then [] else if url[0] == '?' then url[1..] else QueryOf(url[1..])
  }

  lemma {:induction false} SplitUrl(path: string, query: string)
    requires '?' !in path
    ensures PathOf(path + "?" + query) == path
    ensures QueryOf(path + "?" + query) == query
  {
    if path != [] {
      assert (path + "?" + query)[1..] == path[1..] + "?" + query;
      SplitUrl(path[1..], query);
    } else {
      assert path + "?" + query == ['?'] + query;
    }
  }

  /**
   * A skipped experiment leads to the follow-up page with the flag set;
   * otherwise the participant goes on to the experiment with only the ID.
   */
  lemma RedirectTarget(participantId: string, skipExperiment: bool, encode: string -> string)
    ensures var url := RedirectUrl(participantId, skipExperiment, encode);
            && PathOf(url) == (if skipExperiment then "follow_up" else "experiment")
            && QueryOf(url) == "pid=" + encode(participantId) + (if skipExperiment then "&skip_experiment=true" else "")
  {
    var path := if skipExperiment then "follow_up" else "experiment";
    assert '?' !in path;
    SplitUrl(path, "pid=" + encode(participantId) + (if skipExperiment then "&skip_experiment=true" else ""));
  }
}
