/**
 * Classification of attention-task trials: reaction times with the
 * non-responses dropped, anticipation errors (a response under 100 ms), and
 * errors on the digit trials, split into "go" errors (a digit other than 3,
 * which calls for a response) and "no-go" errors (the digit 3, which calls
 * for withholding one).
 */
module SartErrors {
  import opened Common

  /** The reaction-time lists of several trials, concatenated in order. */
  function Flatten(rts: seq<seq<int>>): seq<int>
  {
    if rts == [] then [] else Flatten(rts[..|rts| - 1]) + rts[|rts| - 1]
  }

  lemma {:induction false} FlattenMembers(rts: seq<seq<int>>)
    ensures forall x :: x in Flatten(rts) <==> exists i :: 0 <= i < |rts| && x in rts[i]
    decreases |rts|
  {
    if rts != [] {
      FlattenMembers(rts[..|rts| - 1]);
      assert forall i :: 0 <= i < |rts| - 1 ==> rts[..|rts| - 1][i] == rts[i];
    }
  }

  /** The entries that are not negative, in their order. */
  function NonNegative(xs: seq<int>): (r: seq<int>)
    ensures |r| <= |xs|
    ensures forall x :: x in r <==> x in xs && x >= 0
  {
    if xs == [] then []
    else NonNegative(xs[..|xs| - 1]) + (if xs[|xs| - 1] >= 0 then [xs[|xs| - 1]] else [])
  }

  /** _format_rts: all reaction times of the trials, without the non-responses. */
  function FormatRts(rts: seq<seq<int>>): seq<int>
  {
    NonNegative(Flatten(rts))
  }

  lemma {:induction false} NonNegativeAppend(a: seq<int>, b: seq<int>)
    ensures NonNegative(a + b) == NonNegative(a) + NonNegative(b)
    decreases |b|
  {
    if b == [] {
      assert a + b == a;
    } else {
      assert (a + b)[..|a + b| - 1] == a + b[..|b| - 1];
      NonNegativeAppend(a, b[..|b| - 1]);
    }
  }

  lemma {:induction false} NonNegativeAll(xs: seq<int>)
    requires forall i :: 0 <= i < |xs| ==> xs[i] >= 0
    ensures NonNegative(xs) == xs
    decreases |xs|
  {
    if xs != [] {
      NonNegativeAll(xs[..|xs| - 1]);
    }
  }

  /**
   * The kept times are exactly the non-negative ones of some trial, in trial
   * order: formatting two runs of trials formats each and concatenates.
   */
  lemma FormatRtsProperties(a: seq<seq<int>>, b: seq<seq<int>>)
    ensures forall x :: x in FormatRts(a) <==> x >= 0 && exists i :: 0 <= i < |a| && x in a[i]
    ensures FormatRts(a + b) == FormatRts(a) + FormatRts(b)
    ensures |FormatRts([])| == 0
  {
    FlattenMembers(a);
    FlattenAppend(a, b);
    NonNegativeAppend(Flatten(a), Flatten(b));
  }

  lemma {:induction false} FlattenAppend(a: seq<seq<int>>, b: seq<seq<int>>)
    ensures Flatten(a + b) == Flatten(a) + Flatten(b)
    decreases |b|
  {
    if b == [] {
      assert a + b == a;
    } else {
      assert (a + b)[..|a + b| - 1] == a + b[..|b| - 1];
      FlattenAppend(a, b[..|b| - 1]);
    }
  }

  /** Nothing is dropped when every trial responded. */
  lemma FormatRtsOfResponses(rts: seq<seq<int>>)
    requires forall i, j :: 0 <= i < |rts| && 0 <= j < |rts[i]| ==> rts[i][j] >= 0
    ensures FormatRts(rts) == Flatten(rts)
  {
    var f := Flatten(rts);
    FlattenMembers(rts);
    forall k | 0 <= k < |f|
      ensures f[k] >= 0
    {
      assert f[k] in f;
    }
    NonNegativeAll(f);
  }

  // Anticipation errors
  // -------------------

  /** The response of a trial came in under 100 ms: its first recorded time is in [0, 100). */
  predicate IsAnticipationError(rt: seq<int>)
  {
    var ms := FormatRts([rt]);
    |ms| > 0 && ms[0] < 100 && ms[0] > -1
  }

  lemma {:induction false} NonNegativeFirst(xs: seq<int>)
    ensures |NonNegative(xs)| > 0 <==> exists i :: 0 <= i < |xs| && xs[i] >= 0
    ensures |NonNegative(xs)| > 0 ==>
              exists i :: 0 <= i < |xs| && xs[i] == NonNegative(xs)[0] && xs[i] >= 0 &&
                forall j :: 0 <= j < i ==> xs[j] < 0
    decreases |xs|
  {
    if xs != [] {
      var p := xs[..|xs| - 1];
      NonNegativeFirst(p);
      assert forall j :: 0 <= j < |p| ==> p[j] == xs[j];
      if |NonNegative(p)| == 0 && xs[|xs| - 1] >= 0 {
        assert NonNegative(xs)[0] == xs[|xs| - 1];
      }
    }
  }

  /** An anticipation error is a trial whose first non-negative time is under 100 ms. */
  lemma AnticipationErrorMeans(rt: seq<int>)
    ensures IsAnticipationError(rt) <==>
              exists i :: 0 <= i < |rt| && 0 <= rt[i] < 100 && forall j :: 0 <= j < i ==> rt[j] < 0
  {
    assert [rt][..0] == [];
    assert Flatten([rt]) == rt;
    NonNegativeFirst(rt);
    if exists i :: 0 <= i < |rt| && 0 <= rt[i] < 100 && forall j :: 0 <= j < i ==> rt[j] < 0 {
      var i :| 0 <= i < |rt| && 0 <= rt[i] < 100 && forall j :: 0 <= j < i ==> rt[j] < 0;
      var k :| 0 <= k < |rt| && rt[k] == NonNegative(rt)[0] && rt[k] >= 0 && forall j :: 0 <= j < k ==> rt[j] < 0;
      assert k == i;
    }
  }

  lemma FormatOneTime(x: int)
    ensures FormatRts([[x]]) == if x >= 0 then [x] else []
  {
    assert [[x]][..0] == [];
    assert Flatten([[x]]) == [x];
    assert [x][..0] == [];
  }

  lemma AnticipationExamples()
    ensures !IsAnticipationError([667])
    ensures !IsAnticipationError([100])
    ensures IsAnticipationError([99])
    ensures IsAnticipationError([15])
    ensures !IsAnticipationError([-1])
  {
    FormatOneTime(667);
    FormatOneTime(100);
    FormatOneTime(99);
    FormatOneTime(15);
    FormatOneTime(-1);
  }

  /** A trial of the attention task as the error classification sees it. */
  datatype SartTrial = SartTrial(stimulus: string, correct: bool, rt: seq<int>, anticipateError: bool)

  /** A row after the anticipation column is added and `correct` recomputed. */
  function WithAnticipation(t: SartTrial): SartTrial
  {
    var anticipated := IsAnticipationError(t.rt);
    t.(anticipateError := anticipated, correct := if anticipated then false else t.correct)
  }

  /**
   * A flagged trial is incorrect; an unflagged trial keeps its `correct`
   * value; stimulus and times never change; marking twice marks once.
   */
  lemma WithAnticipationProperties(t: SartTrial)
    ensures WithAnticipation(t).anticipateError <==> IsAnticipationError(t.rt)
    ensures WithAnticipation(t).anticipateError ==> !WithAnticipation(t).correct
    ensures !WithAnticipation(t).anticipateError ==> WithAnticipation(t).correct == t.correct
    ensures WithAnticipation(t).stimulus == t.stimulus && WithAnticipation(t).rt == t.rt
    ensures WithAnticipation(WithAnticipation(t)) == WithAnticipation(t)
  {
  }

  /** _add_anticipation_errors: updates the trial table in place. */
  method AddAnticipationErrors(trials: array<SartTrial>)
    modifies trials
    ensures forall i :: 0 <= i < trials.Length ==> trials[i] == WithAnticipation(old(trials[i]))
  {
    for i := 0 to trials.Length
      invariant forall j :: 0 <= j < i ==> trials[j] == WithAnticipation(old(trials[j]))
      invariant forall j :: i <= j < trials.Length ==> trials[j] == old(trials[j])
    {
      var t := trials[i];
      var anticipated := IsAnticipationError(t.rt);
      t := t.(anticipateError := anticipated);
      if anticipated {
        t := t.(correct := false);
      }
      trials[i] := t;
    }
  }

  // Go and no-go errors
  // -------------------

  /** Python's `str.isdigit` on ASCII text: non-empty and all digits. */
  predicate IsDigitString(s: string)
  {
    |s| > 0 && AllDigits(s)
  }

  const NoGoDigit := "3"

  predicate IsGoError(t: SartTrial, errType: string)
  {
    && IsDigitString(t.stimulus) && !t.correct && !t.anticipateError
    && ((errType == "go" && t.stimulus != NoGoDigit) || (errType == "no_go" && t.stimulus == NoGoDigit))
  }

  /** _calculate_go_errors: one flag per trial. */
  method CalculateGoErrors(trials: seq<SartTrial>, errType: string) returns (errors: seq<bool>)
    ensures |errors| == |trials|
    ensures forall i :: 0 <= i < |trials| ==> (errors[i] <==> IsGoError(trials[i], errType))
  {
    errors := [];
    for i := 0 to |trials|
      invariant |errors| == i
      invariant forall j :: 0 <= j < i ==> (errors[j] <==> IsGoError(trials[j], errType))
    {
      var t := trials[i];
      var error := false;
      if IsDigitString(t.stimulus) && !t.correct && !t.anticipateError {
        if errType == "go" && t.stimulus != NoGoDigit {
          error := true;
        } else if errType == "no_go" && t.stimulus == NoGoDigit {
          error := true;
        }
      }
      errors := errors + [error];
    }
  }

  /**
   * No trial is both a go and a no-go error, and any other error type flags
   * nothing.
   */
  lemma GoErrorKinds(t: SartTrial, errType: string)
    ensures !(IsGoError(t, "go") && IsGoError(t, "no_go"))
    ensures errType != "go" && errType != "no_go" ==> !IsGoError(t, errType)
    ensures IsGoError(t, errType) ==> IsDigitString(t.stimulus) && !t.correct && !t.anticipateError
  {
  }

  /**
   * Once anticipation errors are marked, an incorrect digit trial is exactly
   * one of: an anticipation error, a go error, a no-go error.
   */
  lemma ErrorsPartitionIncorrect(t0: SartTrial)
    requires IsDigitString(t0.stimulus)
    ensures var t := WithAnticipation(t0);
            && (!t.correct <==> t.anticipateError || IsGoError(t, "go") || IsGoError(t, "no_go"))
            && (t.anticipateError ==> !IsGoError(t, "go") && !IsGoError(t, "no_go"))
  {
  }

  function CountIncorrect(ts: seq<SartTrial>): nat
  {
    if ts == [] then 0 else CountIncorrect(ts[..|ts| - 1]) + (if ts[|ts| - 1].correct then 0 else 1)
  }

  function CountAnticipated(ts: seq<SartTrial>): nat
  {
    if ts == [] then 0 else CountAnticipated(ts[..|ts| - 1]) + (if ts[|ts| - 1].anticipateError then 1 else 0)
  }

  function CountGoErrors(ts: seq<SartTrial>, errType: string): nat
  {
    if ts == [] then 0 else CountGoErrors(ts[..|ts| - 1], errType) + (if IsGoError(ts[|ts| - 1], errType) then 1 else 0)
  }

  /**
   * Over marked digit trials, the incorrect ones are the anticipation errors
   * plus the go errors plus the no-go errors.
   */
  lemma {:induction false} ErrorCountsAddUp(ts: seq<SartTrial>)
    requires forall i :: 0 <= i < |ts| ==> IsDigitString(ts[i].stimulus) && ts[i] == WithAnticipation(ts[i])
    ensures CountIncorrect(ts) == CountAnticipated(ts) + CountGoErrors(ts, "go") + CountGoErrors(ts, "no_go")
    decreases |ts|
  {
    if ts != [] {
      var p := ts[..|ts| - 1];
      assert forall i :: 0 <= i < |p| ==> p[i] == ts[i];
      ErrorCountsAddUp(p);
      ErrorsPartitionIncorrect(ts[|ts| - 1]);
    }
  }
}
