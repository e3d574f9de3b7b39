/**
 * Offline segmentation of a participant's trial log into attention-task
 * blocks, and the block timings of the practice phase.
 *
 * A block opens at a task trial, grows over the following task trials (and,
 * when surveys are included, up to two survey trials), and is emitted when a
 * row that cannot extend it arrives. The row labels are tested for Python
 * truthiness, so a label of 0 counts as "no block open yet", and a block
 * still open when the rows run out is never emitted.
 */
module Segmentation {
  import opened Common

  const SartTrialType := "multi-stim-multi-response"
  const SurveyTrialType := "survey-multi-choice"

  /** One row of the log: its `trial_index` label, its trial type and its elapsed time. */
  datatype Row = Row(index: int, trialType: string, timeElapsed: int)

  /** The trial types that extend a block. */
  predicate IsBlockType(trialType: string, withSurvey: bool)
  {
    trialType == SartTrialType || (withSurvey && trialType == SurveyTrialType)
  }

  /** A matched row: its label, and its position among the rows. */
  datatype Mark = Mark(tag: int, pos: nat)

  /** Python truthiness of a remembered label: neither None nor 0. */
  predicate IsSet(m: Option<Mark>)
  {
    m.Some? && m.value.tag != 0
  }

  /** A block as the positions of its first and last row, both included. */
  datatype Span = Span(start: nat, end: nat)

  /** The scanner's variables, with the blocks emitted so far. */
  datatype ScanState = ScanState(first: Option<Mark>, last: Option<Mark>, numSurveys: nat, spans: seq<Span>)

  const Start := ScanState(None, None, 0, [])

  /** One turn of the row loop, for the row at position `pos`. */
  function Step(st: ScanState, row: Row, pos: nat, withSurvey: bool): ScanState
  {
    if !IsSet(st.first) && row.trialType == SurveyTrialType then
      st
    else if IsBlockType(row.trialType, withSurvey) && st.numSurveys < 2 then
      var first := if !IsSet(st.first) then Some(Mark(row.index, pos)) else st.first;
      var numSurveys := if row.trialType == SurveyTrialType then st.numSurveys + 1 else st.numSurveys;
      ScanState(first, Some(Mark(row.index, pos)), numSurveys, st.spans)
    else if IsSet(st.first) && IsSet(st.last) then
      ScanState(None, None, 0, st.spans + [Span(st.first.value.pos, st.last.value.pos)])
    else
      st
  }

  /** The scanner's state after the first n rows. */
  function ScanUpTo(rows: seq<Row>, n: nat, withSurvey: bool): ScanState
    requires n <= |rows|
  {
    if n == 0 then Start else Step(ScanUpTo(rows, n - 1, withSurvey), rows[n - 1], n - 1, withSurvey)
  }

  function CountSurveys(rows: seq<Row>): (c: nat)
    ensures c <= |rows|
  {
    if rows == [] then 0
    else CountSurveys(rows[..|rows| - 1]) + (if rows[|rows| - 1].trialType == SurveyTrialType then 1 else 0)
  }

  /** Spans in input order, non-overlapping, each followed by at least one row among the first n. */
  predicate OrderedSpans(spans: seq<Span>, n: nat)
  {
    && (forall i :: 0 <= i < |spans| ==> spans[i].start <= spans[i].end && spans[i].end + 1 < n)
    && (forall i, j :: 0 <= i < j < |spans| ==> spans[i].end < spans[j].start)
  }

  /** Each span lies among the first n rows. */
  predicate SpansWithin(spans: seq<Span>, n: nat)
  {
    forall i :: 0 <= i < |spans| ==> spans[i].start <= spans[i].end < n
  }

  /** The rows the slicing takes: from the first to the last row of each span. */
  function Slices(rows: seq<Row>, spans: seq<Span>): (blocks: seq<seq<Row>>)
    requires SpansWithin(spans, |rows|)
    ensures |blocks| == |spans|
  {
    seq(|spans|, i requires 0 <= i < |spans| => rows[spans[i].start..spans[i].end + 1])
  }

  lemma SlicesAppend(rows: seq<Row>, spans: seq<Span>, s: Span)
    requires SpansWithin(spans, |rows|) && s.start <= s.end < |rows|
    ensures SpansWithin(spans + [s], |rows|)
    ensures Slices(rows, spans + [s]) == Slices(rows, spans) + [rows[s.start..s.end + 1]]
  {
    assert forall i :: 0 <= i < |spans| ==> (spans + [s])[i] == spans[i];
  }

  // Invariants of the scan
  // ----------------------

  ghost predicate Inv(rows: seq<Row>, n: nat, st: ScanState)
    requires n <= |rows|
  {
    && (st.first.Some? <==> st.last.Some?)
    && (st.first.Some? ==>
          var f, l := st.first.value, st.last.value;
          && f.pos <= l.pos < n
          && rows[f.pos].trialType == SartTrialType
          && f.tag == rows[f.pos].index && l.tag == rows[l.pos].index
          && forall i :: 0 <= i < |st.spans| ==> st.spans[i].end < f.pos)
    && st.numSurveys <= 2
    && (!IsSet(st.first) ==> st.numSurveys == 0)
    && OrderedSpans(st.spans, n)
    && (forall i :: 0 <= i < |st.spans| ==> rows[st.spans[i].start].trialType == SartTrialType)
  }

  lemma StepInv(rows: seq<Row>, n: nat, withSurvey: bool, st: ScanState)
    requires n < |rows| && Inv(rows, n, st)
    ensures Inv(rows, n + 1, Step(st, rows[n], n, withSurvey))
  {
  }

  lemma {:induction false} ScanInv(rows: seq<Row>, n: nat, withSurvey: bool)
    requires n <= |rows|
    ensures Inv(rows, n, ScanUpTo(rows, n, withSurvey))
  {
    if n > 0 {
      var prev := ScanUpTo(rows, n - 1, withSurvey);
      ScanInv(rows, n - 1, withSurvey);
      StepInv(rows, n - 1, withSurvey, prev);
      assert ScanUpTo(rows, n, withSurvey) == Step(prev, rows[n - 1], n - 1, withSurvey);
    }
  }

  /** Only the first row may carry the label 0, as with the runner's trial_index 0, 1, 2, .... */
  predicate NoLaterZeroIndex(rows: seq<Row>)
  {
    forall k :: 0 < k < |rows| ==> rows[k].index != 0
  }

  /** Every row of the span extends a block. */
  predicate AllBlockRows(rows: seq<Row>, s: Span, withSurvey: bool)
    requires s.end < |rows|
  {
    forall k :: s.start <= k <= s.end ==> IsBlockType(rows[k].trialType, withSurvey)
  }

  /** The row after the span could not extend it: another kind of row, or a third survey. */
  predicate ClosedBy(rows: seq<Row>, s: Span, withSurvey: bool)
    requires s.start <= s.end && s.end + 1 < |rows|
  {
    !IsBlockType(rows[s.end + 1].trialType, withSurvey) || CountSurveys(rows[s.start..s.end + 1]) == 2
  }

  /** What a finished block holds. */
  predicate GoodBlock(rows: seq<Row>, s: Span, withSurvey: bool)
    requires s.start <= s.end && s.end + 1 < |rows|
  {
    && AllBlockRows(rows, s, withSurvey)
    && CountSurveys(rows[s.start..s.end + 1]) <= 2
    && ClosedBy(rows, s, withSurvey)
  }

  ghost predicate ContentInv(rows: seq<Row>, n: nat, withSurvey: bool, st: ScanState)
    requires n <= |rows| && Inv(rows, n, st)
  {
    && (IsSet(st.first) ==>
          var f := st.first.value.pos;
          && IsSet(st.last) && st.last.value.pos == n - 1
          && (forall k :: f <= k < n ==> IsBlockType(rows[k].trialType, withSurvey))
          && st.numSurveys == CountSurveys(rows[f..n]))
    && forall i :: 0 <= i < |st.spans| ==> GoodBlock(rows, st.spans[i], withSurvey)
  }

  lemma CountSurveysExtend(rows: seq<Row>, f: nat, n: nat)
    requires f <= n < |rows|
    ensures CountSurveys(rows[f..n + 1]) == CountSurveys(rows[f..n]) + (if rows[n].trialType == SurveyTrialType then 1 else 0)
  {
    assert rows[f..n + 1][..n - f] == rows[f..n];
  }

  /** A row that extends the open block, or opens one. */
  lemma ExtendContentInv(rows: seq<Row>, n: nat, withSurvey: bool, st: ScanState)
    requires n < |rows| && NoLaterZeroIndex(rows)
    requires Inv(rows, n, st) && ContentInv(rows, n, withSurvey, st)
    requires IsSet(st.first) || rows[n].trialType != SurveyTrialType
    requires IsBlockType(rows[n].trialType, withSurvey) && st.numSurveys < 2
    ensures Inv(rows, n + 1, Step(st, rows[n], n, withSurvey))
    ensures ContentInv(rows, n + 1, withSurvey, Step(st, rows[n], n, withSurvey))
  {
    StepInv(rows, n, withSurvey, st);
    var st' := Step(st, rows[n], n, withSurvey);
    if IsSet(st.first) {
      CountSurveysExtend(rows, st.first.value.pos, n);
      assert st'.first == st.first;
    } else if IsSet(st'.first) {
      assert st'.first.value.pos == n;
      assert rows[n..n + 1][..0] == [];
    }
  }

  /** A row that closes the open block. */
  lemma CloseContentInv(rows: seq<Row>, n: nat, withSurvey: bool, st: ScanState)
    requires n < |rows| && NoLaterZeroIndex(rows)
    requires Inv(rows, n, st) && ContentInv(rows, n, withSurvey, st)
    requires IsSet(st.first) && IsSet(st.last)
    requires !(IsBlockType(rows[n].trialType, withSurvey) && st.numSurveys < 2)
    ensures Inv(rows, n + 1, Step(st, rows[n], n, withSurvey))
    ensures ContentInv(rows, n + 1, withSurvey, Step(st, rows[n], n, withSurvey))
  {
    StepInv(rows, n, withSurvey, st);
    var s := Span(st.first.value.pos, st.last.value.pos);
    assert Step(st, rows[n], n, withSurvey).spans == st.spans + [s];
    assert rows[s.start..s.end + 1] == rows[s.start..n];
    assert GoodBlock(rows, s, withSurvey);
  }

  lemma StepContentInv(rows: seq<Row>, n: nat, withSurvey: bool, st: ScanState)
    requires n < |rows| && NoLaterZeroIndex(rows)
    requires Inv(rows, n, st) && ContentInv(rows, n, withSurvey, st)
    ensures Inv(rows, n + 1, Step(st, rows[n], n, withSurvey))
    ensures ContentInv(rows, n + 1, withSurvey, Step(st, rows[n], n, withSurvey))
  {
    var row := rows[n];
    if !IsSet(st.first) && row.trialType == SurveyTrialType {
      StepInv(rows, n, withSurvey, st);
    } else if IsBlockType(row.trialType, withSurvey) && st.numSurveys < 2 {
      ExtendContentInv(rows, n, withSurvey, st);
    } else if IsSet(st.first) {
      CloseContentInv(rows, n, withSurvey, st);
    } else {
      StepInv(rows, n, withSurvey, st);
    }
  }

  lemma {:induction false} ScanContentInv(rows: seq<Row>, n: nat, withSurvey: bool)
    requires n <= |rows| && NoLaterZeroIndex(rows)
    ensures Inv(rows, n, ScanUpTo(rows, n, withSurvey))
    ensures ContentInv(rows, n, withSurvey, ScanUpTo(rows, n, withSurvey))
  {
    if n > 0 {
      var prev := ScanUpTo(rows, n - 1, withSurvey);
      ScanContentInv(rows, n - 1, withSurvey);
      StepContentInv(rows, n - 1, withSurvey, prev);
      assert ScanUpTo(rows, n, withSurvey) == Step(prev, rows[n - 1], n - 1, withSurvey);
    }
  }

  /** The blocks found in the rows, as spans of positions. */
  function BlockSpans(rows: seq<Row>, withSurvey: bool): (spans: seq<Span>)
    ensures OrderedSpans(spans, |rows|)
  {
    ScanInv(rows, |rows|, withSurvey);
    ScanUpTo(rows, |rows|, withSurvey).spans
  }

  // What the emitted blocks are
  // ---------------------------

  /**
   * Besides coming out in input order without overlapping, each followed by
   * a row (a block still open at the end is dropped), every block starts
   * with a task trial: a survey never opens one.
   */
  lemma BlocksStartWithTask(rows: seq<Row>, withSurvey: bool)
    ensures forall i :: 0 <= i < |BlockSpans(rows, withSurvey)| ==>
              rows[BlockSpans(rows, withSurvey)[i].start].trialType == SartTrialType
  {
    ScanInv(rows, |rows|, withSurvey);
  }

  /**
   * With labels as the runner writes them: every row of a block extends it,
   * a block holds at most two surveys, and the row after it is the one that
   * closed it.
   */
  lemma SpansContents(rows: seq<Row>, withSurvey: bool)
    requires NoLaterZeroIndex(rows)
    ensures var spans := BlockSpans(rows, withSurvey);
            forall i :: 0 <= i < |spans| ==> GoodBlock(rows, spans[i], withSurvey)
  {
    ScanContentInv(rows, |rows|, withSurvey);
  }

  /**
   * Without surveys, and with labels as the runner writes them (no row after
   * the first labelled 0), every row of every block is a task trial.
   */
  lemma TaskOnlyBlocks(rows: seq<Row>)
    requires NoLaterZeroIndex(rows)
    ensures var spans := BlockSpans(rows, false);
            forall i, k :: 0 <= i < |spans| && spans[i].start <= k <= spans[i].end ==>
              rows[k].trialType == SartTrialType
  {
    SpansContents(rows, false);
  }

  /** A first task trial labelled 0 never opens a block; a block open at the end is dropped. */
  lemma ScanExamples()
    ensures BlockSpans([Row(0, SartTrialType, 0), Row(1, SartTrialType, 5), Row(2, "text", 9)], false) == [Span(1, 1)]
    ensures BlockSpans([Row(1, SartTrialType, 0), Row(2, SartTrialType, 5)], false) == []
  {
    var a := [Row(0, SartTrialType, 0), Row(1, SartTrialType, 5), Row(2, "text", 9)];
    assert ScanUpTo(a, 1, false) == ScanState(Some(Mark(0, 0)), Some(Mark(0, 0)), 0, []);
    assert ScanUpTo(a, 2, false) == ScanState(Some(Mark(1, 1)), Some(Mark(1, 1)), 0, []);
    assert ScanUpTo(a, 3, false) == ScanState(None, None, 0, [Span(1, 1)]);
    var b := [Row(1, SartTrialType, 0), Row(2, SartTrialType, 5)];
    assert ScanUpTo(b, 1, false) == ScanState(Some(Mark(1, 0)), Some(Mark(1, 0)), 0, []);
    assert ScanUpTo(b, 2, false) == ScanState(Some(Mark(1, 0)), Some(Mark(2, 1)), 0, []);
  }

  /**
   * Why later rows labelled 0 are excluded above: a block whose last row is
   * labelled 0 cannot be closed, so it runs on over the next non-block row.
   */
  lemma LaterZeroSwallowsRows()
    ensures var e := [Row(5, SartTrialType, 0), Row(0, SartTrialType, 1), Row(7, "text", 2),
                      Row(8, SartTrialType, 3), Row(9, "text", 4)];
            && BlockSpans(e, false) == [Span(0, 3)]
            && !GoodBlock(e, Span(0, 3), false)
  {
    var e := [Row(5, SartTrialType, 0), Row(0, SartTrialType, 1), Row(7, "text", 2),
              Row(8, SartTrialType, 3), Row(9, "text", 4)];
    assert ScanUpTo(e, 1, false) == ScanState(Some(Mark(5, 0)), Some(Mark(5, 0)), 0, []);
    assert ScanUpTo(e, 2, false) == ScanState(Some(Mark(5, 0)), Some(Mark(0, 1)), 0, []);
    assert ScanUpTo(e, 3, false) == ScanState(Some(Mark(5, 0)), Some(Mark(0, 1)), 0, []);
    assert ScanUpTo(e, 4, false) == ScanState(Some(Mark(5, 0)), Some(Mark(8, 3)), 0, []);
    assert ScanUpTo(e, 5, false) == ScanState(None, None, 0, [Span(0, 3)]);
    assert !IsBlockType(e[2].trialType, false);
  }

  /** A third survey closes a block; without surveys, a survey closes it at once; a leading survey is skipped. */
  lemma SurveyExamples()
    ensures BlockSpans([Row(1, SartTrialType, 0), Row(2, SurveyTrialType, 1), Row(3, SurveyTrialType, 2),
                        Row(4, SurveyTrialType, 3)], true) == [Span(0, 2)]
    ensures BlockSpans([Row(1, SartTrialType, 0), Row(2, SurveyTrialType, 1)], false) == [Span(0, 0)]
    ensures BlockSpans([Row(1, SurveyTrialType, 0), Row(2, SartTrialType, 1), Row(3, "text", 2)], true) == [Span(1, 1)]
  {
    var c := [Row(1, SartTrialType, 0), Row(2, SurveyTrialType, 1), Row(3, SurveyTrialType, 2), Row(4, SurveyTrialType, 3)];
    assert ScanUpTo(c, 1, true) == ScanState(Some(Mark(1, 0)), Some(Mark(1, 0)), 0, []);
    assert ScanUpTo(c, 2, true) == ScanState(Some(Mark(1, 0)), Some(Mark(2, 1)), 1, []);
    assert ScanUpTo(c, 3, true) == ScanState(Some(Mark(1, 0)), Some(Mark(3, 2)), 2, []);
    assert ScanUpTo(c, 4, true) == ScanState(None, None, 0, [Span(0, 2)]);
    var d := [Row(1, SartTrialType, 0), Row(2, SurveyTrialType, 1)];
    assert ScanUpTo(d, 1, false) == ScanState(Some(Mark(1, 0)), Some(Mark(1, 0)), 0, []);
    assert ScanUpTo(d, 2, false) == ScanState(None, None, 0, [Span(0, 0)]);
    var e := [Row(1, SurveyTrialType, 0), Row(2, SartTrialType, 1), Row(3, "text", 2)];
    assert ScanUpTo(e, 1, true) == Start;
    assert ScanUpTo(e, 2, true) == ScanState(Some(Mark(2, 1)), Some(Mark(2, 1)), 0, []);
    assert ScanUpTo(e, 3, true) == ScanState(None, None, 0, [Span(1, 1)]);
  }

  /** extract_sart_blocks: one pass over the rows, slicing out each finished block. */
  method ExtractSartBlocks(rows: seq<Row>, withSurvey: bool) returns (blocks: seq<seq<Row>>)
    ensures blocks == Slices(rows, BlockSpans(rows, withSurvey))
  {
    blocks := [];
    var first: Option<Mark> := None;
    var last: Option<Mark> := None;
    var numSurveys := 0;
    ghost var spans: seq<Span> := [];
    var pos := 0;
    while pos < |rows|
      invariant 0 <= pos <= |rows|
      invariant ScanState(first, last, numSurveys, spans) == ScanUpTo(rows, pos, withSurvey)
      invariant first.Some? <==> last.Some?
      invariant first.Some? ==> first.value.pos <= last.value.pos < pos
      invariant SpansWithin(spans, |rows|)
      invariant blocks == Slices(rows, spans)
    {
      var row := rows[pos];
      ghost var st := ScanState(first, last, numSurveys, spans);
      if !IsSet(first) && row.trialType == SurveyTrialType {
        // a survey never opens a block
      } else if IsBlockType(row.trialType, withSurvey) && numSurveys < 2 {
        if !IsSet(first) {
          first := Some(Mark(row.index, pos));
        }
        last := Some(Mark(row.index, pos));
        if row.trialType == SurveyTrialType {
          numSurveys := numSurveys + 1;
        }
      } else if IsSet(first) && IsSet(last) {
        var block := rows[first.value.pos..last.value.pos + 1];
        spans := spans + [Span(first.value.pos, last.value.pos)];
        SlicesAppend(rows, st.spans, Span(first.value.pos, last.value.pos));
        blocks := blocks + [block];
        first, last, numSurveys := None, None, 0;
      }
      assert ScanState(first, last, numSurveys, spans) == Step(st, row, pos, withSurvey);
      pos := pos + 1;
    }
  }

  // Practice timings
  // ----------------

  /** From the first to the last row of a block. */
  function Duration(block: seq<Row>): int
    requires |block| > 0
  {
    block[|block| - 1].timeElapsed - block[0].timeElapsed
  }

  /** The practice columns this part fills: the attempt count and one duration per block. */
  datatype PracticeColumn = NumPracticeBlk2s | TimePracticeBlk1 | TimePracticeBlk2(attempt: nat)

  /** The column's name in the compiled data. */
  function ColumnName(c: PracticeColumn): string
  {
    match c
    case NumPracticeBlk2s => "num_practice_blk2s"
    case TimePracticeBlk1 => "time_practice_blk1_ms"
    case TimePracticeBlk2(i) => "time_practice_blk2_" + NatToString(i) + "_ms"
  }

  /** Distinct columns have distinct names, so keying by column loses nothing. */
  lemma ColumnNameInjective(c: PracticeColumn, d: PracticeColumn)
    ensures ColumnName(c) == ColumnName(d) ==> c == d
  {
    if ColumnName(c) == ColumnName(d) {
      var p := "time_practice_blk2_";
      match c
      case NumPracticeBlk2s =>
        assert ColumnName(d)[0] == 'n';
      case TimePracticeBlk1 =>
        assert ColumnName(d)[17] == '1';
      case TimePracticeBlk2(i) =>
        assert ColumnName(c)[0] == 't' && ColumnName(c)[17] == '2';
        var j := d.attempt;
        var a, b := NatToString(i), NatToString(j);
        assert |a| == |b|;
        assert a == ColumnName(c)[|p|..|p| + |a|];
        assert b == ColumnName(d)[|p|..|p| + |b|];
        NatToStringInjective(i, j);
    }
  }

  /** The duration columns of the first n blocks. */
  function DurationColumns(n: nat): set<PracticeColumn>
  {
    (if n >= 1 then {TimePracticeBlk1} else {}) + (set i | 1 <= i < n :: TimePracticeBlk2(i))
  }

  /** The column that holds the duration of block i. */
  function DurationColumn(i: nat): PracticeColumn
  {
    if i == 0 then TimePracticeBlk1 else TimePracticeBlk2(i)
  }

  lemma DurationColumnsStep(i: nat)
    ensures DurationColumns(i + 1) == DurationColumns(i) + {DurationColumn(i)}
  {
    assert forall c :: c in DurationColumns(i + 1) <==> c in DurationColumns(i) || c == DurationColumn(i);
  }

  /**
   * The loop of compile_practice_data over the extracted blocks: the first
   * block is practice block 1, every later one is an attempt at practice
   * block 2, and the attempts are counted.
   */
  method RecordPracticeDurations(blocks: seq<seq<Row>>) returns (compiled: map<PracticeColumn, int>)
    requires forall i :: 0 <= i < |blocks| ==> |blocks[i]| > 0
    ensures compiled.Keys == DurationColumns(|blocks|) + {NumPracticeBlk2s}
    ensures compiled[NumPracticeBlk2s] == (if |blocks| > 0 then |blocks| - 1 else 0)
    ensures forall i :: 0 <= i < |blocks| ==> compiled[DurationColumn(i)] == Duration(blocks[i])
  {
    compiled := map[];
    var numPracticeBlk2s := 0;
    for i := 0 to |blocks|
      invariant numPracticeBlk2s == (if i > 0 then i - 1 else 0)
      invariant compiled.Keys == DurationColumns(i)
      invariant forall j :: 0 <= j < i ==> compiled[DurationColumn(j)] == Duration(blocks[j])
    {
      var block := blocks[i];
      var blockStart := block[0].timeElapsed;
      var blockEnd := block[|block| - 1].timeElapsed;
      var timePracticeBlk := blockEnd - blockStart;
      if i > 0 {
        compiled := compiled[TimePracticeBlk2(i) := timePracticeBlk];
        numPracticeBlk2s := numPracticeBlk2s + 1;
      } else {
        compiled := compiled[TimePracticeBlk1 := timePracticeBlk];
      }
      DurationColumnsStep(i);
    }
    compiled := compiled[NumPracticeBlk2s := numPracticeBlk2s];
  }

  /** compile_practice_data's block columns, from the log of the practice phase. */
  method CompilePracticeBlocks(rows: seq<Row>) returns (compiled: map<PracticeColumn, int>)
    ensures var blocks := Slices(rows, BlockSpans(rows, false));
            && compiled.Keys == DurationColumns(|blocks|) + {NumPracticeBlk2s}
            && compiled[NumPracticeBlk2s] == (if |blocks| > 0 then |blocks| - 1 else 0)
            && (|blocks| > 0 ==> |blocks[0]| > 0 && compiled[TimePracticeBlk1] == Duration(blocks[0]))
            && forall i :: 1 <= i < |blocks| ==> |blocks[i]| > 0 && compiled[TimePracticeBlk2(i)] == Duration(blocks[i])
  {
    var blocks := ExtractSartBlocks(rows, false);
    ghost var spans := BlockSpans(rows, false);
    assert forall i :: 0 <= i < |blocks| ==> |blocks[i]| == spans[i].end + 1 - spans[i].start;
    compiled := RecordPracticeDurations(blocks);
    assert |blocks| > 0 ==> DurationColumn(0) == TimePracticeBlk1;
    assert forall i :: 1 <= i < |blocks| ==> DurationColumn(i) == TimePracticeBlk2(i);
  }
}
