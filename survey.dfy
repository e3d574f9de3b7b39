/**
 * Reading survey answers out of the follow-up log. A survey row stores its
 * answers as a JSON object keyed "Q0", "Q1", ...; JSON decoding is outside
 * the model, so a row carries the decoded object. Likert answers such as
 * "4 - Agree" are reduced to their leading digit.
 */
module SurveyResponses {
  import opened Common

  /** The key of question number q. */
  function QuestionKey(q: int): (key: string)
    ensures |key| >= 2 && key[0] == 'Q'
  {
    "Q" + IntToString(q)
  }

  lemma QuestionKeyInjective(p: int, q: int)
    ensures QuestionKey(p) == QuestionKey(q) ==> p == q
  {
    if QuestionKey(p) == QuestionKey(q) {
      assert QuestionKey(p)[1..] == IntToString(p);
      assert QuestionKey(q)[1..] == IntToString(q);
      IntToStringInjective(p, q);
    }
  }

  /** get_response_from_json: the answer to question q, if the object has one. */
  function GetResponseFromJson(answers: map<string, string>, q: int): (r: Option<string>)
    ensures r.Some? <==> QuestionKey(q) in answers
    ensures r.Some? ==> r.value == answers[QuestionKey(q)]
  {
    if QuestionKey(q) in answers then Some(answers[QuestionKey(q)]) else None
  }

  /** The answer keyed "Q0" is the first question's. */
  lemma FirstQuestionExample()
    ensures GetResponseFromJson(map["Q0" := "3"], 0) == Some("3")
    ensures GetResponseFromJson(map["Q0" := "3"], 1) == None
  {
    assert QuestionKey(0) == "Q0";
    assert QuestionKey(1) == "Q1";
  }

  /** `str.strip`'s whitespace, on ASCII text. */
  predicate IsSpace(c: char)
  {
    c == ' ' || c == '\t' || c == '\n' || c == '\r' || c == 11 as char || c == 12 as char
  }

  /** The first position at or after i that holds no whitespace (or the end). */
  function SkipSpaceForward(s: string, i: nat): (j: nat)
    requires i <= |s|
    ensures i <= j <= |s|
    ensures forall k :: i <= k < j ==> IsSpace(s[k])
    ensures j < |s| ==> !IsSpace(s[j])
    decreases |s| - i
  {
    if i < |s| && IsSpace(s[i]) then SkipSpaceForward(s, i + 1) else i
  }

  /** The end of the text in s[lo..j] once trailing whitespace is dropped. */
  function SkipSpaceBackward(s: string, lo: nat, j: nat): (e: nat)
    requires lo <= j <= |s|
    ensures lo <= e <= j
    ensures forall k :: e <= k < j ==> IsSpace(s[k])
    ensures e > lo ==> !IsSpace(s[e - 1])
    decreases j
  {
    if j > lo && IsSpace(s[j - 1]) then SkipSpaceBackward(s, lo, j - 1) else j
  }

  /** r sits in s at offset i, with only whitespace before and after it. */
  predicate SurroundedBySpace(s: string, i: nat, r: string)
  {
    && i + |r| <= |s| && r == s[i..i + |r|]
    && (forall k :: 0 <= k < i ==> IsSpace(s[k]))
    && (forall k :: i + |r| <= k < |s| ==> IsSpace(s[k]))
  }

  /**
   * `str.strip`: the text between the leading and the trailing whitespace;
   * what is removed is whitespace and what is kept neither starts nor ends
   * with it.
   */
  function Strip(s: string): (r: string)
    ensures SurroundedBySpace(s, SkipSpaceForward(s, 0), r)
    ensures r != [] ==> !IsSpace(r[0]) && !IsSpace(r[|r| - 1])
  {
    var a := SkipSpaceForward(s, 0);
    s[a..SkipSpaceBackward(s, a, |s|)]
  }

  lemma StripIdempotent(s: string)
    ensures Strip(Strip(s)) == Strip(s)
  {
    var r := Strip(s);
    assert SkipSpaceForward(r, 0) == 0;
    assert SkipSpaceBackward(r, 0, |r|) == |r|;
    assert r[0..|r|] == r;
  }

  /** Only a leading digit of a Likert answer is kept. */
  function LikertDigit(response: string): (r: string)
    ensures |response| > 0 && IsDigitChar(response[0]) ==> r == [response[0]]
    ensures !(|response| > 0 && IsDigitChar(response[0])) ==> r == response
  {
    if |response| > 0 && IsDigitChar(response[0]) then response[..1] else response
  }

  /** A row of the follow-up log: its node id and its decoded answers. */
  datatype SurveyRow = SurveyRow(internalNodeId: string, responses: map<string, string>)

  /** The ways the lookup fails. */
  datatype LookupError =
    | AmbiguousTruthValue   // several rows share the node id: the array's truth value raises
    | NoFirstQuestion       // the row has no "Q0" answer: stripping None raises

  /** The rows of node `inid`, in their order. */
  function RowsOfNode(rows: seq<SurveyRow>, inid: string): (matches: seq<SurveyRow>)
    ensures |matches| <= |rows|
    ensures forall m :: m in matches <==> m in rows && m.internalNodeId == inid
  {
    if rows == [] then []
    else RowsOfNode(rows[..|rows| - 1], inid) + (if rows[|rows| - 1].internalNodeId == inid then [rows[|rows| - 1]] else [])
  }

  /** The answer text kept: stripped, and cut to its leading digit for a Likert question. */
  function Answer(text: string, isLikert: bool): (a: string)
  {
    if isLikert then LikertDigit(Strip(text)) else Strip(text)
  }

  /**
   * get_response_from_node_id: no answer for a node without rows, an error
   * for a node with several; the one row of a node gives its answer to the
   * first question, or fails when it has none.
   */
  function GetResponseFromNodeId(rows: seq<SurveyRow>, inid: string, isLikert: bool): (r: Result<Option<string>, LookupError>)
    ensures r == Err(AmbiguousTruthValue) <==> |RowsOfNode(rows, inid)| > 1
    ensures r == Ok(None) <==> forall k :: 0 <= k < |rows| ==> rows[k].internalNodeId != inid
    ensures |RowsOfNode(rows, inid)| == 1 ==>
              var responses := RowsOfNode(rows, inid)[0].responses;
              && (r == Err(NoFirstQuestion) <==> QuestionKey(0) !in responses)
              && (QuestionKey(0) in responses ==> r == Ok(Some(Answer(responses[QuestionKey(0)], isLikert))))
    ensures r.Ok? && r.value.Some? ==>
              exists k :: 0 <= k < |rows| && rows[k].internalNodeId == inid &&
                QuestionKey(0) in rows[k].responses &&
                r.value.value == Answer(rows[k].responses[QuestionKey(0)], isLikert)
  {
    var matches := RowsOfNode(rows, inid);
    assert |matches| > 0 ==> matches[0] in rows;
    if |matches| == 0 then
      assert forall k :: 0 <= k < |rows| ==> rows[k] in rows;
      Ok(None)
    else if |matches| > 1 then
      Err(AmbiguousTruthValue)
    else
      match GetResponseFromJson(matches[0].responses, 0)
      case None => Err(NoFirstQuestion)
      case Some(text) =>
        var response := Strip(text);
        Ok(Some(if isLikert then LikertDigit(response) else response))
  }

  /** A node with exactly one row reads that row's first answer, or fails without one. */
  lemma OneRowLookup(row: SurveyRow, isLikert: bool)
    ensures GetResponseFromNodeId([row], row.internalNodeId, isLikert)
            == if QuestionKey(0) in row.responses then Ok(Some(Answer(row.responses[QuestionKey(0)], isLikert)))
               else Err(NoFirstQuestion)
  {
    assert [row][..0] == [];
    assert RowsOfNode([row], row.internalNodeId) == [row];
  }

  /** A Likert answer of a single row reads as its leading digit. */
  lemma LikertExample()
    ensures GetResponseFromNodeId([SurveyRow("0.0-11.0-0.0", map["Q0" := " 4 - Agree "])], "0.0-11.0-0.0", true) == Ok(Some("4"))
  {
    var text := " 4 - Agree ";
    assert Answer(text, true) == "4" by {
      assert SkipSpaceForward(text, 1) == 1;
      assert SkipSpaceBackward(text, 1, 10) == 10;
      var response := Strip(text);
      assert response == text[1..10];
      assert |response| == 9 && response[0] == '4';
    }
    var row := SurveyRow("0.0-11.0-0.0", map["Q0" := text]);
    assert QuestionKey(0) == "Q0";
    assert QuestionKey(0) in row.responses && row.responses[QuestionKey(0)] == text;
    OneRowLookup(row, true);
  }

  /** The one row of a node without a first answer fails, as stripping None raises. */
  lemma MissingAnswerExample()
    ensures GetResponseFromNodeId([SurveyRow("0.0-1.0-0.0", map["Q1" := "x"])], "0.0-1.0-0.0", false) == Err(NoFirstQuestion)
  {
    var row := SurveyRow("0.0-1.0-0.0", map["Q1" := "x"]);
    assert QuestionKey(0) == "Q0";
    assert QuestionKey(0) !in row.responses;
    OneRowLookup(row, false);
  }

  /** A node without rows has no answer. */
  lemma AbsentNodeExample()
    ensures GetResponseFromNodeId([SurveyRow("0.0-1.0-0.0", map["Q0" := " 21 "])], "0.0-2.0-0.0", false) == Ok(None)
  {
    var rows := [SurveyRow("0.0-1.0-0.0", map["Q0" := " 21 "])];
    assert rows[0].internalNodeId != "0.0-2.0-0.0";
  }

  /** Other answers only lose their surrounding spaces. */
  lemma PlainAnswerExample()
    ensures GetResponseFromNodeId([SurveyRow("0.0-1.0-0.0", map["Q0" := " 21 "])], "0.0-1.0-0.0", false) == Ok(Some("21"))
  {
    var text := " 21 ";
    assert Answer(text, false) == "21" by {
      assert SkipSpaceForward(text, 1) == 1;
      assert SkipSpaceBackward(text, 1, 3) == 3;
      assert Strip(text) == text[1..3];
    }
    var row := SurveyRow("0.0-1.0-0.0", map["Q0" := text]);
    assert QuestionKey(0) == "Q0";
    assert QuestionKey(0) in row.responses && row.responses[QuestionKey(0)] == text;
    OneRowLookup(row, false);
  }
}
