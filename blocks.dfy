/**
 * Assembly of the paced addition experiment: the timeline nodes handed to the
 * experiment runner (text screens, the fixation cross, the trial block and the
 * post-block survey), the random condition, the random order of block
 * difficulties and one chunk per block.
 */
module PasatBlocks {
  import opened Common
  import opened Stimuli
  import Settings

  const ContinueHtml := "<p>Press the <code>enter</code> key to continue.</p>"
  const PlayBeep := "<script>beep.play()</script>"
  const FixationCross := "<h1>+</h1>"
  const EnterKeyCode := 13
  /** Post-trial pause, in ms, of a block that shows feedback. */
  const FeedbackPostTrialMs := 1000

  datatype BlockOptions = BlockOptions(giveFeedback: bool, addedData: map<string, JsValue>)

  /** The `multi-stim-multi-response` trial block of createPasatBlock. */
  datatype PasatBlock = PasatBlock(
    stimuli: seq<seq<string>>,
    isHtml: bool,
    choices: seq<seq<int>>,
    timingStim: seq<int>,
    timingResponse: int,
    responseEndsTrial: bool,
    blockStimuli: seq<int>,             // the `data` attached to every trial
    addedData: map<string, JsValue>,    // merged into each trial's score when it finishes
    giveFeedback: bool,
    timingPostTrial: Option<int>)       // absent unless feedback is shown

  datatype TimelineNode =
    | Text(text: string, contKey: int)
    | SingleStim(stimuli: seq<string>, isHtml: bool, timingResponse: int, timingPostTrial: int)   // accepts no key
    | Pasat(block: PasatBlock)
    | MultiChoiceSurvey(questions: seq<seq<string>>, options: seq<seq<seq<string>>>, required: seq<seq<bool>>, horizontal: bool)

  /** A `chunk_type: 'linear'` chunk. */
  datatype Chunk = LinearChunk(timeline: seq<TimelineNode>)

  /** A text screen that the enter key dismisses. */
  function CreateTextBlock(textHtml: string): (b: TimelineNode)
    ensures b.Text? && b.contKey == EnterKeyCode
    ensures |b.text| == |textHtml| + |ContinueHtml|
    ensures b.text[..|textHtml|] == textHtml && b.text[|textHtml|..] == ContinueHtml
  {
    Text(textHtml + ContinueHtml, EnterKeyCode)
  }

  /**
   * The fixation cross shown before each block: an HTML stimulus that
   * accepts no key, shown for the stimulus display time and followed by the
   * post-stimulus pause.
   */
  function FixationTrial(settings: Settings.Settings): (node: TimelineNode)
    ensures node.SingleStim? && node.isHtml
    ensures node.stimuli == [FixationCross + PlayBeep]
    ensures node.timingResponse == settings.timingStimDisplay
    ensures node.timingPostTrial == settings.timingPostStim
  {
    SingleStim([FixationCross + PlayBeep], true, settings.timingStimDisplay, settings.timingPostStim)
  }

  // Stimulus markup
  // ---------------

  const TrialSuffix := "</h1>" + PlayBeep

  /** The markup of one trial: the value as a heading, followed by the beep. */
  function FormatTrial(v: int): string
  {
    "<h1>" + IntToString(v) + TrialSuffix
  }

  /** Reads an optional '-' and decimal digits, as the markup writes a number. */
  function ParseIntText(t: string): Option<int>
  {
    if |t| > 0 && AllDigits(t) then Some(DecimalValue(t))
    else if |t| > 1 && t[0] == '-' && AllDigits(t[1..]) then var n: int := DecimalValue(t[1..]); Some(-n)
    else None
  }

  /** Recovers the value shown by a trial's markup. */
  function ParseFormattedTrial(h: string): Option<int>
  {
    if |h| >= 4 + |TrialSuffix| && h[..4] == "<h1>" && h[|h| - |TrialSuffix|..] == TrialSuffix
    then ParseIntText(h[4..|h| - |TrialSuffix|])
    else None
  }

  lemma ParseIntTextOfIntToString(v: int)
    ensures ParseIntText(IntToString(v)) == Some(v)
  {
    var t := IntToString(v);
    if v < 0 {
      DecimalValueOfNatToString(-v);
      assert t[1..] == NatToString(-v);
      assert !IsDigitChar(t[0]);
    } else {
      DecimalValueOfNatToString(v);
    }
  }

  /** The value shown by a formatted trial can be read back from its markup. */
  lemma ParseFormatTrial(v: int)
    ensures ParseFormattedTrial(FormatTrial(v)) == Some(v)
  {
    var t := IntToString(v);
    var h := FormatTrial(v);
    assert h == "<h1>" + t + TrialSuffix;
    assert h[..4] == "<h1>";
    assert h[|h| - |TrialSuffix|..] == TrialSuffix;
    assert h[4..|h| - |TrialSuffix|] == t;
    ParseIntTextOfIntToString(v);
  }

  /** The stimuli list of a block: one singleton list of markup per value. */
  function FormattedStimuli(trials: seq<int>): seq<seq<string>>
  {
    seq(|trials|, i requires 0 <= i < |trials| => [FormatTrial(trials[i])])
  }

  /** The loop of `formatBlockStimuli`. */
  method FormatBlockStimuli(trials: seq<int>) returns (stimuli: seq<seq<string>>)
    ensures stimuli == FormattedStimuli(trials)
    ensures forall i :: 0 <= i < |trials| ==>
              |stimuli[i]| == 1 && ParseFormattedTrial(stimuli[i][0]) == Some(trials[i])
  {
    stimuli := [];
    for i := 0 to |trials|
      invariant |stimuli| == i
      invariant forall j :: 0 <= j < i ==> stimuli[j] == [FormatTrial(trials[j])]
    {
      var trialHtml := FormatTrial(trials[i]);
      stimuli := stimuli + [[trialHtml]];
    }
    forall i | 0 <= i < |trials|
      ensures ParseFormattedTrial(stimuli[i][0]) == Some(trials[i])
    {
      ParseFormatTrial(trials[i]);
    }
  }

  // The trial block
  // ---------------

  /** `_.range(start, end)` for start <= end. */
  function Range(start: int, end: int): (r: seq<int>)
    requires start <= end
    ensures |r| == end - start
    ensures forall i :: 0 <= i < |r| ==> r[i] == start + i
  {
    seq(end - start, i => start + i)
  }

  /** The key codes of the digit row (48..57) followed by those of the numeric keypad (96..105). */
  function DigitKeyCodes(): seq<int>
  {
    Range(48, 58) + Range(96, 106)
  }

  predicate IsDigitKeyCode(k: int)
  {
    48 <= k <= 57 || 96 <= k <= 105
  }

  /** The block accepts exactly the 20 digit keys, each listed once. */
  lemma DigitKeyCodesExact()
    ensures |DigitKeyCodes()| == 20
    ensures forall k :: k in DigitKeyCodes() <==> IsDigitKeyCode(k)
    ensures forall i, j :: 0 <= i < j < 20 ==> DigitKeyCodes()[i] != DigitKeyCodes()[j]
  {
    var r := DigitKeyCodes();
    forall k | IsDigitKeyCode(k)
      ensures k in r
    {
      if k <= 57 {
        assert r[k - 48] == k;
      } else {
        assert r[k - 86] == k;
      }
    }
  }

  /** createPasatBlock: the trial block over `stimuli`, with its choices and timing. */
  function CreatePasatBlock(settings: Settings.Settings, stimuli: seq<int>, options: BlockOptions): (b: PasatBlock)
    ensures b.blockStimuli == stimuli && |b.stimuli| == |stimuli|
    ensures forall i :: 0 <= i < |stimuli| ==>
              |b.stimuli[i]| == 1 && ParseFormattedTrial(b.stimuli[i][0]) == Some(stimuli[i])
    ensures |b.choices| == 2 && forall c, k :: 0 <= c < 2 ==> (k in b.choices[c] <==> IsDigitKeyCode(k))
    ensures b.timingStim == [settings.timingStimDisplay] && b.timingResponse == settings.timingPostStim
    ensures b.isHtml && !b.responseEndsTrial && b.addedData == options.addedData && b.giveFeedback == options.giveFeedback
    ensures b.timingPostTrial == (if options.giveFeedback then Some(FeedbackPostTrialMs) else None)
  {
    DigitKeyCodesExact();
    var formatted := FormattedStimuli(stimuli);
    assert forall i :: 0 <= i < |stimuli| ==> ParseFormattedTrial(formatted[i][0]) == Some(stimuli[i]) by {
      forall i | 0 <= i < |stimuli| {
        ParseFormatTrial(stimuli[i]);
      }
    }
    PasatBlock(
      formatted,
      true,
      [DigitKeyCodes(), DigitKeyCodes()],
      [settings.timingStimDisplay],
      settings.timingPostStim,
      false,
      stimuli,
      options.addedData,
      options.giveFeedback,
      if options.giveFeedback then Some(FeedbackPostTrialMs) else None)
  }

  const BlockNoticeText := "When you're ready to continue, a trial block will begin."

  /** The post-block survey: every question required, each rated on the first Likert scale. */
  function PostBlockSurvey(settings: Settings.Settings): (s: TimelineNode)
    ensures s.MultiChoiceSurvey? && s.horizontal
    ensures s.questions == [settings.postBlockQuestions]
    ensures s.options == [[settings.likertScale1, settings.likertScale1]]
    ensures |s.required| == 1 && |s.required[0]| == |settings.postBlockQuestions|
    ensures forall q :: 0 <= q < |s.required[0]| ==> s.required[0][q]
  {
    var required := seq(|settings.postBlockQuestions|, _ => true);
    MultiChoiceSurvey(
      [settings.postBlockQuestions],
      [[settings.likertScale1, settings.likertScale1]],
      [required],
      true)
  }

  /** generatePasatExperimentChunk: notice, fixation, trial block, survey. */
  function ExperimentChunk(settings: Settings.Settings, stimuli: seq<int>, options: BlockOptions): (c: Chunk)
    ensures |c.timeline| == 4
    ensures c.timeline[0] == CreateTextBlock(BlockNoticeText)
    ensures c.timeline[1] == FixationTrial(settings)
    ensures c.timeline[2] == Pasat(CreatePasatBlock(settings, stimuli, options))
    ensures c.timeline[3] == PostBlockSurvey(settings)
  {
    LinearChunk([
      CreateTextBlock(BlockNoticeText),
      FixationTrial(settings),
      Pasat(CreatePasatBlock(settings, stimuli, options)),
      PostBlockSurvey(settings)])
  }

  // Condition and block order
  // -------------------------

  /** generateCondition: `_.random(1, BLOCKS_PER_CONDITION.length)`. */
  function GenerateCondition(settings: Settings.Settings, u: nat): (c: int)
    ensures |settings.blocksPerCondition| >= 1 ==> 1 <= c <= |settings.blocksPerCondition|
  {
    RandomInt(1, |settings.blocksPerCondition|, u)
  }

  /** Every condition of the table can be drawn. */
  lemma GenerateConditionReaches(settings: Settings.Settings, c: int)
    requires 1 <= c <= |settings.blocksPerCondition|
    ensures GenerateCondition(settings, c - 1) == c
  {
    RandomIntReaches(1, |settings.blocksPerCondition|, c);
  }

  /** `m` copies of `x`. */
  function Repeat(x: Difficulty, m: nat): (r: seq<Difficulty>)
    ensures |r| == m
    ensures multiset(r)[x] == m
    ensures forall y :: y != x ==> multiset(r)[y] == 0
  {
    if m == 0 then [] else [x] + Repeat(x, m - 1)
  }

  /**
   * `_.shuffle` driven by raw draws: the element at position (draw mod length)
   * goes first and the rest is shuffled with the remaining draws (a missing
   * draw counts as 0). Any draws give a permutation.
   */
  function Shuffle<T>(xs: seq<T>, draws: seq<nat>): (r: seq<T>)
    ensures |r| == |xs|
    ensures multiset(r) == multiset(xs)
    decreases |xs|
  {
    if |xs| <= 1 then xs
    else
      var k := (if draws == [] then 0 else draws[0]) % |xs|;
      var rest := xs[..k] + xs[k + 1..];
      assert xs == xs[..k] + [xs[k]] + xs[k + 1..];
      [xs[k]] + Shuffle(rest, if draws == [] then [] else draws[1..])
  }

  /** The middle of the block order before shuffling: the extra medium blocks, then one easy and one hard. */
  function UnshuffledMiddle(numMiddleMedium: nat): seq<Difficulty>
  {
    Repeat(Medium, numMiddleMedium) + [Easy, Hard]
  }

  /** One easy block, one hard block and the extra medium ones. */
  lemma MiddleCounts(numMiddleMedium: nat)
    ensures |UnshuffledMiddle(numMiddleMedium)| == numMiddleMedium + 2
    ensures multiset(UnshuffledMiddle(numMiddleMedium))[Easy] == 1
    ensures multiset(UnshuffledMiddle(numMiddleMedium))[Hard] == 1
    ensures multiset(UnshuffledMiddle(numMiddleMedium))[Medium] == numMiddleMedium
  {
    var r := Repeat(Medium, numMiddleMedium);
    assert multiset(UnshuffledMiddle(numMiddleMedium)) == multiset(r) + multiset{Easy, Hard};
  }

  /** `Array(n)` throws a RangeError for a negative or undefined length. */
  datatype BlockTypesError = InvalidArrayLength

  /**
   * generateRandomBlockTypes(condition, outer_block_type): the outer type at
   * both ends and a shuffled middle of n - 4 medium blocks, one easy and one
   * hard, where n is the condition's number of blocks.
   */
  function GenerateRandomBlockTypes(settings: Settings.Settings, condition: int, outer: Difficulty, shuffleDraws: seq<nat>): (r: Result<seq<Difficulty>, BlockTypesError>)
    ensures r.Ok? <==> 1 <= condition <= |settings.blocksPerCondition| && settings.blocksPerCondition[condition - 1] >= 4
    ensures r.Ok? ==>
              var n := settings.blocksPerCondition[condition - 1];
              var types := r.value;
              && |types| == n
              && types[0] == outer && types[n - 1] == outer
              && multiset(types[1..n - 1]) == multiset(UnshuffledMiddle(n - 4))
              && multiset(types[1..n - 1])[Easy] == 1
              && multiset(types[1..n - 1])[Hard] == 1
              && multiset(types[1..n - 1])[Medium] == n - 4
  {
    if !(1 <= condition <= |settings.blocksPerCondition|) then
      Err(InvalidArrayLength)     // the missing entry makes the length NaN
    else
      var blocksInCondition := settings.blocksPerCondition[condition - 1];
      var numMiddleMediumBlocks := blocksInCondition - 2 - 2;
      if numMiddleMediumBlocks < 0 then Err(InvalidArrayLength)
      else
        var middle := Shuffle(UnshuffledMiddle(numMiddleMediumBlocks), shuffleDraws);
        var types := [outer] + middle + [outer];
        assert types[1..blocksInCondition - 1] == middle;
        MiddleCounts(numMiddleMediumBlocks);
        Ok(types)
  }

  /**
   * With the shipped table of five conditions, the condition is 1..5 and its
   * block order, with medium outer blocks, has 4 + condition blocks.
   */
  lemma DefaultBlockOrders(u: nat, shuffleDraws: seq<nat>)
    ensures var c := GenerateCondition(Settings.Default, u);
            && 1 <= c <= 5
            && GenerateRandomBlockTypes(Settings.Default, c, Medium, shuffleDraws).Ok?
            && |GenerateRandomBlockTypes(Settings.Default, c, Medium, shuffleDraws).value| == 4 + c
  {
    var c := GenerateCondition(Settings.Default, u);
    assert Settings.Default.blocksPerCondition[c - 1] == 4 + c;
  }

  // One chunk per block
  // -------------------

  datatype PasatBlockStimuli = PasatBlockStimuli(blockStimuli: seq<seq<int>>, formattedStimuli: seq<Chunk>)

  /** The extra datum every trial of a block carries: its difficulty label. */
  function BlockTypeData(d: Difficulty): map<string, JsValue>
  {
    map["block_type" := Str(Label(d))]
  }

  /**
   * generatePasatBlockStimuli: a generated stimulus list and a chunk for each
   * block type, in order. Block i draws from `draws[i]`.
   */
  function GeneratePasatBlockStimuli(settings: Settings.Settings, blockTypes: seq<Difficulty>, draws: seq<seq<nat>>): (r: Result<PasatBlockStimuli, GenError>)
    requires |draws| == |blockTypes|
    ensures r.Ok? <==> forall i :: 0 <= i < |blockTypes| ==> Generated(blockTypes[i], settings.trialsPerBlock, draws[i]).Ok?
    ensures r.Ok? ==>
              && |r.value.blockStimuli| == |blockTypes|
              && |r.value.formattedStimuli| == |blockTypes|
              && forall i :: 0 <= i < |blockTypes| ==>
                   && Generated(blockTypes[i], settings.trialsPerBlock, draws[i]) == Ok(r.value.blockStimuli[i])
                   && r.value.formattedStimuli[i] ==
                        ExperimentChunk(settings, r.value.blockStimuli[i], BlockOptions(false, BlockTypeData(blockTypes[i])))
    decreases |blockTypes|
  {
    if blockTypes == [] then Ok(PasatBlockStimuli([], []))
    else
      match Generated(blockTypes[0], settings.trialsPerBlock, draws[0])
      case Err(e) => Err(e)
      case Ok(stimuli) =>
        match GeneratePasatBlockStimuli(settings, blockTypes[1..], draws[1..])
        case Err(e) =>
          assert exists i :: 1 <= i < |blockTypes| && !Generated(blockTypes[i], settings.trialsPerBlock, draws[i]).Ok? by {
            var j :| 0 <= j < |blockTypes| - 1 && !Generated(blockTypes[1..][j], settings.trialsPerBlock, draws[1..][j]).Ok?;
            assert blockTypes[1..][j] == blockTypes[j + 1] && draws[1..][j] == draws[j + 1];
          }
          Err(e)
        case Ok(rest) =>
          var chunk := ExperimentChunk(settings, stimuli, BlockOptions(false, BlockTypeData(blockTypes[0])));
          var out := PasatBlockStimuli([stimuli] + rest.blockStimuli, [chunk] + rest.formattedStimuli);
          assert forall i :: 1 <= i < |blockTypes| ==> blockTypes[i] == blockTypes[1..][i - 1] && draws[i] == draws[1..][i - 1];
          Ok(out)
  }

  /**
   * Each assembled chunk runs notice, fixation, trial block and survey; its
   * block shows the block's generated values, which have the length and the
   * neighbour rule of the block's difficulty, and every trial of it is tagged
   * with the difficulty's label.
   */
  lemma AssembledChunksWellFormed(settings: Settings.Settings, blockTypes: seq<Difficulty>, draws: seq<seq<nat>>, i: int)
    requires |draws| == |blockTypes|
    requires GeneratePasatBlockStimuli(settings, blockTypes, draws).Ok?
    requires 0 <= i < |blockTypes|
    ensures var out := GeneratePasatBlockStimuli(settings, blockTypes, draws).value;
            var values := out.blockStimuli[i];
            var chunk := out.formattedStimuli[i];
            && |chunk.timeline| == 4
            && chunk.timeline[0].Text? && chunk.timeline[1].SingleStim?
            && chunk.timeline[2].Pasat? && chunk.timeline[3].MultiChoiceSurvey?
            && chunk.timeline[2].block.blockStimuli == values
            && chunk.timeline[2].block.addedData["block_type"] == Str(Label(blockTypes[i]))
            && |values| == (if settings.trialsPerBlock >= 1 then settings.trialsPerBlock + 1 else 1)
            && InRange(blockTypes[i], values)
            && (blockTypes[i] != Medium ==> FollowsRule(blockTypes[i], values))
            && forall j :: 0 <= j < |values| ==> ParseFormattedTrial(chunk.timeline[2].block.stimuli[j][0]) == Some(values[j])
  {
    GeneratedProperties(blockTypes[i], settings.trialsPerBlock, draws[i]);
  }
}
