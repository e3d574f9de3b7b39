# jsSART / jsPASAT core in Dafny

This project models the logic at the heart of jsSART and jsPASAT. These are two
browser experiments: a sustained-attention task (SART) and a paced auditory
serial addition task (PASAT). It also models the offline script that compiles
their trial logs. The model has three parts.

- **Paced addition task** (`public/js/utils.js`).
  - `Stimuli`: the rejection sampler that generates the digits of a block, one
    acceptance rule per difficulty.
  - `PasatBlocks`: the timeline nodes of a block (text screen, fixation cross,
    trial block, post-block survey), the random condition, the random order of
    block difficulties, and the assembly of one chunk per block.
  - `Scoring`: scoring a trial. The expected answer is the sum of the current
    and the previous value; the key codes pressed become a decimal response.
- **Practice gate** (`public/js/practice.js`, module `Practice`). The second
  practice block repeats until the participant passes or the attempts run out.
  - The gate is a class whose method is called once per finished attempt.
  - Running out of attempts sets the skip flag. That flag suppresses the
    post-practice notice and sends the participant to the follow-up page.
- **Compiling the logs** (`scripts/compile_data.py`).
  - `Segmentation`: the one-pass scanner that cuts a trial log into task blocks,
    and the practice block timings built from those blocks.
  - `SartErrors`: reaction-time formatting, anticipation errors, and go and
    no-go errors.
  - `SurveyResponses`: reading survey answers.

Nothing here is random or does I/O:
- A `_.random` call consumes a raw draw `u: nat`: `lo + u % (hi - lo + 1)`.
- `_.shuffle` consumes a list of draws.
- Running out of draws is the error `OutOfDraws`. It stands in for the
  rejection loop running on.
- The configuration (`public/js/settings.js`) is a `Settings` value passed to
  the functions that read it. The browser code reads it as `jsPASAT.*`.
- Decoded JSON (survey answers, reaction-time lists) is given as Dafny maps
  and sequences.

Three facts about the code shape the model:
- A failed practice attempt replays the block built once at `practice.js:67`;
  it is not regenerated.
- The attempt counter is incremented on every call, before either test
  (`practice.js:73`). `LoopFunction` does the same.
- The medium loop does not enforce the adjacent-sum rule its comment states
  (see Findings). The model generates medium blocks as the code does; the
  corrected rule is a separate definition.

## Model

| member | source | states |
|---|---|---|
| Common.DecimalValueOfNatToString | public/js/utils.js:100 | reading the decimal text of n back as a number gives n, so `parseInt` of a typed number returns that number |
| Stimuli.RandomInt | public/js/utils.js:279 | `_.random(lower, upper)` returns a value between the two bounds, whichever order they come in |
| Stimuli.RandomIntReaches | public/js/utils.js:279 | every value in the range is the outcome of some draw |
| Stimuli.GenerateStimuli | public/js/utils.js:268-321 | the sampling loop (one seed draw, then draw until `num_trials` values are kept) returns exactly the block `Generated` defines for the same draws, or `OutOfDraws`. Medium blocks go through the loop as written (lines 289-301) |
| Stimuli.SampleProperties | public/js/utils.js:280-317 | for the rejection loop shared by the easy loop (lines 280-287), the hard loop (307-317) and the corrected medium order, from any state that is in range and follows the rule, the loop ends with numTrials + 1 values; the values so far are kept as a prefix, and range and rule still hold |
| Stimuli.GeneratedProperties | public/js/utils.js:268-321 | a generated block is the seed plus `num_trials` values, starting with the seed draw, each within 1..digit_max (7, 9, 19). Easy neighbours sum to at most 9; in hard blocks, position j >= 1 holds a two-digit value exactly when j is even. No neighbour rule is claimed for medium blocks |
| Stimuli.CorrectedProperties | public/js/utils.js:272-318 | with the medium loop corrected (draw, then test the new value), a block has the same length, seed and range, and medium neighbours sum to at least 9 as well |
| Stimuli.GenerateMediumAsWritten | public/js/utils.js:289-301 | the medium loop as written (sum taken before the new draw) returns exactly `GeneratedMediumAsWritten` |
| Stimuli.GeneratedMediumAsWrittenProperties | public/js/utils.js:289-301 | as written, a medium block still has num_trials + 1 values, all in 1..9 |
| Stimuli.MediumAsWrittenRejectsFirstDraw | public/js/utils.js:293-296 | as written, the first draw after the seed is never kept, because its sum is NaN |
| Stimuli.MediumAsWrittenBreaksSumRule | public/js/utils.js:290-299 | as written, the draws 0, 7, 0 give the medium block [1, 1], whose neighbours sum to 2 < 9; the corrected loop keeps 8 from the same draws and gives [1, 8] |
| PasatBlocks.CreateTextBlock | public/js/utils.js:58-64 | a text node whose text is the given HTML followed by the continue prompt, dismissed by key 13 |
| PasatBlocks.ParseFormatTrial | public/js/utils.js:199 | the markup `<h1>v</h1>` plus the beep gives back the value v |
| PasatBlocks.FormatBlockStimuli | public/js/utils.js:195-204 | one singleton list of markup per value, in order; each can be read back as its value |
| PasatBlocks.Range | public/js/utils.js:139 | `_.range(start, end)` is start, start + 1, ..., end - 1 |
| PasatBlocks.DigitKeyCodesExact | public/js/utils.js:139 | the accepted key codes are exactly the 20 codes 48..57 and 96..105, each listed once |
| PasatBlocks.CreatePasatBlock | public/js/utils.js:134-166 | the block shows each value readably and accepts exactly the digit keys at both choice points. It has the configured stimulus and response times and does not end on a response. It carries the values, the added data and the feedback flag; the 1000 ms post-trial pause exists exactly when feedback is on |
| PasatBlocks.PostBlockSurvey | public/js/utils.js:174-184 | a horizontal multiple-choice survey of the post-block questions, all of them required, each offered the Likert labels |
| PasatBlocks.FixationTrial | public/js/utils.js:19-27 | the fixation cross with the beep, as HTML, shown for the stimulus display time and followed by the post-stimulus pause |
| PasatBlocks.ExperimentChunk | public/js/utils.js:170-191 | a linear chunk whose timeline is exactly notice, fixation, trial block, survey |
| PasatBlocks.GenerateCondition | public/js/utils.js:208-210 | the condition is in 1..number of conditions |
| PasatBlocks.GenerateConditionReaches | public/js/utils.js:208-210 | every condition can be drawn |
| PasatBlocks.Repeat | public/js/utils.js:225-226 | m copies of a label: length m, holding that label m times and no other |
| PasatBlocks.Shuffle | public/js/utils.js:230 | for any draws, `_.shuffle` returns a permutation of its input (same length and multiset) |
| PasatBlocks.MiddleCounts | public/js/utils.js:222-227 | the unshuffled middle holds n - 4 medium blocks, one easy and one hard |
| PasatBlocks.DefaultBlockOrders | public/js/utils.js:208-238 | with the shipped table, the drawn condition is 1..5 and its medium-outer block order always exists and has 4 + condition blocks |
| PasatBlocks.GenerateRandomBlockTypes | public/js/utils.js:215-238 | succeeds exactly when the condition has an entry of at least 4 blocks. The order then has that many types, the outer type first and last, and a middle that is a permutation of (n - 4) medium + easy + hard. Otherwise `Array(n)` fails |
| PasatBlocks.GeneratePasatBlockStimuli | public/js/utils.js:243-263 | succeeds exactly when every block's generation does; then block i gets the values generated for its type (medium as written) and the chunk built from them, tagged with the type, in the same order |
| PasatBlocks.AssembledChunksWellFormed | public/js/utils.js:243-263 | every assembled chunk runs notice, fixation, trial block, survey. Its trial block shows the block's values: the right length, every value in its difficulty's range, and the neighbour rule for easy and hard blocks. Every trial is tagged with the difficulty's label |
| Scoring.KeyDigit | public/js/utils.js:92-96 | a digit-row code 48..57 becomes the digit k - 48 and a keypad code 96..105 the digit k - 96, so both keyboards give the same digit character |
| Scoring.DigitPresses | public/js/utils.js:86-99 | the typed characters are all digits, at most one per key code |
| Scoring.Extend | public/js/utils.js:106-110 | `$.extend`: the added data's defined values win; every other key keeps the score's value |
| Scoring.AddTrialResults | public/js/utils.js:67-113 | the loop's result is the trial's score (expected, response, correct) with the added data merged on top |
| Scoring.FirstTrialUnscored | public/js/utils.js:76-77 | at trial index 0, expected, response and correct are all undefined |
| Scoring.ExpectedIsSumOfNeighbours | public/js/utils.js:78-83 | later trials expect the current value plus the previous one |
| Scoring.CorrectMeansSameNumber | public/js/utils.js:103 | correct exactly when the response is the expected number; a NaN response is never correct |
| Scoring.NoDigitMeansNaN | public/js/utils.js:86-100 | the response is NaN exactly when every code was "no key" (-1) |
| Scoring.NoKeyIgnored | public/js/utils.js:90 | inserting a -1 code anywhere does not change the typed digits |
| Scoring.DigitPressesOfTyped | public/js/utils.js:88-99 | the codes that type a digit string, on the digit row or on the keypad, give back that string |
| Scoring.TypedNumberIsResponse | public/js/utils.js:86-100 | typing the decimal digits of n, on either keyboard, gives the response n |
| Scoring.PracticeBlockRowExample | public/js/utils.js:76-103 | practice block 1 [9, 1, 3, 5, 2, 6] at trial 1 expects 10, and codes 49, 48 score as correct |
| Scoring.PracticeBlockKeypadExample | public/js/utils.js:92-103 | the keypad codes 97, 96 score as correct on the same trial |
| Scoring.PracticeBlockNoKeyExample | public/js/utils.js:100-103 | no key pressed scores as incorrect |
| Practice.CountCorrect | public/js/practice.js:75-80 | the number of correct trials never exceeds the number of trials |
| Practice.PracticeGate.constructor | public/js/practice.js:63-64 | the gate starts with no attempts and the skip flag off |
| Practice.PracticeGate.LoopFunction | public/js/practice.js:72-94 | each call adds one attempt and records its count of truthy `correct` values. It repeats exactly when the count is below the minimum and attempts remain; the skip flag is set exactly when that failure used the last attempt. After a run of calls, the flag means every attempt failed and the cap was reached |
| Practice.GateFrom | public/js/practice.js:82-93 | from any attempt below the cap, the loop either passes at the first attempt that meets the minimum or exhausts after all attempts up to the cap fail |
| Practice.GateOutcomes | public/js/practice.js:69-95 | the loop passes at the first attempt reaching the minimum (all earlier ones failed), or exhausts after exactly max(1, MAX_ATTEMPTS) failures; it never runs more attempts than that |
| Practice.GateExamples | public/js/practice.js:82-93 | with minimum 13 and 3 attempts: three scores of 10 exhaust the attempts, a first 14 passes at once, 10 then 13 passes at the second attempt |
| Practice.RunPracticeLoop | public/js/practice.js:69-95 | the `while` chunk replays the same block and asks the gate after each attempt. Its outcome is `Gate` over the attempts' counts; the skip flag is set exactly when the attempts were exhausted, and once the loop has ended, the attempt counter equals the outcome's attempt number |
| Practice.NoticeShownIffPassed | public/js/practice.js:104-108 | after the loop, the post-practice notice is shown exactly when the practice was passed |
| Practice.SplitUrl | public/js/practice.js:138 | a URL built as path + "?" + query splits back into that path and query |
| Practice.RedirectTarget | public/js/practice.js:129-139 | a skipped experiment redirects to `follow_up` with `pid` and `skip_experiment=true`; otherwise to `experiment` with only `pid` |
| Segmentation.SlicesAppend | scripts/compile_data.py:66-67 | emitting one more block appends its slice |
| Segmentation.StepInv | scripts/compile_data.py:51-70 | one turn of the row loop keeps the scanner invariant: the open block's positions are ordered and start at a task row, and any closed spans end before it. The survey counter is at most 2, and 0 while no block is open. Closed spans are ordered, do not overlap, and each starts at a task row with a row after it |
| Segmentation.ScanInv | scripts/compile_data.py:51-70 | the scanner invariant holds after any number of rows |
| Segmentation.ExtendContentInv | scripts/compile_data.py:55-63 | with labels as the runner writes them (no row after the first labelled 0), a row that extends or opens a block keeps: the open block covers only block rows up to the current row, and the counter equals its surveys |
| Segmentation.CloseContentInv | scripts/compile_data.py:64-70 | with labels as the runner writes them (no row after the first labelled 0), a row that closes the block emits a span whose rows all extend it, with at most 2 surveys, and which the next row closed |
| Segmentation.StepContentInv | scripts/compile_data.py:51-70 | with labels as the runner writes them (no row after the first labelled 0), each of the four branches of the row loop keeps the content invariant |
| Segmentation.ScanContentInv | scripts/compile_data.py:51-70 | with labels as the runner writes them (no row after the first labelled 0), the content invariant holds after any number of rows |
| Segmentation.BlockSpans | scripts/compile_data.py:48-72 | the blocks come out in input order, non-overlapping, each followed by a row (a block open at the end is dropped) |
| Segmentation.BlocksStartWithTask | scripts/compile_data.py:52-59 | every block starts with a task row: a survey never opens one |
| Segmentation.SpansContents | scripts/compile_data.py:55-70 | with labels as the runner writes them, every row of a block extends it, a block holds at most 2 surveys, and the row after it closed it |
| Segmentation.TaskOnlyBlocks | scripts/compile_data.py:42-59 | with labels as the runner writes them (no row after the first labelled 0), without surveys every row of every block is a task row |
| Segmentation.LaterZeroSwallowsRows | scripts/compile_data.py:55-70 | a later row labelled 0 that becomes a block's last row keeps the block from closing: rows labelled 5, 0, 7 (text), 8, 9 (text) give the single span of rows 0..3, which holds the text row |
| Segmentation.ScanExamples | scripts/compile_data.py:51-72 | a first task row labelled 0 never opens a block; a block still open at the end is not emitted |
| Segmentation.SurveyExamples | scripts/compile_data.py:52-70 | a third survey closes a block after the second; without surveys a survey closes a block; a leading survey is skipped |
| Segmentation.ExtractSartBlocks | scripts/compile_data.py:35-72 | the row loop emits exactly the slices of the spans `BlockSpans` defines |
| Segmentation.ColumnNameInjective | scripts/compile_data.py:101-109 | distinct practice columns have distinct names |
| Segmentation.RecordPracticeDurations | scripts/compile_data.py:95-109 | block 0's duration goes to `time_practice_blk1_ms` and block i's (i >= 1) to `time_practice_blk2_{i}_ms`. The count is the number of blocks minus one, 0 when there are none, and no other column is written |
| Segmentation.CompilePracticeBlocks | scripts/compile_data.py:93-109 | the same columns, filled from the blocks extract_sart_blocks finds in the log without surveys; each extracted block is non-empty |
| SartErrors.FlattenMembers | scripts/compile_data.py:150 | a time is in the flattened list exactly when it is in some trial's list |
| SartErrors.NonNegative | scripts/compile_data.py:152 | the kept times are exactly the non-negative ones |
| SartErrors.FormatRtsProperties | scripts/compile_data.py:146-154 | the kept times are the non-negative times of the trials, in trial order: formatting two runs of trials concatenates their results |
| SartErrors.FormatRtsOfResponses | scripts/compile_data.py:149-154 | when every trial responded, nothing is dropped |
| SartErrors.AnticipationErrorMeans | scripts/compile_data.py:157-165 | a trial is an anticipation error exactly when its first non-negative time lies in [0, 100) |
| SartErrors.AnticipationExamples | scripts/tests/test_compile_data.py:167-172 | [667], [100] and [-1] are not anticipation errors; [99] and [15] are |
| SartErrors.WithAnticipationProperties | scripts/compile_data.py:172-174 | the flag is the anticipation test. A flagged trial becomes incorrect and an unflagged one keeps `correct`; stimulus and times never change, and marking twice is marking once |
| SartErrors.AddAnticipationErrors | scripts/compile_data.py:168-175 | every row of the table is replaced, in place, by its marked version |
| SartErrors.CalculateGoErrors | scripts/compile_data.py:178-191 | one flag per row; a flag is raised exactly when the stimulus is a digit string, the trial is incorrect and not an anticipation error, and the digit is not 3 (go) or is 3 (no_go) |
| SartErrors.GoErrorKinds | scripts/compile_data.py:184-189 | no row is both a go and a no-go error; any other error type flags nothing |
| SartErrors.ErrorsPartitionIncorrect | scripts/compile_data.py:168-191 | after marking, an incorrect digit trial is exactly one of: anticipation error, go error, no-go error |
| SartErrors.ErrorCountsAddUp | scripts/compile_data.py:168-191 | over marked digit trials, incorrect = anticipation errors + go errors + no-go errors |
| SurveyResponses.QuestionKey | scripts/compile_data.py:123 | the key of question q is "Q" followed by its number |
| SurveyResponses.QuestionKeyInjective | scripts/compile_data.py:123 | different questions have different keys |
| SurveyResponses.GetResponseFromJson | scripts/compile_data.py:118-125 | the answer exists exactly when the object has the question's key, and it is that key's value |
| SurveyResponses.FirstQuestionExample | scripts/compile_data.py:118-125 | the answer keyed "Q0" is question 0's; question 1 has none |
| SurveyResponses.Strip | scripts/compile_data.py:137 | `strip` removes only whitespace, before and after, and what it keeps neither starts nor ends with whitespace |
| SurveyResponses.StripIdempotent | scripts/compile_data.py:137 | stripping twice is stripping once |
| SurveyResponses.LikertDigit | scripts/compile_data.py:139-141 | an answer starting with a digit is cut to that digit; any other answer is unchanged |
| SurveyResponses.RowsOfNode | scripts/compile_data.py:135 | the selected rows are exactly those with the node id |
| SurveyResponses.GetResponseFromNodeId | scripts/compile_data.py:128-143 | several rows with the id fail (the array's truth value is ambiguous); no row gives None. With exactly one row, a missing "Q0" answer fails (`NoFirstQuestion`), and otherwise the answer is that row's stripped "Q0" answer, cut to its leading digit for Likert questions |
| SurveyResponses.MissingAnswerExample | scripts/compile_data.py:135-137 | the one row of a node without a "Q0" answer fails |
| SurveyResponses.OneRowLookup | scripts/compile_data.py:135-143 | a node with exactly one row reads that row's stripped "Q0" answer (its leading digit for Likert questions), and fails with `NoFirstQuestion` when the row has no "Q0" |
| SurveyResponses.LikertExample | scripts/compile_data.py:137-141 | " 4 - Agree " on a Likert question reads as "4" |
| SurveyResponses.PlainAnswerExample | scripts/compile_data.py:135-143 | " 21 " on a plain question reads as "21" |
| SurveyResponses.AbsentNodeExample | scripts/compile_data.py:135-136 | a node id with no rows reads as None |

## Left out

- I/O and presentation are not modelled.
  - Browser side: DOM, jQuery, the Howl audio object, `postDataToDb`, `displayTrialFeedback` and its timer, participant ids from the URL or `window.prompt`, `jsPsych.init`.
  - Server side: `app.js`, the other views (`experiment.js`, `follow_up.js`, `instructions.js`) and the CSV reading and writing of `compile_data.py`.
- Floating-point statistics of `compile_data.py` (means, rounding, proportions, regression, `np.trapz`) are left out.
- compile_practice_data: the `id`, `practice_condition`, `passed_practice` and `time_practice_ms` columns are left out. They read single values from the data frame and go through no logic of the core.
- CompilePracticeBlocks: the result is keyed by a `PracticeColumn` rather than by its string name. `ColumnName` gives the exact names, and `ColumnNameInjective` shows nothing is lost.
- CompilePracticeBlocks: `int(...)` of a float elapsed time is not modelled; elapsed times are integers.
- Segmentation: pandas' label-based `df.loc[first:last]` is modelled as positional slicing. The two agree when the trial index is unique and increasing, as the runner writes it.
- SpansContents, TaskOnlyBlocks, ExtendContentInv, CloseContentInv, StepContentInv, ScanContentInv: proved only when no row after the first carries the label 0, as in the runner's logs. Without that, `TaskOnlyBlocks` is false of the code even without surveys. A later row labelled 0 that becomes a block's last row keeps `first_trial_idx and last_trial_idx` false, so the block is not closed and takes in the non-block rows that follow (`LaterZeroSwallowsRows`).
- Scoring.AddTrialResults: `eval` of the key-press text is not modelled. It takes the decoded list of codes, restricted to -1 and the 20 digit codes the block accepts, so `String.fromCharCode` always yields a digit.
- Scoring.ParseDigits: `parseInt` has no other inputs to handle.
- Scoring: JavaScript numbers are modelled as unbounded integers. A typed number too long for a double is not rounded.
- Scoring: the feedback callback in `on_finish` is not modelled.
- PasatBlocks.GenerateRandomBlockTypes: a condition whose entry is below 4 raises a `RangeError` in `Array(n)`. The model returns `InvalidArrayLength` for it, and likewise for a missing entry (`undefined - 4` is NaN).
- GenerateRandomBlockTypes: difficulty labels are limited to easy, medium and hard. An unknown `outer_block_type` label is not modelled.
- GenerateRandomBlockTypes: the `'medium'` default of `outer_block_type` (`experiment.js:49`) is not a separate entry point; callers pass `Medium`.
- Stimuli.GenerateStimuli: the model gives no probability and no termination argument for the unbounded rejection loop. Randomness is a finite list of draws, and running out is the `OutOfDraws` error.
- Stimuli.GenerateStimuli: an unknown difficulty (which makes `generateStimuli` return `undefined`) is not modelled.
- PasatBlocks.GeneratePasatBlockStimuli: each block takes its own list of draws instead of sharing one random stream.
- PasatBlocks.Shuffle: lodash's exact swap sequence is not reproduced. The shuffle is a selection shuffle driven by the draws, proved a permutation for every draw list.
- Practice: `getPracticeMinCorrect` is not part of this model. The minimum correct count and the attempt cap are constructor parameters.
- Practice: `generatePracticeTrials` and `createSartBlock` are not part of this model.
- Practice.RunPracticeLoop: the model has no block; each attempt's `correct` flags are an arbitrary input. So whether a failed attempt replays or regenerates its block is not captured.
- Practice: the `$.param` encoding of the participant id is a parameter `encode`; the flag serialises as `true`.
- SartErrors: reaction-time lists are given decoded, and numpy's flattening of ragged arrays is modelled as concatenation.
- SartErrors: NaN reaction times or stimuli are not modelled.
- SartErrors.IsDigitString: `str.isdigit` is modelled on ASCII digits only; Unicode digits are not recognised.
- SurveyResponses.LikertDigit: `unicode.isdigit` is modelled on ASCII digits only. A Python 2 unicode answer starting with a non-ASCII digit is cut there; the model leaves it unchanged.
- SurveyResponses.Strip: `str.strip` is modelled on ASCII whitespace only; Unicode whitespace is not stripped.
- SurveyResponses: JSON decoding is left out. A row carries its decoded answers as a map from keys to strings; non-string answers, and an empty `responses` text (which Python would treat as false), are not modelled.

## Findings

| source | as written | input that shows it | evidently intended | confidence | as-written member | corrected member |
|---|---|---|---|---|---|---|
| public/js/utils.js:293-299 | the medium loop computes `digit_sum` from `trial_value` before drawing the new value. So it tests the previous draw (NaN on the first pass) against the last kept value, then keeps the new draw | draws 0, 7, 0 with `num_trials` 1: seed 1, the draw 8 is rejected (NaN sum), then 1 is kept because 8 + 1 >= 9, giving [1, 1] whose neighbours sum to 2 | adjacent medium values sum to at least 9, as the comment on line 290 says; draw first, then test the new value | not executed | Stimuli.MediumAsWrittenBreaksSumRule | Stimuli.CorrectedProperties |
