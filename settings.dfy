/**
 * The experiment's configuration table. The browser code reads these values
 * from a global settings object; here they are one datatype value that the
 * functions needing them take as a parameter.
 */
module Settings {

  datatype Settings = Settings(
    blocksPerCondition: seq<int>,   // number of blocks of each experiment condition
    timingStimDisplay: int,         // ms a digit is on screen
    timingPostStim: int,            // ms allowed for the response after it
    practiceBlock1Stimuli: seq<int>,   // the values of the first practice block
    trialsPerBlock: int,
    postBlockQuestions: seq<string>,
    likertScale1: seq<string>)

  /** The values the repository ships with. */
  const Default := Settings(
    [5, 6, 7, 8, 9],
    1000,
    4000,
    [9, 1, 3, 5, 2, 6],
    15,
    ["Rate your current level of <strong>mental effort</strong>.",
     "Rate your current level of <strong>discomfort or distress</strong>."],
    ["1<br>None", "2", "3", "4", "5", "6", "7<br>A Lot"])
}
