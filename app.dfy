/** The application shell of src/App.tsx: the run log, the finish handoff,
    the screen choice and the per-scenario images. */
module App {
  import opened Wrappers
  import opened Types
  import opened Scorer
  import opened KoreanDateTime

  /** One recorded choice. */
  datatype Selection = Selection(nodeId: string, optionId: string, optionText: string, time: string)

  /** The run log; `score` and `endId` are absent until the scenario finishes. */
  datatype RunLog = RunLog(
    scenarioId: Option<string>,
    scenarioTitle: Option<string>,
    selections: seq<Selection>,
    startedAt: Option<string>,
    endedAt: Option<string>,
    score: Option<Score>,
    endId: Option<string>)

  /** The log before any scenario is chosen. */
  const EmptyLog: RunLog := RunLog(None, None, [], None, None, None, None)

  /** The log `start` installs: the scenario's id and title, no selections, started now. */
  function StartedLog(s: ScenarioFile, now: DateTime): (log: RunLog)
    ensures log.scenarioId == Some(s.id) && log.scenarioTitle == Some(s.title)
    ensures log.selections == [] && log.endedAt == None
    ensures log.startedAt == Some(FormatKoreanDateTime(Some(now)))
    ensures log.score == None && log.endId == None
  {
    RunLog(Some(s.id), Some(s.title), [], Some(FormatKoreanDateTime(Some(now))), None, None, None)
  }

  /** `recordSelection`: exactly one entry appended; everything else kept. */
  function WithSelection(log: RunLog, nodeId: string, optionId: string, optionText: string, now: DateTime): (r: RunLog)
    ensures |r.selections| == |log.selections| + 1
    ensures r.selections[..|log.selections|] == log.selections
    ensures r.selections[|log.selections|] == Selection(nodeId, optionId, optionText, FormatKoreanDateTime(Some(now)))
    ensures r.(selections := log.selections) == log
  {
    log.(selections := log.selections + [Selection(nodeId, optionId, optionText, FormatKoreanDateTime(Some(now)))])
  }

  /** `finishScenario`'s log update: end time, score and ending added; selections kept. */
  function FinishedLog(log: RunLog, score: Score, endId: string, now: DateTime): (r: RunLog)
    ensures r.endedAt == Some(FormatKoreanDateTime(Some(now)))
    ensures r.score == Some(score) && r.endId == Some(endId)
    ensures r.selections == log.selections
    ensures r.scenarioId == log.scenarioId && r.scenarioTitle == log.scenarioTitle && r.startedAt == log.startedAt
  {
    log.(endedAt := Some(FormatKoreanDateTime(Some(now))), score := Some(score), endId := Some(endId))
  }

  /** What can happen to the log after `start`. */
  datatype LogEvent =
    | Select(nodeId: string, optionId: string, optionText: string, at: DateTime)
    | Finish(score: Score, endId: string, at: DateTime)

  /** The log after one event. */
  function AfterEvent(log: RunLog, e: LogEvent): (r: RunLog)
    ensures r.selections == log.selections + Recorded(e)
    ensures r.scenarioId == log.scenarioId && r.scenarioTitle == log.scenarioTitle && r.startedAt == log.startedAt
  {
    match e
    case Select(n, o, t, at) => WithSelection(log, n, o, t, at)
    case Finish(sc, id, at) => FinishedLog(log, sc, id, at)
  }

  /** The selection one event records, if any. */
  function Recorded(e: LogEvent): (r: seq<Selection>)
    ensures |r| == if e.Select? then 1 else 0
  {
    match e
    case Select(n, o, t, at) => [Selection(n, o, t, FormatKoreanDateTime(Some(at)))]
    case Finish(_, _, _) => []
  }

  function Replay(log: RunLog, events: seq<LogEvent>): RunLog
    decreases |events|
  {
    if events == [] then log else Replay(AfterEvent(log, events[0]), events[1..])
  }

  /** The selections a sequence of events records, in order. */
  function SelectionsOf(events: seq<LogEvent>): seq<Selection>
    decreases |events|
  {
    if events == [] then [] else Recorded(events[0]) + SelectionsOf(events[1..])
  }

  /** The log is append-only: whatever happens after `start`, the selections are
      the earlier ones followed by one entry per selection event, in order, and
      the scenario's identity and start time never change. */
  lemma {:induction false} ReplayAppendOnly(log: RunLog, events: seq<LogEvent>)
    ensures Replay(log, events).selections == log.selections + SelectionsOf(events)
    ensures Replay(log, events).scenarioId == log.scenarioId
    ensures Replay(log, events).scenarioTitle == log.scenarioTitle
    ensures Replay(log, events).startedAt == log.startedAt
    decreases |events|
  {
    if events != [] {
      var next := AfterEvent(log, events[0]);
      ReplayAppendOnly(next, events[1..]);
      assert Replay(log, events) == Replay(next, events[1..]);
      assert SelectionsOf(events) == Recorded(events[0]) + SelectionsOf(events[1..]);
      assert next.selections + SelectionsOf(events[1..]) == log.selections + SelectionsOf(events);
    }
  }

  /** What the score and ending of the result are. */
  datatype Done = Done(score: Score, endId: string)

  /** Which of the three screens the shell renders. */
  datatype Screen = Picker | Simulating | Results

  const ScienceBackground: string := "/assets/backgrounds/science/sc_background.jpg"
  const ScienceCharacter: string := "/assets/characters/science/sc_teacher.png"
  const SocialBackground: string := "/assets/backgrounds/social/social_background.png"
  const MathCharacter: string := "/assets/characters/math/math_teacher.png"
  const SocialCharacter: string := "/assets/characters/social/social_teacher.png"

  /** `String.prototype.includes`: a scan from the left for a position where `sub` starts. */
  function Includes(s: string, sub: string): (b: bool)
    ensures b <==> exists i | 0 <= i <= |s| :: sub <= s[i..]
    decreases |s|
  {
    if sub <= s then
      assert s[0..] == s;
      true
    else if s == [] then false
    else
      var b := Includes(s[1..], sub);
      assert forall i | 1 <= i <= |s| :: s[i..] == s[1..][i - 1..];
      b
  }

  /** The keyword tests on typical and edge-case ids. */
  lemma IncludesExamples()
    ensures Includes("middle_math_01", "math")
    ensures !Includes("mat", "math") && !Includes("", "math")
    ensures Includes("science", "science") && Includes("", "")
    ensures forall s: string :: Includes(s, "")
  {
    assert "math" <= "middle_math_01"[7..];
  }

  /** The background and character images for the selected scenario. */
  method SelectImages(scenario: Option<ScenarioFile>) returns (background: string, character: string)
    ensures scenario.None? ==> background == "" && character == ""
    ensures scenario.Some? && Includes(scenario.value.id, "science") ==>
      background == ScienceBackground && character == ScienceCharacter
    // "math" is tried only when "science" is absent, and shares the social background
    ensures scenario.Some? && !Includes(scenario.value.id, "science") && Includes(scenario.value.id, "math") ==>
      background == SocialBackground && character == MathCharacter
    ensures scenario.Some? && !Includes(scenario.value.id, "science") && !Includes(scenario.value.id, "math") && Includes(scenario.value.id, "social") ==>
      background == SocialBackground && character == SocialCharacter
    // no images at all exactly when no scenario or no keyword matches
    ensures background == "" <==>
      scenario.None? || !(Includes(scenario.value.id, "science") || Includes(scenario.value.id, "math") || Includes(scenario.value.id, "social"))
    ensures character == "" <==> background == ""
  {
    background := "";
    character := "";
    if scenario.Some? {
      var id := scenario.value.id;
      if Includes(id, "science") {
        background := ScienceBackground;
        character := ScienceCharacter;
      } else if Includes(id, "math") {
        background := SocialBackground;
        character := MathCharacter;
      } else if Includes(id, "social") {
        background := SocialBackground;
        character := SocialCharacter;
      }
    }
  }

  /** The shell's state: the chosen scenario, the finish record and the log. */
  class AppState {
    var scenario: Option<ScenarioFile>
    var done: Option<Done>
    var log: RunLog

    constructor ()
      ensures scenario == None && done == None && log == EmptyLog
    {
      scenario := None;
      done := None;
      log := EmptyLog;
    }

    /** The picker until a scenario is chosen, the simulator until it is done, then the result. */
    function CurrentScreen(): (screen: Screen)
      reads this
      ensures screen == Picker <==> scenario.None?
      ensures screen == Simulating <==> scenario.Some? && done.None?
      ensures screen == Results <==> scenario.Some? && done.Some?
    {
      if scenario.None? then Picker else if done.None? then Simulating else Results
    }

    /** `start`: choose a scenario and begin a fresh log. */
    method Start(s: ScenarioFile, now: DateTime)
      modifies this
      ensures scenario == Some(s) && done == None
      ensures log == StartedLog(s, now)
      ensures CurrentScreen() == Simulating
    {
      scenario := Some(s);
      done := None;
      log := StartedLog(s, now);
    }

    /** `recordSelection`. */
    method RecordSelection(nodeId: string, optionId: string, optionText: string, now: DateTime)
      modifies this
      ensures log == WithSelection(old(log), nodeId, optionId, optionText, now)
      ensures scenario == old(scenario) && done == old(done)
    {
      log := WithSelection(log, nodeId, optionId, optionText, now);
    }

    /** `finishScenario`: records the result and returns the log handed to storage. */
    method FinishScenario(score: Score, endId: string, now: DateTime) returns (saved: RunLog)
      modifies this
      ensures done == Some(Done(score, endId))
      ensures log == FinishedLog(old(log), score, endId, now) && saved == log
      ensures scenario == old(scenario)
      ensures scenario.Some? ==> CurrentScreen() == Results
    {
      done := Some(Done(score, endId));
      log := FinishedLog(log, score, endId, now);
      saved := log;
    }

    /** The result view's restart: back to the picker; the log is kept. */
    method Restart()
      modifies this
      ensures scenario == None && done == None && log == old(log)
      ensures CurrentScreen() == Picker
    {
      scenario := None;
      done := None;
    }
  }
}
