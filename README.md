# teacher-sim scenario engine, modelled in Dafny

This project models the core of a branching-dialogue simulator for teacher
training. A scenario is a list of dialogue nodes. Each node offers options, and
each option names the next node (or an ending, by the `end` prefix) and may carry
competency deltas. The model covers:

- the scenario data model (`types.dfy`, module `Types`);
- the score engine: the all-zero score, effect application and the three-level
  classification (`scorer.dfy`, module `Scorer`);
- the node index, the lookup that fails on a missing id, and the ending-prefix
  test (`router.dfy`, module `Router`);
- the simulator component's state machine: current node, score and ending id,
  and the transition on an option click (`simulator.dfy`, module `Simulator`);
- the application shell: the run log, the finish handoff, the screen choice and
  the per-scenario images (`app.dfy`, module `App`), with the 12-hour Korean
  timestamp in its own module (`datetime.dfy`, module `KoreanDateTime`);
- the result screen's derived data: radar rows, the strengths/improvements
  split, the detail lines and the feedback fallback (`result_view.dfy`, module
  `ResultView`).

`wrappers.dfy` holds the `Option` and `Result` types used for optional fields
and for the lookup failure.

State the source updates in place is modelled as classes: `Simulator.Simulator`
(the component's three state hooks) and `App.AppState` (the shell's scenario,
finish record and log). Each class method is specified by a pure function of the
old state (`AfterOption`, `AfterClick`, `StartedLog`, `WithSelection`,
`FinishedLog`), and the properties are proved about those functions. The score
update (`Scorer.ApplyEffects`) and the index build (`Router.IndexNodes`) are
loops. They are proved against `Scorer.Applied` and `Router.Indexed`.

Behaviour of the modelled code worth noting:

- The simulator starts from an empty score, not from `InitScore`. A competency
  appears only once an effect mentions it. `ResultView.RadarEmptyIsInitial`
  shows that the chart cannot tell the difference.
- A non-terminal `goto` that names no node leaves the current node unchanged
  and still applies the option's effects. It is not an error.
  (`Router.GetNode` does fail on a missing id, but the simulator does not call it.)
- There is no history/back, no response/acknowledge step and no typing reveal.
- The simulator searches nodes front to back, so with duplicate ids it finds
  the first one. `Router.Indexed` keeps the last one.
  `Simulator.FirstWithIdAgreesWithIndex` proves that the two agree when ids are unique.
- A competency scoring from 5 to 79 is labelled "강점" by `levelize` but listed
  among the improvements, because that list uses the threshold 80
  (`ResultView.StrongLevelAmongImprovements`, stated for every such score).

## Model

| member | source | states |
|---|---|---|
| Types.AllCompetencies | src/types.ts:1 | there are exactly four competencies, listed without repetition |
| Types.AllCompetenciesComplete | src/types.ts:1 | the competency type is closed: every value is one of the four listed |
| Types.FromName | src/types.ts:1 | a key read back as a competency is one whose JSON name is that key |
| Types.NameRoundTrip | src/types.ts:1 | every competency's name reads back as itself, so the four names are distinct |
| Scorer.InitScore | src/engine/scorer.ts:5-7 | the initial score holds every competency, each at 0 |
| Scorer.ApplyEffects | src/engine/scorer.ts:9-23 | with no effects the input score is returned; otherwise the result is `Applied(score, eff)`, computed on a copy key by key in any order |
| Scorer.AppliedStep | src/engine/scorer.ts:15-18 | adding one more key's delta moves one step towards `Applied`, whichever key is taken next |
| Scorer.AppliedAt | src/engine/scorer.ts:15-18 | every key of the effects is present afterwards, with the old value (0 when absent) plus its delta |
| Scorer.AppliedElsewhere | src/engine/scorer.ts:13 | a key the effects do not mention keeps its value, and stays absent if it was absent |
| Scorer.AppliedEmpty | src/engine/scorer.ts:15 | an empty effects map leaves the score equal to the input |
| Scorer.Levelize | src/engine/scorer.ts:25-29 | "강점" iff v >= 5, "보통" iff 0 <= v < 5, "개선 필요" iff v < 0 |
| Scorer.LevelizeMonotone | src/engine/scorer.ts:25-29 | the levels are ordered: a larger value never gets a lower level |
| Router.IsEnding | src/engine/router.ts:15-17 | true exactly when the id's first three characters are "end" |
| Router.EndingExamples | src/engine/router.ts:15-17 | "end_good", "end:x", "endless" and "end" are terminal; "n2", "en", "" and "the_end" are not |
| Router.GetNode | src/engine/router.ts:3-7 | succeeds iff the id is a key, with the stored node; otherwise fails with the not-found message naming the id |
| Router.IndexNodes | src/engine/router.ts:9-13 | the loop builds exactly `Indexed(scn.nodes)`: each node stored under its id, in sequence order |
| Router.IndexedDomain | src/engine/router.ts:11 | the index's keys are exactly the ids of the nodes |
| Router.IndexedEntries | src/engine/router.ts:11 | every entry is a node of the scenario whose id is its key |
| Router.IndexedLastWins | src/engine/router.ts:11 | a node with no later node of the same id is the one stored under its id |
| Router.GetIndexedNode | src/engine/router.ts:3-13 | looking up any scenario node's id in the index succeeds with a node of that id |
| Router.GetMissingNode | src/engine/router.ts:3-13 | looking up an id no node carries fails with the not-found error |
| Simulator.FirstWithId | src/components/Simulator.tsx:20 | the node found is a scenario node with the target id; nothing is found iff no node has that id |
| Simulator.FirstWithIdIsFirst | src/components/Simulator.tsx:20 | the node found is the first one in sequence order with that id |
| Simulator.FirstWithIdAgreesWithIndex | src/components/Simulator.tsx:20 | with unique ids the linear search and the router's index find the same node and fail on the same ids |
| Simulator.Initial | src/components/Simulator.tsx:11-13 | the component starts at `nodes[0]` with an empty score and no ending |
| Simulator.AfterOption | src/components/Simulator.tsx:15-32 | a terminal option sets the ending, hands off the pre-choice score and applies no effects; another option moves to the first node with the target id, or stays when none matches, and applies its effects either way |
| Simulator.AfterClick | src/components/Simulator.tsx:34-54 | a button click applies `options[0]` or `options[1]` while running, and changes nothing once an ending is set |
| Simulator.InitialReachable | src/components/Simulator.tsx:11-13 | the initial state's node belongs to the scenario and no ending is set |
| Simulator.AfterClickReachable | src/components/Simulator.tsx:15-32 | a click keeps the current node inside the scenario, and any ending id set carries the terminal prefix |
| Simulator.Run | src/components/Simulator.tsx:15-54 | a sequence of clicks keeps the state reachable |
| Simulator.EndedIsFinal | src/components/Simulator.tsx:34-36 | once an ending is set, no sequence of clicks changes the state or hands anything off |
| Simulator.HandoffAtMostOnce | src/components/Simulator.tsx:15-36 | in any run `onFinish` fires at most once; it fires iff the run ended, with the final score and ending id |
| Simulator.Simulator.constructor | src/components/Simulator.tsx:10-13 | mounting gives the initial state |
| Simulator.Simulator.HandleOptionClick | src/components/Simulator.tsx:15-32 | the new state and the handoff are those of `AfterOption` on the old state |
| Simulator.Simulator.Click | src/components/Simulator.tsx:34-54 | the new state and the handoff are those of `AfterClick` on the old state |
| KoreanDateTime.FormatKoreanDateTime | src/App.tsx:20-43 | the result is "" iff there is no input |
| KoreanDateTime.AmPm | src/App.tsx:35 | "오후" iff the 24-hour value is at least 12, "오전" otherwise |
| KoreanDateTime.Hour12 | src/App.tsx:36-39 | the 12-hour value lies in 1..12 and agrees with the 24-hour value modulo 12 |
| KoreanDateTime.TwelveHourRoundTrip | src/App.tsx:35-39 | the marker and the 12-hour value together give back the 24-hour value |
| KoreanDateTime.NatToString | src/App.tsx:26 | the decimal text of a number has no leading zero: it starts with '0' only for 0, which is the single digit "0" |
| KoreanDateTime.IntToString | src/App.tsx:26 | `String(yyyy)`: a minus sign exactly for a negative year, followed by canonical decimal digits |
| KoreanDateTime.Pad2 | src/App.tsx:27-32 | `padStart(2, "0")`: at least two digits that read back as the value, with no leading zero beyond the padding |
| KoreanDateTime.NatToStringRoundTrip | src/App.tsx:26 | the decimal text of a number reads back as the number |
| KoreanDateTime.IntToStringRoundTrip | src/App.tsx:26 | the text of any year, negative ones included, reads back as the year |
| KoreanDateTime.Pad2RoundTrip | src/App.tsx:27-32 | month, day and minutes below 100 become exactly two digits that read back as the value |
| KoreanDateTime.FormatRoundTrip | src/App.tsx:20-42 | every formatted timestamp parses back to the date and time it was made from, by a parser that takes month, day and minutes as exactly two digits and rejects a leading zero in the year and the hour and an hour outside 1..12, so the year and hour are printed unpadded and the hour is on the 12-hour clock |
| KoreanDateTime.HourOffClockRejected | src/App.tsx:36-39 | the parser refuses an hour text outside 1..12, so a 24-hour rendering cannot round-trip |
| App.StartedLog | src/App.tsx:44-54 | the new log holds the scenario's id and title, no selections, the start time, no end time, and no score or ending |
| App.WithSelection | src/App.tsx:57-70 | exactly one entry `{nodeId, optionId, optionText, time}` is appended at the end; earlier entries and every other field are unchanged |
| App.FinishedLog | src/App.tsx:90-99 | the log gains the end time, score and ending id; selections, scenario id, title and start time are kept |
| App.AfterEvent | src/App.tsx:57-99 | one selection or finish appends exactly the selection it records, if any, and keeps the scenario id, title and start time |
| App.ReplayAppendOnly | src/App.tsx:57-99 | after any sequence of selections and finishes the selections are the earlier ones followed by one entry per selection, in order |
| App.Includes | src/App.tsx:76-83 | `id.includes(keyword)`: the left-to-right scan succeeds exactly when the keyword starts at some position of the id (the empty keyword everywhere) |
| App.IncludesExamples | src/App.tsx:76-83 | "middle_math_01" includes "math"; "mat" and "" do not; every text includes "" |
| App.SelectImages | src/App.tsx:72-87 | "science" takes precedence over "math", which takes precedence over "social"; "math" uses the social background; the images are empty iff there is no scenario or no keyword matches |
| App.AppState.constructor | src/App.tsx:11-19 | no scenario, no finish record, and the empty log |
| App.AppState.CurrentScreen | src/App.tsx:102-133 | the picker iff no scenario; the simulator iff a scenario and no finish record; the result iff both |
| App.AppState.Start | src/App.tsx:44-54 | the scenario is set, the finish record cleared, the log restarted, and the simulator shows |
| App.AppState.RecordSelection | src/App.tsx:57-70 | the log becomes `WithSelection` of the old log; scenario and finish record unchanged |
| App.AppState.FinishScenario | src/App.tsx:90-99 | the finish record is set, the log becomes `FinishedLog` of the old log, and that log is what is stored |
| App.AppState.Restart | src/App.tsx:125-129 | scenario and finish record cleared, log kept, the picker shows |
| ResultView.RadarData | src/components/ResultView.tsx:12-24 | four rows in `RADAR_LABELS` order, each labelled with its key, with full mark 50 and the score (0 when missing) |
| ResultView.RadarMissingIsZero | src/components/ResultView.tsx:22 | a missing competency plots exactly like one scored 0 |
| ResultView.RadarEmptyIsInitial | src/components/ResultView.tsx:20-24 | the empty score plots exactly like the all-zero initial score |
| ResultView.Strengths | src/components/ResultView.tsx:28 | `filter(k => score[k] >= 80)`: no longer than the keys, and every entry is a key scoring at least 80 |
| ResultView.Improvements | src/components/ResultView.tsx:29 | `filter(k => score[k] < 80)`: no longer than the keys, and every entry is a key scoring below 80 |
| ResultView.StrengthsMembers | src/components/ResultView.tsx:28 | a competency is a strength iff it is a key with score >= 80 |
| ResultView.ImprovementsMembers | src/components/ResultView.tsx:29 | a competency is listed for improvement iff it is a key with score < 80 |
| ResultView.StrengthsImprovementsPartition | src/components/ResultView.tsx:28-29 | the two lists together are a permutation of the keys |
| ResultView.PartitionStep | src/components/ResultView.tsx:28-29 | each key goes to exactly one of the two lists |
| ResultView.StrengthsImprovementsDisjoint | src/components/ResultView.tsx:28-29 | no competency is in both lists |
| ResultView.PartitionLength | src/components/ResultView.tsx:28-29 | the two lists together are as long as the keys |
| ResultView.PartitionCoversScore | src/components/ResultView.tsx:28-29 | over `Object.keys(score)` every scored competency is in exactly one list, and only scored ones are listed |
| ResultView.DetailRows | src/components/ResultView.tsx:70-77 | the lines name each key exactly as often as the keys do (one line per key); each shows its key's score and `levelize` of it; every line scoring at least 80 comes before every line scoring below 80; the first carry "✅", the others "⚠️" |
| ResultView.StrongLevelAmongImprovements | src/components/ResultView.tsx:72-75 | every key scoring from 5 to 79 is listed among the improvements and not the strengths, although `levelize` calls it "강점" |
| ResultView.Feedback | src/components/ResultView.tsx:26-27 | the ending's feedback when the ending exists and its feedback is non-empty; otherwise the fixed default sentence; never empty |

## Left out

- src/components/ScenarioPicker.tsx, src/components/FileBar.tsx and src/components/GameScreen/GameScreen.tsx: fetching, uploading, `JSON.parse`, file download and presentational markup have no logic of their own.
- Rendering, CSS, the radar chart drawing, React's hook scheduling and `window.location.reload`: not modelled. The hook state is class fields updated in order.
- The clock: `new Date()` becomes a `DateTime` parameter holding the local components the `Date` getters return. The ISO round trip through `toISOString` and the time-zone conversion are not modelled. An unparsable date string (which would print "NaN" fields) is not modelled either; `None` stands for the null or empty input.
- `localStorage.setItem` (src/App.tsx:96): `FinishScenario` returns the log it would store instead of writing it.
- `Router.GetNode`, `Router.IndexNodes` and `Router.GetMissingNode`: the table is modelled as a dictionary holding only the node ids as its own keys. The source's table is a plain object (src/engine/router.ts:10), so a lookup of an id naming an `Object.prototype` member (such as "toString" or "constructor") finds that member instead of failing, and a node whose id is "__proto__" replaces the table's prototype at src/engine/router.ts:11 instead of adding a key. Ids naming prototype members are outside the model.
- `console.log` (src/engine/scorer.ts:21): no observable effect on the model.
- `Object.keys` order: the model cannot derive a JavaScript object's key order from a map. The result view takes the key order as a parameter. `Strengths`, `Improvements`, `DetailRows` and the membership and partition lemmas require only that every listed key is scored; `PartitionCoversScore` also requires that the parameter lists each scored competency exactly once, as `Object.keys` does.
- JSON content outside the declared types, such as an effects key that is not a competency or a non-numeric delta, cannot be represented.
- JavaScript numbers are modelled as unbounded integers. Fractional deltas and NaN are not modelled.
- `Simulator.Simulator.constructor`: requires a non-empty node list, because rendering reads `nodes[0].prompt`.
- `Simulator.Simulator.Click`: requires at least two options while running, because the card reads `options[0].text` and `options[1].text`. A shorter node makes rendering throw before any button exists.
- The `onRecordSelection`, image-URL and `log` props that the shell passes but the components do not declare: no behaviour is invented for them. Nothing calls `RecordSelection` from the simulator, and options carry no id.
- The result view's restart button inside the simulator (`window.location.reload`) is not modelled; the shell's restart is (`App.AppState.Restart`).
