/** The scenario data model of src/types.ts. */
module Types {
  import opened Wrappers

  /** The four fixed competencies; the JSON spelling of each is its `Name`. */
  datatype Competency = Design | Delivery | Assessment | Reflection

  /** The key under which a competency appears in scenario files and scores. */
  function Name(c: Competency): string {
    match c
    case Design => "수업설계"
    case Delivery => "수업실행"
    case Assessment => "학생평가"
    case Reflection => "수업성찰"
  }

  /** Reads a key of a scenario file back as a competency. */
  function FromName(s: string): (r: Option<Competency>)
    ensures r.Some? ==> Name(r.value) == s
  {
    if s == "수업설계" then Some(Design)
    else if s == "수업실행" then Some(Delivery)
    else if s == "학생평가" then Some(Assessment)
    else if s == "수업성찰" then Some(Reflection)
    else None
  }

  /** The competencies in declaration order; the type is closed over exactly these four. */
  function AllCompetencies(): (r: seq<Competency>)
    ensures |r| == 4
    ensures forall i, j | 0 <= i < j < |r| :: r[i] != r[j]
  {
    [Design, Delivery, Assessment, Reflection]
  }

  /** The type is closed: every competency is one of the four listed. */
  lemma AllCompetenciesComplete(c: Competency)
    ensures c in AllCompetencies()
  {
  }

  lemma EveryCompetencyListed()
    ensures forall c: Competency :: c in AllCompetencies()
  {
    forall c: Competency ensures c in AllCompetencies() {
      AllCompetenciesComplete(c);
    }
  }

  /** Every competency has a name that reads back as itself, so names are distinct. */
  lemma NameRoundTrip(c: Competency)
    ensures FromName(Name(c)) == Some(c)
  {
  }

  /** A partial map from competency to a signed delta; absent keys mean no change. */
  type Effects = map<Competency, int>

  datatype ScenarioOption = ScenarioOption(text: string, goto: string, effects: Option<Effects>)

  datatype ScenarioNode = ScenarioNode(id: string, prompt: string, options: seq<ScenarioOption>)

  datatype ScenarioEnding = ScenarioEnding(feedback: string, rubric: Option<map<Competency, int>>)

  datatype ScenarioFile = ScenarioFile(
    id: string,
    title: string,
    competencies: seq<Competency>,
    nodes: seq<ScenarioNode>,
    endings: Option<map<string, ScenarioEnding>>)
}
