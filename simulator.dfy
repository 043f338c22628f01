/** The simulator state machine of src/components/Simulator.tsx: the state
    held by the component and its `handleOptionClick` transition. */
module Simulator {
  import opened Wrappers
  import opened Types
  import opened Scorer
  import opened Router

  /** What `onFinish` receives: the score before the terminal choice, and the ending id. */
  datatype Handoff = Handoff(score: Score, endId: string)

  /** The component's three pieces of state. */
  datatype View = View(node: ScenarioNode, score: Score, endId: Option<string>)

  /** The two buttons of the card: the primary one shows `options[0]`, the other `options[1]`. */
  datatype Button = Primary | Secondary {
    function Index(): (i: nat)
      ensures i < 2
    {
      if Primary? then 0 else 1
    }
  }

  /** `nodes.find(n => n.id === id)`: the first node in sequence order with that id. */
  function FirstWithId(nodes: seq<ScenarioNode>, id: string): (r: Option<ScenarioNode>)
    ensures r.Some? ==> r.value in nodes && r.value.id == id
    ensures r.None? <==> forall n | n in nodes :: n.id != id
  {
    if nodes == [] then None
    else if nodes[0].id == id then Some(nodes[0])
    else FirstWithId(nodes[1..], id)
  }

  /** The node found is the first one carrying the id, even when later nodes share it. */
  lemma {:induction false} FirstWithIdIsFirst(nodes: seq<ScenarioNode>, id: string, i: nat)
    requires i < |nodes| && nodes[i].id == id
    requires forall j | 0 <= j < i :: nodes[j].id != id
    ensures FirstWithId(nodes, id) == Some(nodes[i])
  {
    if i > 0 {
      assert nodes[0].id != id;
      FirstWithIdIsFirst(nodes[1..], id, i - 1);
    }
  }

  /** When node ids are unique the simulator's linear search and the router's
      index find the same node, and fail on the same ids. */
  lemma FirstWithIdAgreesWithIndex(nodes: seq<ScenarioNode>, id: string)
    requires forall i, j | 0 <= i < j < |nodes| :: nodes[i].id != nodes[j].id
    ensures FirstWithId(nodes, id).Some? <==> GetNode(Indexed(nodes), id).Ok?
    ensures FirstWithId(nodes, id).Some? ==> FirstWithId(nodes, id).value == GetNode(Indexed(nodes), id).value
  {
    IndexedDomain(nodes);
    if i :| 0 <= i < |nodes| && nodes[i].id == id {
      assert id in Ids(nodes);
      FirstWithIdIsFirst(nodes, id, i);
      IndexedLastWins(nodes, i);
    } else {
      assert id !in Ids(nodes);
    }
  }

  /** The state on mounting: the first node, an empty score (not `InitScore`), no ending. */
  function Initial(scn: ScenarioFile): (v: View)
    requires |scn.nodes| > 0
    ensures v.node == scn.nodes[0] && v.score == map[] && v.endId == None
  {
    View(scn.nodes[0], map[], None)
  }

  /** `handleOptionClick(option)`: the new state and what is handed to `onFinish`. */
  function AfterOption(scn: ScenarioFile, v: View, option: ScenarioOption): (r: (View, Option<Handoff>))
    // a terminal option records the ending and hands off the pre-choice score; its effects are not applied
    ensures IsEnding(option.goto) ==>
      r.0 == v.(endId := Some(option.goto)) && r.1 == Some(Handoff(v.score, option.goto))
    // otherwise the first node with the target id becomes current, or the node stays when none matches
    ensures !IsEnding(option.goto) ==> r.1 == None && r.0.endId == v.endId
    ensures !IsEnding(option.goto) ==>
      if exists n | n in scn.nodes :: n.id == option.goto
      then r.0.node in scn.nodes && r.0.node.id == option.goto
      else r.0.node == v.node
    ensures !IsEnding(option.goto) && FirstWithId(scn.nodes, option.goto).Some? ==>
      r.0.node == FirstWithId(scn.nodes, option.goto).value
    // and the option's effects are added whether or not the target exists
    ensures !IsEnding(option.goto) && option.effects.None? ==> r.0.score == v.score
    ensures !IsEnding(option.goto) && option.effects.Some? ==> r.0.score == Applied(v.score, option.effects.value)
  {
    if IsEnding(option.goto) then
      (v.(endId := Some(option.goto)), Some(Handoff(v.score, option.goto)))
    else
      var node := match FirstWithId(scn.nodes, option.goto)
        case Some(n) => n
        case None => v.node;
      var score := if option.effects.Some? then Applied(v.score, option.effects.value) else v.score;
      (View(node, score, v.endId), None)
  }

  /** A node can be shown only when it has the two options the card reads. */
  predicate Renderable(node: ScenarioNode) {
    |node.options| >= 2
  }

  /** A click on one of the card's buttons. Once an ending is set the component
      shows the result view, which has no option buttons, so nothing changes. */
  function AfterClick(scn: ScenarioFile, v: View, b: Button): (r: (View, Option<Handoff>))
    requires v.endId.None? ==> Renderable(v.node)
    ensures v.endId.Some? ==> r == (v, None)
    ensures v.endId.None? ==> r == AfterOption(scn, v, v.node.options[b.Index()])
  {
    if v.endId.Some? then (v, None)
    else AfterOption(scn, v, v.node.options[b.Index()])
  }

  /** Every node of the scenario has at least the two options the card shows. */
  predicate AllRenderable(scn: ScenarioFile) {
    forall n | n in scn.nodes :: Renderable(n)
  }

  /** What holds of every state the component reaches: the current node is a node
      of the scenario, and an ending id, once set, carries the terminal prefix. */
  predicate Reachable(scn: ScenarioFile, v: View) {
    && v.node in scn.nodes
    && (v.endId.Some? ==> IsEnding(v.endId.value))
  }

  lemma InitialReachable(scn: ScenarioFile)
    requires |scn.nodes| > 0
    ensures Reachable(scn, Initial(scn))
  {
  }

  lemma AfterClickReachable(scn: ScenarioFile, v: View, b: Button)
    requires AllRenderable(scn) && Reachable(scn, v)
    ensures Reachable(scn, AfterClick(scn, v, b).0)
  {
  }

  /** The handoffs of one click, as a list. */
  function HandoffList(h: Option<Handoff>): (hs: seq<Handoff>)
    ensures |hs| <= 1
  {
    if h.Some? then [h.value] else []
  }

  /** A sequence of clicks from `v`: the final state and every handoff, in order. */
  function Run(scn: ScenarioFile, v: View, clicks: seq<Button>): (r: (View, seq<Handoff>))
    requires AllRenderable(scn) && Reachable(scn, v)
    ensures Reachable(scn, r.0)
    decreases |clicks|
  {
    if clicks == [] then (v, [])
    else
      AfterClickReachable(scn, v, clicks[0]);
      var step := AfterClick(scn, v, clicks[0]);
      var rest := Run(scn, step.0, clicks[1..]);
      (rest.0, HandoffList(step.1) + rest.1)
  }

  /** Once an ending is set no click changes anything or hands anything off. */
  lemma {:induction false} EndedIsFinal(scn: ScenarioFile, v: View, clicks: seq<Button>)
    requires AllRenderable(scn) && Reachable(scn, v) && v.endId.Some?
    ensures Run(scn, v, clicks) == (v, [])
    decreases |clicks|
  {
    if clicks != [] {
      var step := AfterClick(scn, v, clicks[0]);
      assert step == (v, None);
      EndedIsFinal(scn, v, clicks[1..]);
      var rest := Run(scn, v, clicks[1..]);
      assert HandoffList(step.1) + rest.1 == [];
      assert Run(scn, v, clicks) == (rest.0, HandoffList(step.1) + rest.1);
    }
  }

  /** `onFinish` fires at most once in a run, and when it fires the run has ended
      at the ending id it was given, with the score it was given. */
  lemma {:induction false} HandoffAtMostOnce(scn: ScenarioFile, v: View, clicks: seq<Button>)
    requires AllRenderable(scn) && Reachable(scn, v) && v.endId.None?
    ensures |Run(scn, v, clicks).1| <= 1
    ensures |Run(scn, v, clicks).1| == 1 <==> Run(scn, v, clicks).0.endId.Some?
    ensures |Run(scn, v, clicks).1| == 1 ==>
      var (last, hs) := Run(scn, v, clicks);
      last.endId == Some(hs[0].endId) && last.score == hs[0].score
    decreases |clicks|
  {
    if clicks != [] {
      AfterClickReachable(scn, v, clicks[0]);
      var (next, h) := AfterClick(scn, v, clicks[0]);
      if next.endId.Some? {
        EndedIsFinal(scn, next, clicks[1..]);
      } else {
        HandoffAtMostOnce(scn, next, clicks[1..]);
      }
    }
  }

  /** The component's state, updated in place by its event handler. */
  class Simulator {
    const scenario: ScenarioFile
    var currentNode: ScenarioNode
    var score: Score
    var endId: Option<string>

    function State(): View
      reads this
    {
      View(currentNode, score, endId)
    }

    /** Mounting the component; `nodes[0]` must exist for the first render. */
    constructor (scenario: ScenarioFile)
      requires |scenario.nodes| > 0
      ensures this.scenario == scenario && State() == Initial(scenario)
    {
      this.scenario := scenario;
      currentNode := scenario.nodes[0];
      score := map[];
      endId := None;
    }

    /** `handleOptionClick`: returns the handoff to `onFinish`, if any. */
    method HandleOptionClick(option: ScenarioOption) returns (handoff: Option<Handoff>)
      modifies this
      ensures (State(), handoff) == AfterOption(scenario, old(State()), option)
    {
      if IsEnding(option.goto) {
        endId := Some(option.goto);
        handoff := Some(Handoff(score, option.goto));
      } else {
        var nextNode := FirstWithId(scenario.nodes, option.goto);
        if nextNode.Some? {
          currentNode := nextNode.value;
        }
        score := ApplyEffects(score, option.effects);
        handoff := None;
      }
    }

    /** A click on one of the two buttons of the card. */
    method Click(b: Button) returns (handoff: Option<Handoff>)
      requires endId.None? ==> Renderable(currentNode)
      modifies this
      ensures (State(), handoff) == AfterClick(scenario, old(State()), b)
    {
      if endId.Some? {
        return None;
      }
      handoff := HandleOptionClick(currentNode.options[b.Index()]);
    }
  }
}
