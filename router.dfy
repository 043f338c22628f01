/** The navigation resolver of src/engine/router.ts. */
module Router {
  import opened Wrappers
  import opened Types

  /** The reserved prefix of terminal ids. */
  const EndPrefix: string := "end"

  /** `isEnding`: a plain prefix test, not a lookup in the endings table. */
  function IsEnding(id: string): (b: bool)
    ensures b <==> |id| >= |EndPrefix| && id[..|EndPrefix|] == EndPrefix
  {
    EndPrefix <= id
  }

  /** Ending ids are recognised by prefix alone, however the rest is spelled. */
  lemma EndingExamples()
    ensures IsEnding("end_good") && IsEnding("end:x") && IsEnding("endless") && IsEnding("end")
    ensures !IsEnding("n2") && !IsEnding("en") && !IsEnding("") && !IsEnding("the_end")
  {
    assert "the_end"[0] != EndPrefix[0];
  }

  /** The message of the error thrown for a missing node. */
  function NotFoundMessage(id: string): string {
    "노드를 찾을 수 없습니다: " + id
  }

  /** `getNode`: the node stored under `id`, or the not-found error. */
  function GetNode(table: map<string, ScenarioNode>, id: string): (r: Result<ScenarioNode, string>)
    ensures r.Ok? <==> id in table
    ensures r.Ok? ==> r.value == table[id]
    ensures r.Err? ==> r.error == NotFoundMessage(id)
  {
    if id in table then Ok(table[id]) else Err(NotFoundMessage(id))
  }

  /** The table `indexNodes` builds: each node in turn is stored under its id,
      so a later node overwrites an earlier one with the same id. */
  function Indexed(nodes: seq<ScenarioNode>): map<string, ScenarioNode>
    decreases |nodes|
  {
    if nodes == [] then map[]
    else
      var last := nodes[|nodes| - 1];
      Indexed(nodes[..|nodes| - 1])[last.id := last]
  }

  /** The ids appearing in a node sequence. */
  function Ids(nodes: seq<ScenarioNode>): set<string> {
    set i | 0 <= i < |nodes| :: nodes[i].id
  }

  /** The table's keys are exactly the node ids. */
  lemma {:induction false} IndexedDomain(nodes: seq<ScenarioNode>)
    ensures Indexed(nodes).Keys == Ids(nodes)
    decreases |nodes|
  {
    if nodes != [] {
      var init := nodes[..|nodes| - 1];
      IndexedDomain(init);
      assert Ids(nodes) == Ids(init) + {nodes[|nodes| - 1].id} by {
        forall x | x in Ids(nodes) ensures x in Ids(init) + {nodes[|nodes| - 1].id} {
          var i :| 0 <= i < |nodes| && nodes[i].id == x;
          if i < |nodes| - 1 {
            assert init[i] == nodes[i];
          }
        }
        forall x | x in Ids(init) ensures x in Ids(nodes) {
          var i :| 0 <= i < |init| && init[i].id == x;
          assert nodes[i] == init[i];
        }
      }
    }
  }

  /** Every entry of the table is a node of the sequence stored under its own id. */
  lemma {:induction false} IndexedEntries(nodes: seq<ScenarioNode>, x: string)
    requires x in Indexed(nodes)
    ensures Indexed(nodes)[x].id == x
    ensures Indexed(nodes)[x] in nodes
    decreases |nodes|
  {
    var init := nodes[..|nodes| - 1];
    var last := nodes[|nodes| - 1];
    if x != last.id {
      IndexedEntries(init, x);
      assert Indexed(init)[x] in init;
    }
  }

  /** With duplicate ids the last node in sequence order wins. */
  lemma {:induction false} IndexedLastWins(nodes: seq<ScenarioNode>, i: nat)
    requires i < |nodes|
    requires forall k | i < k < |nodes| :: nodes[k].id != nodes[i].id
    ensures nodes[i].id in Indexed(nodes) && Indexed(nodes)[nodes[i].id] == nodes[i]
    decreases |nodes|
  {
    var init := nodes[..|nodes| - 1];
    if i < |nodes| - 1 {
      assert nodes[|nodes| - 1].id != nodes[i].id;
      IndexedLastWins(init, i);
    }
  }

  /** `indexNodes`: fills the table in one pass over the nodes. */
  method IndexNodes(scn: ScenarioFile) returns (table: map<string, ScenarioNode>)
    ensures table == Indexed(scn.nodes)
  {
    table := map[];
    for i := 0 to |scn.nodes|
      invariant table == Indexed(scn.nodes[..i])
    {
      var n := scn.nodes[i];
      assert scn.nodes[..i + 1][..i] == scn.nodes[..i];
      table := table[n.id := n];
    }
    assert scn.nodes[..|scn.nodes|] == scn.nodes;
  }

  /** Looking up any node of a scenario in its index succeeds with a node of that id. */
  lemma GetIndexedNode(scn: ScenarioFile, n: ScenarioNode)
    requires n in scn.nodes
    ensures GetNode(Indexed(scn.nodes), n.id).Ok?
    ensures GetNode(Indexed(scn.nodes), n.id).value.id == n.id
  {
    IndexedDomain(scn.nodes);
    var i :| 0 <= i < |scn.nodes| && scn.nodes[i] == n;
    assert n.id in Ids(scn.nodes);
    IndexedEntries(scn.nodes, n.id);
  }

  /** Looking up an id that no node carries fails with the not-found error. */
  lemma GetMissingNode(scn: ScenarioFile, id: string)
    requires forall n | n in scn.nodes :: n.id != id
    ensures GetNode(Indexed(scn.nodes), id) == Err(NotFoundMessage(id))
  {
    IndexedDomain(scn.nodes);
  }
}
