/** One tick: bring the snapshot up to date, ask every node whether it demands execution, submit, execute. */
module FrameTick {
  import opened Common
  import opened Options
  import opened NodeGraph
  import opened NodeGraphSafety
  import opened NodeManager
  import opened FrameExecution
  import opened FramePasses

  // The interfaces the pruning nodes read are inputs.
  ghost predicate BehavioursTyped(f: Frame) {
    forall id :: id in f.nodes ==>
      match f.behaviour(f.nodes[id].kind)
      case Plain => true
      case MixTextures => forall i :: i in {FB_IN, A, B, T} ==> IsInput(f, id, i)
      case Switch(inputs) => IsInput(f, id, ACTIVE) && forall i :: i in inputs ==> IsInput(f, id, i)
  }

  lemma FrontIsInput(f: Frame, id: Name, i: Name, c: Connection)
    requires IsInput(f, id, i) && c in Front(f.nodes[id], i)
    ensures c in InputConnections(f, id)
  {
    assert i in f.nodes[id].links && c in f.nodes[id].links[i];
  }

  lemma ReadsAreInputs(f: Frame, id: Name, c: Connection)
    requires ReadsOwnInputs(f) && BehavioursTyped(f) && id in f.nodes && c in ExecReads(f, id)
    ensures c in InputConnections(f, id)
  {
    var r := f.nodes[id];
    match f.behaviour(r.kind)
    case Plain =>
    case MixTextures => MixReadsAreInputs(f, id, c);
    case Switch(inputs) => SwitchReadsAreInputs(f, id, inputs, c);
  }

  lemma MixReadsAreInputs(f: Frame, id: Name, c: Connection)
    requires id in f.nodes && forall i :: i in {FB_IN, A, B, T} ==> IsInput(f, id, i)
    requires c in MixReads(f, f.nodes[id])
    ensures c in InputConnections(f, id)
  {
    var r := f.nodes[id];
    if c in Front(r, FB_IN) {
      FrontIsInput(f, id, FB_IN, c);
    } else if c in Front(r, T) {
      FrontIsInput(f, id, T, c);
    } else {
      BlendedFronts(r, Clamp(InputNumber(f, r, T, OptionReal(r.options, T_OPTION)), 0.0, 1.0));
      FrontIsInput(f, id, if c in Front(r, A) then A else B, c);
    }
  }

  lemma SwitchReadsAreInputs(f: Frame, id: Name, inputs: seq<Name>, c: Connection)
    requires id in f.nodes && IsInput(f, id, ACTIVE) && forall i :: i in inputs ==> IsInput(f, id, i)
    requires c in SwitchReads(f, f.nodes[id], inputs)
    ensures c in InputConnections(f, id)
  {
    var r := f.nodes[id];
    if c in Front(r, ACTIVE) {
      FrontIsInput(f, id, ACTIVE, c);
    } else {
      var index := ActiveIndex(InputNumber(f, r, ACTIVE, ActiveOption(r)), |inputs|);
      FrontIsInput(f, id, inputs[index], c);
    }
  }

  // The graph a frame comes from.
  ghost predicate FrameOf(f: Frame, g: Graph) {
    f.definitions == g.definitions && f.nodes == g.nodes && f.connections == g.connections
  }

  lemma InputsFeed(g: Graph, f: Frame, id: Name, c: Connection)
    requires Lists(g) && Sound(g) && FrameOf(f, g)
    requires id in f.nodes && c in InputConnections(f, id)
    ensures c in g.connections && c.toNode == id
  {
    var i :| i in f.nodes[id].links && IsInput(f, id, i) && c in f.nodes[id].links[i];
    assert g.nodes[id].links[i] == ListOf(g.connections, id, i);
    ListOfContents(g.connections, id, i, c);
    assert WellTyped(g, c);
  }

  // A frame of a reachable graph is valid: the node manager keeps the cycles out that the recursion relies on.
  lemma GraphMakesFrameValid(g: Graph, f: Frame)
    requires Inv(g) && FrameOf(f, g) && ReadsOwnInputs(f) && BehavioursTyped(f)
    ensures ValidFrame(f)
  {
    forall id, c | id in f.nodes && c in ExecReads(f, id) ensures Linked(f.connections, c.fromNode, id) {
      ReadsAreInputs(f, id, c);
      InputsFeed(g, f, id, c);
    }
  }

  // Everything a node resolves can be resolved: its source is there, with the interface.
  lemma ReadsAreResolvable(g: Graph, f: Frame, id: Name, c: Connection)
    requires Inv(g) && FrameOf(f, g) && ReadsOwnInputs(f) && BehavioursTyped(f)
    requires id in f.nodes && c in ExecReads(f, id)
    ensures Resolvable(f, c)
  {
    ReadsAreInputs(f, id, c);
    InputsFeed(g, f, id, c);
    assert WellTyped(g, c);
  }

  // What the submit pass reached covers what the execute pass reaches.
  lemma SubmittedCoversExecuted(f: Frame, submitted: set<Name>, finished: seq<Name>, roots: set<Name>)
    requires ReadsOwnInputs(f) && roots <= f.nodes.Keys
    requires SubmitGrows(f, {}, submitted, roots) && ExecGrows(f, [], finished, roots)
    ensures Elements(finished) <= submitted
  {
    assert roots * f.nodes.Keys == roots;
    forall id | id in submitted && id in f.nodes ensures ReadsFrom(f, id, submitted) {
      assert SubmitsInto(f, id, submitted);
      forall c | c in ExecReads(f, id) && Resolvable(f, c) ensures c.fromNode in submitted {
        ReadsAreSubmitted(f, id, c);
      }
    }
    assert ExecClosed(f, submitted);
    assert Elements<Name>([]) + submitted == submitted;
  }

  lemma OrderedIsClosed(f: Frame, s: seq<Name>)
    requires Ordered(f, s)
    ensures ExecClosed(f, Elements(s))
  {
    forall id | id in Elements(s) && id in f.nodes ensures ReadsFrom(f, id, Elements(s)) {
      var k :| 0 <= k < |s| && s[k] == id;
      assert ReadsFrom(f, s[k], Elements(s[..k]));
      assert forall x :: x in s[..k] ==> x in s;
    }
  }

  // The smallest set of nodes that has the demanding ones and, with every node, what it submits.
  ghost predicate LeastSubmitClosed(f: Frame, s: set<Name>, roots: set<Name>) {
    && roots <= s && SubmitClosed(f, s)
    && forall bound :: SubmitClosed(f, bound) && roots <= bound ==> s <= bound
  }

  ghost predicate LeastExecClosed(f: Frame, s: set<Name>, roots: set<Name>) {
    && roots <= s && ExecClosed(f, s)
    && forall bound :: ExecClosed(f, bound) && roots <= bound ==> s <= bound
  }

  lemma GrownFromNothingIsLeast(f: Frame, submitted: set<Name>, finished: seq<Name>, roots: set<Name>)
    requires roots <= f.nodes.Keys
    requires SubmitGrows(f, {}, submitted, roots) && ExecGrows(f, [], finished, roots) && Ordered(f, finished)
    ensures LeastSubmitClosed(f, submitted, roots)
    ensures LeastExecClosed(f, Elements(finished), roots)
  {
    assert roots * f.nodes.Keys == roots;
    OrderedIsClosed(f, finished);
    assert Elements<Name>([]) == {};
  }

  method PrepareAllNodes(nodes: Nodes, demands: Name -> bool) returns (demanding: seq<Name>)
    ensures Elements(demanding) == set n | n in nodes && demands(n)
  {
    demanding := [];
    ghost var done: set<Name> := {};
    var rest := nodes.Keys;
    while rest != {}
      invariant done !! rest && done + rest == nodes.Keys
      invariant Elements(demanding) == set n | n in done && demands(n)
      decreases rest
    {
      var id :| id in rest;
      if demands(id) {
        assert Elements(demanding + [id]) == Elements(demanding) + {id};
        demanding := demanding + [id];
      }
      rest, done := rest - {id}, done + {id};
    }
    assert done == nodes.Keys;
  }

  // Both passes over one snapshot.
  method SubmitAndExecute(f: Frame, demanding: seq<Name>) returns (info: FrameInfo)
    requires ValidFrame(f) && ReadsOwnInputs(f) && Elements(demanding) <= f.nodes.Keys
    ensures fresh(info)
    ensures LeastSubmitClosed(f, info.submittedNodes, Elements(demanding))
    ensures LeastExecClosed(f, info.executedNodes, Elements(demanding))
    ensures info.executedNodes == Elements(info.finished) <= info.submittedNodes
    ensures Distinct(info.finished) && Ordered(f, info.finished)
    ensures Resolved(f, info.log, info.executedNodes, info.finished)
  {
    info := new FrameInfo();
    info.SubmitDemandingNodes(f, demanding);
    info.ExecuteDemandingNodes(f, demanding);
    SubmittedCoversExecuted(f, info.submittedNodes, info.finished, Elements(demanding));
    GrownFromNothingIsLeast(f, info.submittedNodes, info.finished, Elements(demanding));
    assert info.executedNodes == Elements(info.finished);
  }

  // A tick of a manager in any reachable state: the frame works on the current nodes, submits and executes the
  // least it has to, each node once and after everything it reads, and executes nothing it did not submit.
  method TickOneFrame(manager: NodeManager, f: Frame, demands: Name -> bool) returns (info: FrameInfo)
    requires Inv(manager.View()) && FrameOf(f, manager.View())
    requires ReadsOwnInputs(f) && BehavioursTyped(f)
    modifies manager
    ensures manager.View() == Tick(old(manager.View())) && manager.nodesCopy == f.nodes
    ensures fresh(info)
    ensures LeastSubmitClosed(f, info.submittedNodes, set n | n in f.nodes && demands(n))
    ensures LeastExecClosed(f, info.executedNodes, set n | n in f.nodes && demands(n))
    ensures info.executedNodes == Elements(info.finished) <= info.submittedNodes
    ensures Distinct(info.finished) && Ordered(f, info.finished)
    ensures Resolved(f, info.log, info.executedNodes, info.finished)
  {
    GraphMakesFrameValid(manager.View(), f);
    RefreshIsExact(manager.View());
    manager.RefreshSnapshot();
    var demanding := PrepareAllNodes(manager.nodesCopy, demands);
    info := SubmitAndExecute(f.(nodes := manager.nodesCopy), demanding);
  }
}
