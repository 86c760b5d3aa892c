/** The sets of visited nodes a frame keeps, and the two passes that fill them. */
module FramePasses {
  import opened Common
  import opened Options
  import opened NodeGraph
  import opened NodeGraphSafety
  import opened FrameExecution

  ghost function Sources(cons: set<Connection>): set<Name> { set c | c in cons :: c.fromNode }

  ghost predicate SubmitsInto(f: Frame, id: Name, s: set<Name>)
    requires id in f.nodes
  {
    forall c :: c in SubmitReads(f, id) && c.fromNode in f.nodes ==> c.fromNode in s
  }

  // With every node, the set has the sources that node submits.
  ghost predicate SubmitClosed(f: Frame, s: set<Name>) {
    forall id :: id in s && id in f.nodes ==> SubmitsInto(f, id, s)
  }

  // From one set to the next: the roots join, every node that joined brings what it submits, and nothing joins
  // that a closed set with the roots could be without.
  ghost predicate SubmitGrows(f: Frame, before: set<Name>, after: set<Name>, roots: set<Name>) {
    && before <= after <= before + f.nodes.Keys
    && roots * f.nodes.Keys <= after
    && (forall id :: id in after && id !in before && id in f.nodes ==> SubmitsInto(f, id, after))
    && (forall bound :: SubmitClosed(f, bound) && roots * f.nodes.Keys <= bound ==> after <= before + bound)
  }

  lemma SubmitGrowsOn(f: Frame, a: set<Name>, b: set<Name>, c: set<Name>, first: set<Name>, second: set<Name>)
    requires SubmitGrows(f, a, b, first) && SubmitGrows(f, b, c, second)
    ensures SubmitGrows(f, a, c, first + second)
  {
    forall id | id in c && id !in a && id in f.nodes ensures SubmitsInto(f, id, c) {
      if id in b {
        assert SubmitsInto(f, id, b);
      }
    }
    forall bound | SubmitClosed(f, bound) && (first + second) * f.nodes.Keys <= bound ensures c <= a + bound {
      assert first * f.nodes.Keys <= bound && second * f.nodes.Keys <= bound;
    }
  }

  lemma SubmitGrowsByNothing(f: Frame, s: set<Name>, roots: set<Name>)
    requires roots * f.nodes.Keys <= s
    ensures SubmitGrows(f, s, s, roots)
  {
  }

  // A node joins, and then what it submits.
  lemma SubmitGrowsByNode(f: Frame, before: set<Name>, after: set<Name>, id: Name)
    requires id in f.nodes && id !in before
    requires SubmitGrows(f, before + {id}, after, Sources(SubmitReads(f, id)))
    ensures SubmitGrows(f, before, after, {id})
  {
    forall c | c in SubmitReads(f, id) && c.fromNode in f.nodes ensures c.fromNode in after {
      assert c.fromNode in Sources(SubmitReads(f, id));
    }
    forall bound | SubmitClosed(f, bound) && {id} * f.nodes.Keys <= bound ensures after <= before + bound {
      assert id in {id} * f.nodes.Keys;
      assert SubmitsInto(f, id, bound);
      assert Sources(SubmitReads(f, id)) * f.nodes.Keys <= bound;
    }
  }

  /** The execute pass. */

  // A connection can be resolved when its source is in the snapshot and has the interface.
  predicate Resolvable(f: Frame, c: Connection) {
    c.fromNode in f.nodes && f.nodes[c.fromNode].kind in f.definitions
    && c.fromInterface in f.definitions[f.nodes[c.fromNode].kind].interfaces
  }

  ghost function ResolvedSources(f: Frame, cons: seq<Connection>): set<Name> {
    set c | c in cons && Resolvable(f, c) :: c.fromNode
  }

  ghost predicate ReadsFrom(f: Frame, id: Name, s: set<Name>)
    requires id in f.nodes
  {
    forall c :: c in ExecReads(f, id) && Resolvable(f, c) ==> c.fromNode in s
  }

  ghost predicate ExecClosed(f: Frame, s: set<Name>) {
    forall id :: id in s && id in f.nodes ==> ReadsFrom(f, id, s)
  }

  // Every node finished after everything it resolved.
  ghost predicate Ordered(f: Frame, s: seq<Name>) {
    forall k :: 0 <= k < |s| ==> s[k] in f.nodes && ReadsFrom(f, s[k], Elements(s[..k]))
  }

  ghost predicate ExecGrows(f: Frame, before: seq<Name>, after: seq<Name>, roots: set<Name>) {
    && before <= after
    && roots * f.nodes.Keys <= Elements(after)
    && (forall bound :: ExecClosed(f, bound) && roots * f.nodes.Keys <= bound
                        ==> Elements(after) <= Elements(before) + bound)
  }

  // The nodes visited are those finished and those begun; the latter wait for what they resolve.
  ghost predicate Progress(f: Frame, executed: set<Name>, finished: seq<Name>, begun: set<Name>) {
    && executed == Elements(finished) + begun && begun !! Elements(finished) && begun <= f.nodes.Keys
    && Distinct(finished) && Ordered(f, finished)
  }

  ghost predicate Upstream(f: Frame, a: Name, b: Name) {
    exists m :: Linked(f.connections, a, m) && Reach(f.connections, m, b)
  }

  // What a node resolves feeds it, and nothing feeds itself.
  ghost predicate ValidFrame(f: Frame) {
    && Acyclic(f.connections)
    && forall id, c :: id in f.nodes && c in ExecReads(f, id) ==> Linked(f.connections, c.fromNode, id)
  }

  lemma ExecGrowsByNothing(f: Frame, s: seq<Name>, roots: set<Name>)
    requires roots * f.nodes.Keys <= Elements(s)
    ensures ExecGrows(f, s, s, roots)
  {
  }

  lemma ExecGrowsOn(f: Frame, a: seq<Name>, b: seq<Name>, c: seq<Name>, first: set<Name>, second: set<Name>)
    requires ExecGrows(f, a, b, first) && ExecGrows(f, b, c, second)
    ensures ExecGrows(f, a, c, first + second)
  {
    assert Elements(b) <= Elements(c) by {
      assert forall x :: x in b ==> x in c;
    }
    forall bound | ExecClosed(f, bound) && (first + second) * f.nodes.Keys <= bound
      ensures Elements(c) <= Elements(a) + bound
    {
      assert first * f.nodes.Keys <= bound && second * f.nodes.Keys <= bound;
    }
  }

  // A node finishes once everything it resolves has.
  lemma ExecGrowsByNode(f: Frame, before: seq<Name>, after: seq<Name>, id: Name)
    requires id in f.nodes && id !in after
    requires ExecGrows(f, before, after, ResolvedSources(f, ExecReads(f, id)))
    requires Distinct(after) && Ordered(f, after)
    ensures ExecGrows(f, before, after + [id], {id})
    ensures Distinct(after + [id]) && Ordered(f, after + [id])
  {
    var roots := ResolvedSources(f, ExecReads(f, id));
    assert roots <= f.nodes.Keys;
    assert roots * f.nodes.Keys == roots;
    assert Elements(after + [id]) == Elements(after) + {id};
    forall bound | ExecClosed(f, bound) && {id} * f.nodes.Keys <= bound
      ensures Elements(after + [id]) <= Elements(before) + bound
    {
      assert id in {id} * f.nodes.Keys;
      assert ReadsFrom(f, id, bound);
    }
    LastIsOrdered(f, after, id);
  }

  lemma LastIsOrdered(f: Frame, s: seq<Name>, id: Name)
    requires Ordered(f, s) && id in f.nodes && ReadsFrom(f, id, Elements(s))
    ensures Ordered(f, s + [id])
  {
    var t := s + [id];
    forall k | 0 <= k < |t| ensures t[k] in f.nodes && ReadsFrom(f, t[k], Elements(t[..k])) {
      assert t[..k] == if k < |s| then s[..k] else s;
      assert k < |s| ==> ReadsFrom(f, s[k], Elements(s[..k]));
    }
  }

  // A source of a node lies upstream of everything that waits for the node, so it is not itself waiting.
  lemma SourceIsNotWaiting(f: Frame, c: Connection, id: Name, begun: set<Name>)
    requires ValidFrame(f) && id in f.nodes && c in ExecReads(f, id)
    requires forall a :: a in begun ==> Reach(f.connections, id, a)
    ensures forall a :: a in begun ==> Upstream(f, c.fromNode, a)
    ensures c.fromNode !in begun
  {
    forall a | a in begun ensures Upstream(f, c.fromNode, a) {
      assert Linked(f.connections, c.fromNode, id);
    }
    NotUpstreamOfItself(f, c.fromNode);
  }

  lemma NotUpstreamOfItself(f: Frame, a: Name)
    requires Acyclic(f.connections)
    ensures !Upstream(f, a, a)
  {
    forall m | Linked(f.connections, a, m) ensures !Reach(f.connections, m, a) {
      AcyclicMeansNoWayBack(f.connections, a, m);
    }
  }

  lemma UpstreamReaches(f: Frame, a: Name, b: Name)
    requires Upstream(f, a, b)
    ensures Reach(f.connections, a, b)
  {
    var m :| Linked(f.connections, a, m) && Reach(f.connections, m, b);
    ReachStep(f.connections, a, m, b);
  }

  lemma NodeBegins(f: Frame, executed: set<Name>, finished: seq<Name>, begun: set<Name>, id: Name)
    requires Progress(f, executed, finished, begun) && id in f.nodes && id !in executed
    requires forall a :: a in begun ==> Upstream(f, id, a)
    ensures Progress(f, executed + {id}, finished, begun + {id})
    ensures forall a :: a in begun + {id} ==> Reach(f.connections, id, a)
  {
    forall a | a in begun ensures Reach(f.connections, id, a) {
      UpstreamReaches(f, id, a);
    }
    ReachSelf(f.connections, id);
  }

  lemma NodeFinishes(f: Frame, executed: set<Name>, start: seq<Name>, finished: seq<Name>, begun: set<Name>, id: Name)
    requires id in f.nodes && id !in begun && Progress(f, executed, finished, begun + {id})
    requires ExecGrows(f, start, finished, ResolvedSources(f, ExecReads(f, id)))
    ensures Progress(f, executed, finished + [id], begun)
    ensures ExecGrows(f, start, finished + [id], {id})
  {
    assert id in begun + {id};
    assert id !in Elements(finished);
    ExecGrowsByNode(f, start, finished, id);
    assert Elements(finished + [id]) == Elements(finished) + {id};
  }

  /** What every node has resolved. */

  // A node asks for the value of a connection.
  datatype Request = Request(node: Name, connection: Connection)

  ghost function ReadBy(log: seq<Request>, id: Name): seq<Connection> {
    if log == [] then []
    else
      var last := log[|log| - 1];
      ReadBy(log[..|log| - 1], id) + if last.node == id then [last.connection] else []
  }

  // A node that has finished has resolved what its type and its inputs decide, in that order and nothing else; one that
  // has not begun has resolved nothing.
  ghost predicate Resolved(f: Frame, log: seq<Request>, executed: set<Name>, finished: seq<Name>) {
    && (forall id :: id in finished && id in f.nodes ==> ReadBy(log, id) == ExecReads(f, id))
    && (forall id :: id !in executed ==> ReadBy(log, id) == [])
  }

  // From one log to a later one, of the nodes that have begun none has resolved anything.
  ghost predicate Waited(a: seq<Request>, b: seq<Request>, begun: set<Name>) {
    forall n :: n in begun ==> ReadBy(b, n) == ReadBy(a, n)
  }

  // Of the nodes that have begun only one has resolved something.
  ghost predicate Asked(a: seq<Request>, b: seq<Request>, begun: set<Name>, id: Name, list: seq<Connection>) {
    ReadBy(b, id) == ReadBy(a, id) + list && Waited(a, b, begun - {id})
  }

  lemma AskedNothing(a: seq<Request>, begun: set<Name>, id: Name)
    ensures Asked(a, a, begun, id, [])
  {
    assert ReadBy(a, id) + [] == ReadBy(a, id);
  }

  lemma AskedOn(a: seq<Request>, b: seq<Request>, c: seq<Request>, begun: set<Name>, id: Name, x: seq<Connection>,
                y: seq<Connection>)
    requires Asked(a, b, begun, id, x) && Asked(b, c, begun, id, y)
    ensures Asked(a, c, begun, id, x + y)
  {
    assert ReadBy(a, id) + x + y == ReadBy(a, id) + (x + y);
  }

  lemma RequestIsLogged(log: seq<Request>, id: Name, c: Connection, n: Name)
    ensures ReadBy(log + [Request(id, c)], n) == ReadBy(log, n) + if n == id then [c] else []
  {
    assert (log + [Request(id, c)])[..|log|] == log;
  }

  lemma RequestKeepsResolved(f: Frame, log: seq<Request>, executed: set<Name>, finished: seq<Name>, id: Name,
                             c: Connection)
    requires Resolved(f, log, executed, finished) && id in executed && id !in finished
    ensures Resolved(f, log + [Request(id, c)], executed, finished)
  {
    forall n ensures n != id ==> ReadBy(log + [Request(id, c)], n) == ReadBy(log, n) {
      RequestIsLogged(log, id, c, n);
    }
  }

  // One request, and then whatever its source resolves.
  lemma RequestIsAsked(a: seq<Request>, b: seq<Request>, begun: set<Name>, id: Name, c: Connection)
    requires id in begun && Waited(a + [Request(id, c)], b, begun)
    ensures Asked(a, b, begun, id, [c])
  {
    forall n | n in begun ensures ReadBy(b, n) == ReadBy(a, n) + if n == id then [c] else [] {
      RequestIsLogged(a, id, c, n);
    }
    forall n | n in begun - {id} ensures ReadBy(b, n) == ReadBy(a, n) {
      assert ReadBy(a, n) + [] == ReadBy(a, n);
    }
  }

  class FrameInfo {
    var submittedNodes: set<Name>
    var executedNodes: set<Name>
    // Nodes in the order in which their execute returned, and what nodes have asked for.
    ghost var finished: seq<Name>
    ghost var log: seq<Request>

    constructor ()
      ensures submittedNodes == {} && executedNodes == {} && finished == [] && log == []
    {
      submittedNodes, executedNodes, finished, log := {}, {}, [], [];
    }

    method SubmitNodeOnce(f: Frame, id: Name) returns (submitted: bool)
      modifies this`submittedNodes
      ensures submitted <==> id in f.nodes && id !in old(submittedNodes)
      ensures SubmitGrows(f, old(submittedNodes), submittedNodes, {id})
      decreases f.nodes.Keys - submittedNodes, 0
    {
      ghost var before := submittedNodes;
      if id in submittedNodes {
        SubmitGrowsByNothing(f, before, {id});
        return false;
      }
      submittedNodes := submittedNodes + {id};
      if id !in f.nodes {
        submittedNodes := submittedNodes - {id};
        assert submittedNodes == before;
        SubmitGrowsByNothing(f, before, {id});
        return false;
      }
      assert id in f.nodes.Keys - before && id !in f.nodes.Keys - submittedNodes;
      Submit(f, id);
      SubmitGrowsByNode(f, before, submittedNodes, id);
      return true;
    }

    // The submit of the node's type.
    method Submit(f: Frame, id: Name)
      requires id in f.nodes
      modifies this`submittedNodes
      ensures SubmitGrows(f, old(submittedNodes), submittedNodes, Sources(SubmitReads(f, id)))
      decreases f.nodes.Keys - submittedNodes, 4
    {
      var r := f.nodes[id];
      match f.behaviour(r.kind)
      case Plain => SubmitInputs(f, id);
      case MixTextures => SubmitMix(f, r);
      case Switch(inputs) => SubmitSwitch(f, r, inputs);
    }

    // The default: every input interface's connections.
    method SubmitInputs(f: Frame, id: Name)
      requires id in f.nodes
      modifies this`submittedNodes
      ensures SubmitGrows(f, old(submittedNodes), submittedNodes, Sources(InputConnections(f, id)))
      decreases f.nodes.Keys - submittedNodes, 3
    {
      ghost var before := submittedNodes;
      var r := f.nodes[id];
      SubmitGrowsByNothing(f, before, {});
      if r.kind !in f.definitions {
        assert InputConnections(f, id) == {};
        assert Sources({}) == {};
        return;
      }
      var interfaces := f.definitions[r.kind].interfaces;
      ghost var done: set<Name> := {};
      var rest := interfaces.Keys;
      assert Sources(InputsAmong(f, id, {})) == {};
      while rest != {}
        invariant done !! rest && done + rest == interfaces.Keys
        invariant SubmitGrows(f, before, submittedNodes, Sources(InputsAmong(f, id, done)))
        decreases rest
      {
        var i :| i in rest;
        ghost var middle := submittedNodes;
        assert f.nodes.Keys - middle <= f.nodes.Keys - before;
        if interfaces[i].direction.Input? {
          SubmitListed(f, r, i);
          SubmitGrowsOn(f, before, middle, submittedNodes, Sources(InputsAmong(f, id, done)), Sources(Listed(r, i)));
        }
        InputsAmongGrow(f, id, done, i);
        rest, done := rest - {i}, done + {i};
      }
      assert done == interfaces.Keys;
      assert InputsAmong(f, id, done) == InputConnections(f, id);
    }

    method SubmitMix(f: Frame, r: Record)
      modifies this`submittedNodes
      ensures SubmitGrows(f, old(submittedNodes), submittedNodes, Sources(MixSubmits(r)))
      decreases f.nodes.Keys - submittedNodes, 3
    {
      ghost var before := submittedNodes;
      SubmitListed(f, r, FB_IN);
      SubmitMore(f, before, Listed(r, FB_IN), r, T);
      if LinksAt(r, T) != [] {
        SubmitMore(f, before, Listed(r, FB_IN) + Listed(r, T), r, A);
        SubmitMore(f, before, Listed(r, FB_IN) + Listed(r, T) + Listed(r, A), r, B);
        assert MixSubmits(r) == Listed(r, FB_IN) + Listed(r, T) + Listed(r, A) + Listed(r, B);
        return;
      }
      var t := OptionReal(r.options, T_OPTION);
      ghost var so := Listed(r, FB_IN) + Listed(r, T);
      if t < 1.0 {
        SubmitMore(f, before, so, r, A);
        so := so + Listed(r, A);
      }
      if t > 0.0 {
        SubmitMore(f, before, so, r, B);
        so := so + Listed(r, B);
      }
      assert MixSubmits(r) == so;
    }

    method SubmitSwitch(f: Frame, r: Record, inputs: seq<Name>)
      modifies this`submittedNodes
      ensures SubmitGrows(f, old(submittedNodes), submittedNodes, Sources(SwitchSubmits(r, inputs)))
      decreases f.nodes.Keys - submittedNodes, 3
    {
      ghost var before := submittedNodes;
      SubmitListed(f, r, ACTIVE);
      if LinksAt(r, ACTIVE) != [] {
        assert AllListed(r, inputs[..0]) == {};
        assert Listed(r, ACTIVE) + {} == Listed(r, ACTIVE);
        for k := 0 to |inputs|
          invariant SubmitGrows(f, before, submittedNodes, Sources(Listed(r, ACTIVE) + AllListed(r, inputs[..k])))
        {
          AllListedGrows(r, inputs[..k], inputs[k]);
          assert inputs[..k + 1] == inputs[..k] + [inputs[k]];
          assert Listed(r, ACTIVE) + AllListed(r, inputs[..k]) + Listed(r, inputs[k])
                 == Listed(r, ACTIVE) + AllListed(r, inputs[..k + 1]);
          SubmitMore(f, before, Listed(r, ACTIVE) + AllListed(r, inputs[..k]), r, inputs[k]);
        }
        assert inputs[..|inputs|] == inputs;
        return;
      }
      assert Sources(Listed(r, ACTIVE)) == Sources({});
      if inputs != [] {
        var index := ActiveIndex(ActiveOption(r), |inputs|);
        ActiveIndexInRange(ActiveOption(r), |inputs|);
        SubmitMore(f, before, {}, r, inputs[index]);
        assert {} + Listed(r, inputs[index]) == Listed(r, inputs[index]);
      }
    }

    // One more interface's connections.
    method SubmitMore(f: Frame, ghost start: set<Name>, ghost done: set<Connection>, r: Record, i: Name)
      requires SubmitGrows(f, start, submittedNodes, Sources(done))
      modifies this`submittedNodes
      ensures SubmitGrows(f, start, submittedNodes, Sources(done + Listed(r, i)))
      decreases f.nodes.Keys - start, 2, 1
    {
      ghost var middle := submittedNodes;
      assert f.nodes.Keys - middle <= f.nodes.Keys - start;
      SubmitListed(f, r, i);
      SubmitGrowsOn(f, start, middle, submittedNodes, Sources(done), Sources(Listed(r, i)));
      assert Sources(done + Listed(r, i)) == Sources(done) + Sources(Listed(r, i));
    }

    method SubmitListed(f: Frame, r: Record, i: Name)
      modifies this`submittedNodes
      ensures SubmitGrows(f, old(submittedNodes), submittedNodes, Sources(Listed(r, i)))
      decreases f.nodes.Keys - submittedNodes, 2, 0
    {
      SubmitDependencies(f, LinksAt(r, i));
      assert Listed(r, i) == Elements(LinksAt(r, i));
    }

    method SubmitDependencies(f: Frame, list: seq<Connection>)
      modifies this`submittedNodes
      ensures SubmitGrows(f, old(submittedNodes), submittedNodes, Sources(Elements(list)))
      decreases f.nodes.Keys - submittedNodes, 1
    {
      ghost var before := submittedNodes;
      SubmitGrowsByNothing(f, before, {});
      assert Elements(list[..0]) == {} && Sources(Elements(list[..0])) == {};
      for k := 0 to |list|
        invariant SubmitGrows(f, before, submittedNodes, Sources(Elements(list[..k])))
      {
        ghost var middle := submittedNodes;
        assert f.nodes.Keys - middle <= f.nodes.Keys - before;
        var _ := SubmitNodeOnce(f, list[k].fromNode);
        SubmitGrowsOn(f, before, middle, submittedNodes, Sources(Elements(list[..k])), {list[k].fromNode});
        SourcesGrow(list, k);
      }
      assert list[..|list|] == list;
    }

    method SubmitDemandingNodes(f: Frame, demanding: seq<Name>)
      requires submittedNodes == {}
      modifies this`submittedNodes
      ensures SubmitGrows(f, {}, submittedNodes, Elements(demanding))
    {
      SubmitGrowsByNothing(f, {}, {});
      assert Elements(demanding[..0]) == {};
      for k := 0 to |demanding|
        invariant SubmitGrows(f, {}, submittedNodes, Elements(demanding[..k]))
      {
        ghost var middle := submittedNodes;
        var _ := SubmitNodeOnce(f, demanding[k]);
        SubmitGrowsOn(f, {}, middle, submittedNodes, Elements(demanding[..k]), {demanding[k]});
        assert Elements(demanding[..k + 1]) == Elements(demanding[..k]) + {demanding[k]};
      }
      assert demanding[..|demanding|] == demanding;
    }

    method ExecuteNodeOnce(f: Frame, id: Name, ghost begun: set<Name>) returns (executed: bool)
      requires ValidFrame(f) && Progress(f, executedNodes, finished, begun)
      requires Resolved(f, log, executedNodes, finished)
      requires forall a :: a in begun ==> Upstream(f, id, a)
      modifies this`executedNodes, this`finished, this`log
      ensures executed <==> id in f.nodes && id !in old(executedNodes)
      ensures Progress(f, executedNodes, finished, begun)
      ensures Resolved(f, log, executedNodes, finished) && Waited(old(log), log, begun)
      ensures ExecGrows(f, old(finished), finished, {id})
      decreases f.nodes.Keys - executedNodes, 0
    {
      ghost var before := executedNodes;
      NotUpstreamOfItself(f, id);
      if id in executedNodes {
        ExecGrowsByNothing(f, finished, {id});
        return false;
      }
      executedNodes := executedNodes + {id};
      if id !in f.nodes {
        executedNodes := executedNodes - {id};
        assert executedNodes == before;
        ExecGrowsByNothing(f, finished, {id});
        return false;
      }
      assert id in f.nodes.Keys - before && id !in f.nodes.Keys - executedNodes;
      NodeBegins(f, before, finished, begun, id);
      ghost var start := finished;
      ghost var asked := log;
      assert ReadBy(asked, id) == [];
      Execute(f, id, begun + {id});
      assert ReadBy(log, id) == [] + ExecReads(f, id) == ExecReads(f, id);
      assert begun <= begun + {id} - {id};
      NodeFinishes(f, executedNodes, start, finished, begun, id);
      finished := finished + [id];
      return true;
    }

    // The execute of the node's type: the inputs it resolves, as its options and their values decide.
    method Execute(f: Frame, id: Name, ghost begun: set<Name>)
      requires ValidFrame(f) && Progress(f, executedNodes, finished, begun) && id in f.nodes
      requires Resolved(f, log, executedNodes, finished) && id in begun
      requires forall a :: a in begun ==> Reach(f.connections, id, a)
      modifies this`executedNodes, this`finished, this`log
      ensures old(executedNodes) <= executedNodes && Progress(f, executedNodes, finished, begun)
      ensures Resolved(f, log, executedNodes, finished)
      ensures Asked(old(log), log, begun, id, ExecReads(f, id))
      ensures ExecGrows(f, old(finished), finished, ResolvedSources(f, ExecReads(f, id)))
      decreases f.nodes.Keys - executedNodes, 4
    {
      var r := f.nodes[id];
      match f.behaviour(r.kind)
      case Plain => ResolveConnections(f, id, begun, f.resolves(id));
      case MixTextures => ExecuteMix(f, id, begun);
      case Switch(inputs) => ExecuteSwitch(f, id, begun, inputs);
    }

    method ResolveConnection(f: Frame, id: Name, ghost begun: set<Name>, c: Connection)
      requires ValidFrame(f) && Progress(f, executedNodes, finished, begun) && id in f.nodes
      requires Resolved(f, log, executedNodes, finished) && id in begun
      requires forall a :: a in begun ==> Reach(f.connections, id, a)
      requires c in ExecReads(f, id)
      modifies this`executedNodes, this`finished, this`log
      ensures old(executedNodes) <= executedNodes && Progress(f, executedNodes, finished, begun)
      ensures Resolved(f, log, executedNodes, finished)
      ensures Resolvable(f, c) ==> c.fromNode in finished
      ensures Asked(old(log), log, begun, id, [c])
      ensures ExecGrows(f, old(finished), finished, ResolvedSources(f, [c]))
      decreases f.nodes.Keys - executedNodes, 1
    {
      ghost var asked := log;
      RequestKeepsResolved(f, log, executedNodes, finished, id, c);
      log := log + [Request(id, c)];
      if c.fromNode !in f.nodes || f.nodes[c.fromNode].kind !in f.definitions
         || c.fromInterface !in f.definitions[f.nodes[c.fromNode].kind].interfaces {
        RequestIsAsked(asked, log, begun, id, c);
        ExecGrowsByNothing(f, finished, {});
        assert ResolvedSources(f, [c]) == {};
        return;
      }
      ghost var before := finished;
      SourceIsNotWaiting(f, c, id, begun);
      var _ := ExecuteNodeOnce(f, c.fromNode, begun);
      RequestIsAsked(asked, log, begun, id, c);
      assert ResolvedSources(f, [c]) == {c.fromNode};
      assert c.fromNode in {c.fromNode} * f.nodes.Keys;
      assert Elements(before) <= Elements(finished) by { assert forall x :: x in before ==> x in finished; }
    }

    method ResolveConnections(f: Frame, id: Name, ghost begun: set<Name>, list: seq<Connection>)
      requires ValidFrame(f) && Progress(f, executedNodes, finished, begun) && id in f.nodes
      requires Resolved(f, log, executedNodes, finished) && id in begun
      requires forall a :: a in begun ==> Reach(f.connections, id, a)
      requires forall c :: c in list ==> c in ExecReads(f, id)
      modifies this`executedNodes, this`finished, this`log
      ensures old(executedNodes) <= executedNodes && Progress(f, executedNodes, finished, begun)
      ensures Resolved(f, log, executedNodes, finished)
      ensures Asked(old(log), log, begun, id, list)
      ensures ExecGrows(f, old(finished), finished, ResolvedSources(f, list))
      decreases f.nodes.Keys - executedNodes, 2
    {
      ghost var start, entry, first := finished, executedNodes, log;
      ghost var done: seq<Connection> := [];
      ExecGrowsByNothing(f, start, {});
      AskedNothing(first, begun, id);
      assert ResolvedSources(f, done) == {};
      for k := 0 to |list|
        invariant done == list[..k] && entry <= executedNodes && Progress(f, executedNodes, finished, begun)
        invariant Resolved(f, log, executedNodes, finished) && Asked(first, log, begun, id, done)
        invariant ExecGrows(f, start, finished, ResolvedSources(f, done))
      {
        ghost var middle, asked, more := finished, log, list[..k + 1];
        TakesOneMore(list, k);
        assert f.nodes.Keys - executedNodes <= f.nodes.Keys - entry;
        ResolveConnection(f, id, begun, list[k]);
        AskedOn(first, asked, log, begun, id, done, [list[k]]);
        ExecGrowsOn(f, start, middle, finished, ResolvedSources(f, done), ResolvedSources(f, [list[k]]));
        ResolvedSourcesAppend(f, done, [list[k]]);
        done := more;
      }
      assert done == list;
    }

    // A single-valued input: resolve its connection, if it has one.
    method ResolveValue(f: Frame, ghost start: seq<Name>, ghost so: seq<Connection>, id: Name,
                        ghost begun: set<Name>, i: Name)
      requires ValidFrame(f) && Progress(f, executedNodes, finished, begun) && id in f.nodes
      requires Resolved(f, log, executedNodes, finished) && id in begun
      requires forall a :: a in begun ==> Reach(f.connections, id, a)
      requires forall c :: c in Front(f.nodes[id], i) ==> c in ExecReads(f, id)
      requires ExecGrows(f, start, finished, ResolvedSources(f, so))
      modifies this`executedNodes, this`finished, this`log
      ensures old(executedNodes) <= executedNodes && Progress(f, executedNodes, finished, begun)
      ensures Resolved(f, log, executedNodes, finished)
      ensures Asked(old(log), log, begun, id, Front(f.nodes[id], i))
      ensures ExecGrows(f, start, finished, ResolvedSources(f, so + Front(f.nodes[id], i)))
      decreases f.nodes.Keys - executedNodes, 2, 0
    {
      var list := LinksAt(f.nodes[id], i);
      ghost var middle := finished;
      if list != [] {
        ResolveConnection(f, id, begun, list[0]);
        ExecGrowsOn(f, start, middle, finished, ResolvedSources(f, so), ResolvedSources(f, [list[0]]));
        ResolvedSourcesAppend(f, so, [list[0]]);
      } else {
        AskedNothing(log, begun, id);
        assert so + [] == so;
      }
    }

    method ExecuteMix(f: Frame, id: Name, ghost begun: set<Name>)
      requires ValidFrame(f) && Progress(f, executedNodes, finished, begun) && id in f.nodes
      requires Resolved(f, log, executedNodes, finished) && id in begun
      requires forall a :: a in begun ==> Reach(f.connections, id, a)
      requires f.behaviour(f.nodes[id].kind) == MixTextures
      modifies this`executedNodes, this`finished, this`log
      ensures old(executedNodes) <= executedNodes && Progress(f, executedNodes, finished, begun)
      ensures Resolved(f, log, executedNodes, finished)
      ensures Asked(old(log), log, begun, id, MixReads(f, f.nodes[id]))
      ensures ExecGrows(f, old(finished), finished, ResolvedSources(f, MixReads(f, f.nodes[id])))
      decreases f.nodes.Keys - executedNodes, 3
    {
      var r := f.nodes[id];
      ghost var start, entry, first := finished, executedNodes, log;
      ExecGrowsByNothing(f, start, {});
      assert ResolvedSources(f, []) == {};
      ResolveValue(f, start, [], id, begun, FB_IN);
      ghost var second := log;
      var target := Front(r, FB_IN);
      assert [] + target == target;
      if target == [] || !f.framebuffer(target[0]) {
        return;
      }
      assert f.nodes.Keys - executedNodes <= f.nodes.Keys - entry;
      ResolveValue(f, start, target, id, begun, T);
      ghost var third := log;
      AskedOn(first, second, third, begun, id, target, Front(r, T));
      var t := Clamp(InputNumber(f, r, T, OptionReal(r.options, T_OPTION)), 0.0, 1.0);
      BlendedFronts(r, t);
      assert f.nodes.Keys - executedNodes <= f.nodes.Keys - entry;
      ResolveBlended(f, start, target + Front(r, T), id, begun, t);
      AskedOn(first, third, log, begun, id, target + Front(r, T), Fronts(r, Blended(t)));
    }

    // The inputs a texture mix blends.
    method ResolveBlended(f: Frame, ghost start: seq<Name>, ghost so: seq<Connection>, id: Name,
                          ghost begun: set<Name>, t: real)
      requires ValidFrame(f) && Progress(f, executedNodes, finished, begun) && id in f.nodes
      requires Resolved(f, log, executedNodes, finished) && id in begun
      requires forall a :: a in begun ==> Reach(f.connections, id, a)
      requires forall c :: c in Fronts(f.nodes[id], Blended(t)) ==> c in ExecReads(f, id)
      requires ExecGrows(f, start, finished, ResolvedSources(f, so))
      modifies this`executedNodes, this`finished, this`log
      ensures old(executedNodes) <= executedNodes && Progress(f, executedNodes, finished, begun)
      ensures Resolved(f, log, executedNodes, finished)
      ensures Asked(old(log), log, begun, id, Fronts(f.nodes[id], Blended(t)))
      ensures ExecGrows(f, start, finished, ResolvedSources(f, so + Fronts(f.nodes[id], Blended(t))))
      decreases f.nodes.Keys - executedNodes, 2, 1
    {
      var r := f.nodes[id];
      BlendedFronts(r, t);
      if t <= 0.0 {
        ResolveValue(f, start, so, id, begun, A);
      } else if t >= 1.0 {
        ResolveValue(f, start, so, id, begun, B);
      } else {
        ghost var entry, first := executedNodes, log;
        ResolveValue(f, start, so, id, begun, A);
        ghost var second := log;
        assert f.nodes.Keys - executedNodes <= f.nodes.Keys - entry;
        ResolveValue(f, start, so + Front(r, A), id, begun, B);
        AskedOn(first, second, log, begun, id, Front(r, A), Front(r, B));
        assert so + Front(r, A) + Front(r, B) == so + (Front(r, A) + Front(r, B));
      }
    }

    method ExecuteSwitch(f: Frame, id: Name, ghost begun: set<Name>, inputs: seq<Name>)
      requires ValidFrame(f) && Progress(f, executedNodes, finished, begun) && id in f.nodes
      requires Resolved(f, log, executedNodes, finished) && id in begun
      requires forall a :: a in begun ==> Reach(f.connections, id, a)
      requires f.behaviour(f.nodes[id].kind) == Switch(inputs)
      modifies this`executedNodes, this`finished, this`log
      ensures old(executedNodes) <= executedNodes && Progress(f, executedNodes, finished, begun)
      ensures Resolved(f, log, executedNodes, finished)
      ensures Asked(old(log), log, begun, id, SwitchReads(f, f.nodes[id], inputs))
      ensures ExecGrows(f, old(finished), finished, ResolvedSources(f, SwitchReads(f, f.nodes[id], inputs)))
      decreases f.nodes.Keys - executedNodes, 3
    {
      ghost var start, entry, first := finished, executedNodes, log;
      ExecGrowsByNothing(f, start, {});
      assert ResolvedSources(f, []) == {};
      if inputs == [] {
        AskedNothing(log, begun, id);
        return;
      }
      var r := f.nodes[id];
      ResolveValue(f, start, [], id, begun, ACTIVE);
      ghost var second := log;
      assert [] + Front(r, ACTIVE) == Front(r, ACTIVE);
      var active := InputNumber(f, r, ACTIVE, ActiveOption(r));
      var index := ActiveIndex(active, |inputs|);
      ActiveIndexInRange(active, |inputs|);
      assert f.nodes.Keys - executedNodes <= f.nodes.Keys - entry;
      ResolveValue(f, start, Front(r, ACTIVE), id, begun, inputs[index]);
      AskedOn(first, second, log, begun, id, Front(r, ACTIVE), Front(r, inputs[index]));
    }

    method ExecuteDemandingNodes(f: Frame, demanding: seq<Name>)
      requires ValidFrame(f) && executedNodes == {} && finished == [] && log == []
      modifies this`executedNodes, this`finished, this`log
      ensures Progress(f, executedNodes, finished, {}) && Resolved(f, log, executedNodes, finished)
      ensures ExecGrows(f, [], finished, Elements(demanding))
    {
      ExecGrowsByNothing(f, [], {});
      assert Elements(demanding[..0]) == {};
      for k := 0 to |demanding|
        invariant Progress(f, executedNodes, finished, {}) && Resolved(f, log, executedNodes, finished)
        invariant ExecGrows(f, [], finished, Elements(demanding[..k]))
      {
        ghost var middle := finished;
        var _ := ExecuteNodeOnce(f, demanding[k], {});
        ExecGrowsOn(f, [], middle, finished, Elements(demanding[..k]), {demanding[k]});
        assert Elements(demanding[..k + 1]) == Elements(demanding[..k]) + {demanding[k]};
      }
      assert demanding[..|demanding|] == demanding;
    }
  }

  lemma ResolvedSourcesAppend(f: Frame, a: seq<Connection>, b: seq<Connection>)
    ensures ResolvedSources(f, a + b) == ResolvedSources(f, a) + ResolvedSources(f, b)
  {
  }

  lemma BlendedFronts(r: Record, t: real)
    ensures Fronts(r, Blended(t)) ==
            if t <= 0.0 then Front(r, A) else if t >= 1.0 then Front(r, B) else Front(r, A) + Front(r, B)
  {
    assert Fronts(r, [A]) == Front(r, A) + Fronts(r, [A][1..]);
    assert Fronts(r, [B]) == Front(r, B) + Fronts(r, [B][1..]);
    assert [A, B][1..] == [B];
    assert Fronts(r, [A, B]) == Front(r, A) + Fronts(r, [B]);
  }

  lemma TakesOneMore(list: seq<Connection>, k: nat)
    requires k < |list|
    ensures list[..k] + [list[k]] == list[..k + 1]
  {
  }

  lemma SourcesGrow(list: seq<Connection>, k: nat)
    requires k < |list|
    ensures Sources(Elements(list[..k + 1])) == Sources(Elements(list[..k])) + {list[k].fromNode}
  {
    assert list[..k + 1] == list[..k] + [list[k]];
    assert Elements(list[..k + 1]) == Elements(list[..k]) + {list[k]};
  }

  ghost function InputsAmong(f: Frame, id: Name, interfaces: set<Name>): set<Connection>
    requires id in f.nodes
  {
    set i, c | i in f.nodes[id].links && i in interfaces && IsInput(f, id, i) && c in f.nodes[id].links[i] :: c
  }

  lemma InputsAmongGrow(f: Frame, id: Name, done: set<Name>, i: Name)
    requires id in f.nodes && f.nodes[id].kind in f.definitions
    requires i in f.definitions[f.nodes[id].kind].interfaces
    ensures Sources(InputsAmong(f, id, done + {i})) ==
            Sources(InputsAmong(f, id, done))
            + if IsInput(f, id, i) then Sources(Listed(f.nodes[id], i)) else {}
  {
    var r := f.nodes[id];
    assert InputsAmong(f, id, done + {i}) ==
           InputsAmong(f, id, done) + if IsInput(f, id, i) then Listed(r, i) else {};
  }

  lemma {:induction false} AllListedGrows(r: Record, inputs: seq<Name>, i: Name)
    ensures AllListed(r, inputs + [i]) == AllListed(r, inputs) + Listed(r, i)
  {
    if inputs == [] {
      assert inputs + [i] == [i];
      assert [i][1..] == [];
      assert AllListed(r, [i]) == Listed(r, i) + AllListed(r, []);
    } else {
      AllListedGrows(r, inputs[1..], i);
      assert (inputs + [i])[1..] == inputs[1..] + [i];
    }
  }
}
