/** The node manager as the object the source updates in place. */
module NodeManager {
  import opened Common
  import opened Options
  import opened NodeGraph
  import opened NodeGraphSafety

  // The search for a cycle walks from the new connection's source upstream, over the lists of the input
  // interfaces. It finds the target exactly when a path already leads from the target to the source.
  method IsConnectionCircular(ghost g: Graph, definitions: Definitions, nodes: Nodes, target: Name, con: Connection)
    returns (circular: bool)
    requires definitions == g.definitions && nodes == g.nodes
    requires Defined(g) && Lists(g) && Sound(g)
    ensures circular <==> Reach(g.connections, target, con.fromNode)
  {
    var stack, visited: set<Name> := [con.fromNode], {};
    ghost var all := nodes.Keys + {con.fromNode};
    ReachSelf(g.connections, con.fromNode);
    while stack != []
      invariant visited <= all && (forall n :: n in stack ==> n in all)
      invariant forall n :: n in visited || n in stack ==> Reach(g.connections, n, con.fromNode)
      invariant forall m, n :: n in visited && Linked(g.connections, m, n) ==> m in visited || m in stack
      invariant con.fromNode in visited || con.fromNode in stack
      invariant target !in visited
      decreases all - visited, |stack|
    {
      var id := stack[|stack| - 1];
      ghost var before := stack;
      assert id in stack;
      stack := stack[..|stack| - 1];
      assert before == stack + [id];
      if id in visited {
        continue;
      }
      visited := visited + {id};
      if id == target {
        return true;
      }
      if id !in nodes {
        forall m | Linked(g.connections, m, id) ensures false {
          NoLinksOutsideNodes(g, m, id);
        }
        continue;
      }
      stack := PushSources(g, definitions, nodes, id, visited, stack);
      forall m | m in stack ensures Reach(g.connections, m, con.fromNode) && m in all {
        if m !in before {
          NoLinksOutsideNodes(g, m, id);
          ReachStep(g.connections, m, id, con.fromNode);
        }
      }
    }
    forall p | Path(g.connections, p) && p[|p| - 1] == con.fromNode ensures p[0] in visited {
      UpstreamIsVisited(g.connections, visited, p);
    }
    circular := false;
  }

  lemma NoLinksOutsideNodes(g: Graph, m: Name, n: Name)
    requires Sound(g) && Linked(g.connections, m, n)
    ensures m in g.nodes && n in g.nodes
  {
    var c :| c in g.connections && c.fromNode == m && c.toNode == n;
    assert WellTyped(g, c);
  }

  lemma {:induction false} UpstreamIsVisited(cons: seq<Connection>, visited: set<Name>, p: seq<Name>)
    requires Path(cons, p) && p[|p| - 1] in visited
    requires forall m, n :: n in visited && Linked(cons, m, n) ==> m in visited
    ensures p[0] in visited
    decreases |p|
  {
    if |p| > 1 {
      PathTail(cons, p);
      UpstreamIsVisited(cons, visited, p[1..]);
    }
  }

  method PushSources(ghost g: Graph, definitions: Definitions, nodes: Nodes, id: Name, visited: set<Name>,
                     stack: seq<Name>)
    returns (pushed: seq<Name>)
    requires definitions == g.definitions && nodes == g.nodes && id in nodes
    requires Defined(g) && Lists(g) && Sound(g)
    ensures forall m :: m in stack ==> m in pushed
    ensures forall m :: m in pushed ==> m in stack || Linked(g.connections, m, id)
    ensures forall m :: Linked(g.connections, m, id) ==> m in visited || m in pushed
  {
    pushed := stack;
    assert DefinedRecord(g.definitions, nodes[id]);
    var interfaces := definitions[nodes[id].kind].interfaces;
    var rest := interfaces.Keys;
    while rest != {}
      invariant rest <= interfaces.Keys
      invariant forall m :: m in stack ==> m in pushed
      invariant forall m :: m in pushed ==> m in stack || Linked(g.connections, m, id)
      invariant forall c :: c in g.connections && c.toNode == id && c.toInterface !in rest
                            ==> c.fromNode in visited || c.fromNode in pushed
      decreases rest
    {
      var i :| i in rest;
      rest := rest - {i};
      ghost var before := pushed;
      if interfaces[i].direction.Output? {
        forall c | c in g.connections && c.toNode == id ensures c.toInterface != i {
          assert WellTyped(g, c);
        }
        continue;
      }
      var list := nodes[id].links[i];
      assert list == ListOf(g.connections, id, i);
      pushed := PushUnvisited(list, visited, pushed);
      forall m | m in pushed ensures m in stack || Linked(g.connections, m, id) {
        if m !in before {
          var c :| c in list && c.fromNode == m;
          ListOfContents(g.connections, id, i, c);
          assert WellTyped(g, c);
        }
      }
      forall c | c in g.connections && c.toNode == id && c.toInterface == i
        ensures c.fromNode in visited || c.fromNode in pushed
      {
        ListOfContents(g.connections, id, i, c);
      }
    }
    forall m | Linked(g.connections, m, id) ensures m in visited || m in pushed {
      var c :| c in g.connections && c.fromNode == m && c.toNode == id;
      assert WellTyped(g, c);
    }
  }

  method PushUnvisited(list: seq<Connection>, visited: set<Name>, stack: seq<Name>) returns (pushed: seq<Name>)
    ensures forall m :: m in stack ==> m in pushed
    ensures forall m :: m in pushed ==> m in stack || exists c :: c in list && c.fromNode == m
    ensures forall c :: c in list ==> c.fromNode in visited || c.fromNode in pushed
  {
    pushed := stack;
    for k := 0 to |list|
      invariant forall m :: m in stack ==> m in pushed
      invariant forall m :: m in pushed ==> m in stack || exists c :: c in list && c.fromNode == m
      invariant forall c :: c in list[..k] ==> c.fromNode in visited || c.fromNode in pushed
    {
      if list[k].fromNode !in visited {
        pushed := pushed + [list[k].fromNode];
      }
      assert list[..k + 1] == list[..k] + [list[k]];
    }
    assert list[..|list|] == list;
  }

  // std::erase on an interface's list.
  method EraseConnection(list: seq<Connection>, c: Connection) returns (left: seq<Connection>)
    ensures left == Without(list, {c})
  {
    left := [];
    for k := 0 to |list|
      invariant left == Without(list[..k], {c})
    {
      WithoutLast(list[..k], {c}, list[k]);
      assert list[..k + 1] == list[..k] + [list[k]];
      if list[k] != c {
        left := left + [list[k]];
      }
    }
    assert list[..|list|] == list;
  }

  lemma {:induction false} WithoutLast(cons: seq<Connection>, doomed: set<Connection>, c: Connection)
    ensures Without(cons + [c], doomed) == Without(cons, doomed) + if c in doomed then [] else [c]
  {
    if cons == [] {
      assert cons + [c] == [c];
    } else {
      WithoutLast(cons[1..], doomed, c);
      assert (cons + [c])[1..] == cons[1..] + [c];
    }
  }

  // An interface takes a connection on, and says which one that displaces.
  method AcceptConnection(iface: Interface, list: seq<Connection>, c: Connection, removed: seq<Connection>)
    returns (longer: seq<Connection>, displaced: seq<Connection>)
    requires SoundInterface(iface)
    ensures longer == list + [c]
    ensures Elements(displaced) == Elements(removed) + Displaced(list, iface.cap)
  {
    displaced := removed;
    if iface.cap == Some(|list|) {
      displaced := displaced + [list[0]];
    }
    longer := list + [c];
  }

  ghost predicate ListsOf(nodes: Nodes, cons: seq<Connection>) {
    forall n, i :: n in nodes && i in nodes[n].links ==> nodes[n].links[i] == ListOf(cons, n, i)
  }

  ghost predicate EndsListed(nodes: Nodes, c: Connection) {
    && c.fromNode in nodes && c.fromInterface in nodes[c.fromNode].links
    && c.toNode in nodes && c.toInterface in nodes[c.toNode].links
  }

  // The interfaces' lists and the connection list agree.
  ghost predicate Synced(nodes: Nodes, cons: seq<Connection>) {
    ListsOf(nodes, cons) && forall c :: c in cons ==> EndsListed(nodes, c)
  }

  lemma CoreIsSynced(g: Graph)
    requires Defined(g) && Lists(g) && Sound(g)
    ensures Synced(g.nodes, g.connections)
  {
    forall c | c in g.connections ensures EndsListed(g.nodes, c) {
      assert WellTyped(g, c);
      assert DefinedRecord(g.definitions, g.nodes[c.fromNode]);
      assert DefinedRecord(g.definitions, g.nodes[c.toNode]);
    }
  }

  lemma DropKeepsSynced(g: Graph, doomed: set<Connection>)
    requires Synced(g.nodes, g.connections)
    ensures Synced(Drop(g, doomed).nodes, Drop(g, doomed).connections)
  {
    DropKeepsLists(g, doomed);
    var h := Drop(g, doomed);
    forall c | c in h.connections ensures EndsListed(h.nodes, c) {
      WithoutContents(g.connections, doomed, c);
      assert EndsListed(g.nodes, c);
    }
  }

  lemma DropNothing(g: Graph)
    ensures Drop(g, {}) == g
  {
    forall n | n in g.nodes ensures NodesWithout(g.nodes, {})[n] == g.nodes[n] {
      forall i | i in g.nodes[n].links ensures Without(g.nodes[n].links[i], {}) == g.nodes[n].links[i] {
        WithoutNothing(g.nodes[n].links[i], {});
      }
      assert LinksWithout(g.nodes[n].links, {}) == g.nodes[n].links;
    }
    WithoutNothing(g.connections, {});
    assert NodesWithout(g.nodes, {}) == g.nodes;
    assert g.dirty + Endpoints({}) == g.dirty;
  }

  lemma DropTwice(g: Graph, a: set<Connection>, b: set<Connection>)
    ensures Drop(Drop(g, a), b) == Drop(g, a + b)
  {
    forall n | n in g.nodes
      ensures LinksWithout(LinksWithout(g.nodes[n].links, a), b) == LinksWithout(g.nodes[n].links, a + b)
    {
      forall i | i in g.nodes[n].links
        ensures Without(Without(g.nodes[n].links[i], a), b) == Without(g.nodes[n].links[i], a + b)
      {
        WithoutTwice(g.nodes[n].links[i], a, b);
      }
    }
    NodesWithoutTwice(g.nodes, a, b);
    WithoutTwice(g.connections, a, b);
    assert Endpoints(a + b) == Endpoints(a) + Endpoints(b);
    assert g.dirty + Endpoints(a) + Endpoints(b) == g.dirty + Endpoints(a + b);
  }

  lemma NodesWithoutTwice(nodes: Nodes, a: set<Connection>, b: set<Connection>)
    requires forall n :: n in nodes ==>
               LinksWithout(LinksWithout(nodes[n].links, a), b) == LinksWithout(nodes[n].links, a + b)
    ensures NodesWithout(NodesWithout(nodes, a), b) == NodesWithout(nodes, a + b)
  {
  }

  // Taking connections out one at a time amounts to taking them out together.
  lemma RemoveOneMore(g: Graph, done: set<Connection>, c: Connection)
    requires c in g.connections
    ensures RemoveConnection(Drop(g, done), c) == Drop(g, done + {c})
  {
    WithoutContents(g.connections, done, c);
    if c in done {
      assert done + {c} == done;
    } else {
      DropTwice(g, done, {c});
    }
  }

  // Everything in the lists of a node's interfaces.
  method CollectConnections(links: Links, interfaces: set<Name>) returns (found: seq<Connection>)
    requires interfaces <= links.Keys
    ensures forall c :: c in found <==> exists i :: i in interfaces && c in links[i]
  {
    found := [];
    ghost var done: set<Name> := {};
    var rest := interfaces;
    while rest != {}
      invariant done !! rest && done + rest == interfaces
      invariant forall c :: c in found <==> exists i :: i in done && c in links[i]
      decreases rest
    {
      var i :| i in rest;
      found := found + links[i];
      rest, done := rest - {i}, done + {i};
    }
    assert done == interfaces;
  }

  lemma CollectedAreConnections(g: Graph, id: Name, found: seq<Connection>)
    requires Synced(g.nodes, g.connections) && id in g.nodes
    requires forall c :: c in found <==> exists i :: i in g.nodes[id].links && c in g.nodes[id].links[i]
    ensures Elements(found) == ConnectionsOf(g, id)
  {
    var links := g.nodes[id].links;
    forall c ensures c in found <==> c in ConnectionsOf(g, id) {
      if c in found {
        var i :| i in links && c in links[i];
        ListOfContents(g.connections, id, i, c);
      }
      if c in g.connections && (c.fromNode == id || c.toNode == id) {
        assert EndsListed(g.nodes, c);
        var i := if c.fromNode == id then c.fromInterface else c.toInterface;
        ListOfContents(g.connections, id, i, c);
        assert i in links && c in links[i];
      }
    }
  }

  ghost function LinkedAt(nodes: Nodes, id: Name, i: Name, c: Connection): Nodes
    requires id in nodes && i in nodes[id].links
  {
    nodes[id := nodes[id].(links := nodes[id].links[i := nodes[id].links[i] + [c]])]
  }

  // Appending a connection to the lists of its two, different, ends.
  lemma LinkedAtBothEnds(nodes: Nodes, c: Connection)
    requires EndsListed(nodes, c) && (c.fromNode != c.toNode || c.fromInterface != c.toInterface)
    ensures LinkedAt(LinkedAt(nodes, c.fromNode, c.fromInterface, c), c.toNode, c.toInterface, c)
            == NodesWith(nodes, c)
  {
    var both := LinkedAt(LinkedAt(nodes, c.fromNode, c.fromInterface, c), c.toNode, c.toInterface, c);
    forall n | n in nodes ensures both[n] == nodes[n].(links := LinksWith(nodes[n].links, n, c)) {
      assert both[n].links == LinksWith(nodes[n].links, n, c);
    }
  }

  lemma AppendKeepsSynced(g: Graph, c: Connection)
    requires Synced(g.nodes, g.connections) && EndsListed(g.nodes, c)
    ensures Synced(Append(g, c).nodes, Append(g, c).connections)
  {
    AppendKeepsLists(g, c);
    var h := Append(g, c);
    forall d | d in h.connections ensures EndsListed(h.nodes, d) {
      assert EndsListed(g.nodes, d);
    }
  }

  lemma Joinable(g: Graph, c: Connection)
    requires SoundDefinitions(g.definitions) && Defined(g) && Lists(g) && Sound(g) && WellTyped(g, c)
    ensures Synced(g.nodes, g.connections) && EndsListed(g.nodes, c)
    ensures c.fromNode != c.toNode || c.fromInterface != c.toInterface
    ensures SoundInterface(InterfaceOf(g, c.fromNode, c.fromInterface))
    ensures SoundInterface(InterfaceOf(g, c.toNode, c.toInterface))
    ensures Evicted(g, c) == Displaced(g.nodes[c.fromNode].links[c.fromInterface],
                                       InterfaceOf(g, c.fromNode, c.fromInterface).cap)
                             + Displaced(g.nodes[c.toNode].links[c.toInterface],
                                         InterfaceOf(g, c.toNode, c.toInterface).cap)
    ensures forall d :: d in Evicted(g, c) ==> d in g.connections
  {
    CoreIsSynced(g);
    assert DefinedRecord(g.definitions, g.nodes[c.fromNode]) && DefinedRecord(g.definitions, g.nodes[c.toNode]);
    EvictedAreListed(g, c);
  }

  class NodeManager {
    const definitions: Definitions
    var nodes: Nodes
    var nodesCopy: Nodes
    var dirtyNodes: set<Name>
    var removedNodes: set<Name>
    var connections: seq<Connection>
    var made: nat

    ghost function View(): Graph
      reads this
    {
      Graph(definitions, nodes, connections, nodesCopy, dirtyNodes, removedNodes, made)
    }

    constructor (definitions: Definitions)
      requires SoundDefinitions(definitions)
      ensures View() == Init(definitions)
    {
      this.definitions := definitions;
      nodes, nodesCopy, dirtyNodes, removedNodes, connections, made := map[], map[], {}, {}, [], 0;
      new;
      EmptyCore(definitions);
      var error := HandleAddNode(SETTINGS_TYPE, SETTINGS_ID, Object(map[]));
    }

    method HandleAddNode(kind: Name, id: Name, options: Json) returns (error: Error)
      modifies this
      ensures error == AddNodeError(old(View()), kind, id, options)
      ensures View() == AddNode(old(View()), kind, id, options)
    {
      if (id == SETTINGS_ID) != (kind == SETTINGS_TYPE) {
        return InvalidType;
      }
      if id in nodes {
        return DuplicateId;
      }
      if kind !in definitions {
        return InvalidType;
      }
      var definition := definitions[kind];
      var rule := RuleOf(definition.schema);
      var defaultError, corrected, defaults := SetOptions(rule, map[], Object(definition.defaults));
      if !defaultError.NoError? || corrected {
        return InternalError;
      }
      var optionsError, _, all := SetOptions(rule, defaults, options);
      if !optionsError.NoError? {
        return optionsError;
      }
      nodes := nodes[id := Record(kind, made, NoLinks(definition), all)];
      dirtyNodes := dirtyNodes + {id};
      made := made + 1;
      return NoError;
    }

    method HandleUpdateNode(id: Name, options: Json) returns (error: Error, corrected: bool)
      requires Defined(View())
      modifies this
      ensures error == UpdateNodeError(old(View()), id, options)
      ensures View() == UpdateNode(old(View()), id, options)
    {
      corrected := false;
      if id !in nodes {
        return NotFound, false;
      }
      var r := nodes[id];
      assert DefinedRecord(definitions, r);
      var updated;
      error, corrected, updated := SetOptions(RuleOf(definitions[r.kind].schema), r.options, options);
      if error.NoError? {
        nodes := nodes[id := r.(options := updated)];
        dirtyNodes := dirtyNodes + {id};
      }
    }

    method RemoveFromInterface(id: Name, i: Name, c: Connection)
      requires id in nodes && i in nodes[id].links
      modifies this`nodes
      ensures nodes == old(nodes)[id := old(nodes)[id].(links :=
                         old(nodes)[id].links[i := Without(old(nodes)[id].links[i], {c})])]
    {
      var r := nodes[id];
      var left := EraseConnection(r.links[i], c);
      nodes := nodes[id := r.(links := r.links[i := left])];
    }

    method RemoveConnectionLocked(c: Connection) returns (error: Error)
      requires Synced(nodes, connections)
      modifies this
      ensures error == RemoveConnectionError(old(View()), c)
      ensures View() == RemoveConnection(old(View()), c)
    {
      if c !in connections {
        return NotFound;
      }
      ghost var g := View();
      RemoveFromInterface(c.fromNode, c.fromInterface, c);
      RemoveFromInterface(c.toNode, c.toInterface, c);
      connections := EraseConnection(connections, c);
      dirtyNodes := dirtyNodes + {c.fromNode, c.toNode};
      RemovedByParts(g, c, nodes);
      return NoError;
    }

    method HandleRemoveConnection(c: Connection) returns (error: Error)
      requires Synced(nodes, connections)
      modifies this
      ensures error == RemoveConnectionError(old(View()), c)
      ensures View() == RemoveConnection(old(View()), c)
    {
      error := RemoveConnectionLocked(c);
    }

    // Remove connections one by one.
    method RemoveAll(doomed: seq<Connection>)
      requires Synced(nodes, connections) && forall c :: c in doomed ==> c in connections
      modifies this
      ensures View() == Drop(old(View()), Elements(doomed))
    {
      ghost var g := View();
      DropNothing(g);
      assert Elements(doomed[..0]) == {};
      for k := 0 to |doomed|
        invariant View() == Drop(g, Elements(doomed[..k]))
      {
        DropKeepsSynced(g, Elements(doomed[..k]));
        RemoveOneMore(g, Elements(doomed[..k]), doomed[k]);
        var error := RemoveConnectionLocked(doomed[k]);
        ElementsOfLonger(doomed, k);
      }
      assert doomed[..|doomed|] == doomed;
    }

    method HandleRemoveNode(id: Name) returns (error: Error)
      requires Defined(View()) && Synced(nodes, connections)
      modifies this
      ensures error == RemoveNodeError(old(View()), id)
      ensures View() == RemoveNode(old(View()), id)
    {
      if id == SETTINGS_ID {
        return InvalidType;
      }
      if id !in nodes {
        return NotFound;
      }
      assert DefinedRecord(definitions, nodes[id]);
      var doomed := CollectConnections(nodes[id].links, definitions[nodes[id].kind].interfaces.Keys);
      CollectedAreConnections(View(), id, doomed);
      assert forall c :: c in doomed ==> c in Elements(doomed);
      RemoveAll(doomed);
      removedNodes := removedNodes + {id};
      nodes := nodes - {id};
      return NoError;
    }

    method LinkUp(id: Name, i: Name, iface: Interface, c: Connection, removed: seq<Connection>)
      returns (displaced: seq<Connection>)
      requires id in nodes && i in nodes[id].links && SoundInterface(iface)
      modifies this`nodes
      ensures nodes == LinkedAt(old(nodes), id, i, c)
      ensures Elements(displaced) == Elements(removed) + Displaced(old(nodes[id].links[i]), iface.cap)
    {
      var r := nodes[id];
      var longer;
      longer, displaced := AcceptConnection(iface, r.links[i], c, removed);
      nodes := nodes[id := r.(links := r.links[i := longer])];
    }

    method HandleAddConnection(con: Connection) returns (error: Error)
      requires SoundDefinitions(definitions) && Defined(View()) && Lists(View()) && Sound(View())
      modifies this
      ensures error == AddConnectionError(old(View()), con)
      ensures View() == AddConnection(old(View()), con)
    {
      ghost var g := View();
      if con in connections {
        return DuplicateId;
      }
      if con.fromNode !in nodes || con.toNode !in nodes {
        return NotFound;
      }
      assert DefinedRecord(definitions, nodes[con.fromNode]) && DefinedRecord(definitions, nodes[con.toNode]);
      var fromInterfaces := definitions[nodes[con.fromNode].kind].interfaces;
      var toInterfaces := definitions[nodes[con.toNode].kind].interfaces;
      if con.fromInterface !in fromInterfaces || con.toInterface !in toInterfaces {
        return NotFound;
      }
      var c, from, to := con, fromInterfaces[con.fromInterface], toInterfaces[con.toInterface];
      if from.direction.Input? && to.direction.Output? {
        c, from, to := Swapped(con), to, from;
        if c in connections {
          return DuplicateId;
        }
      } else if from.direction.Input? || to.direction.Output? {
        return InvalidType;
      }
      assert c == Oriented(g, con);
      if !Accepts(to, from.kind) {
        return InvalidType;
      }
      var circular := IsConnectionCircular(g, definitions, nodes, c.toNode, c);
      if circular {
        return CircularConnection;
      }
      Joinable(g, c);
      Join(c, from, to, Evicted(g, c));
      return NoError;
    }

    // Enter an accepted connection in the connection list and both interfaces' lists, then evict.
    method Join(c: Connection, from: Interface, to: Interface, ghost gone: set<Connection>)
      requires Synced(nodes, connections) && EndsListed(nodes, c)
      requires c.fromNode != c.toNode || c.fromInterface != c.toInterface
      requires SoundInterface(from) && SoundInterface(to)
      requires gone == Displaced(nodes[c.fromNode].links[c.fromInterface], from.cap)
                       + Displaced(nodes[c.toNode].links[c.toInterface], to.cap)
      requires forall d :: d in gone ==> d in connections
      modifies this
      ensures View() == Drop(Append(old(View()), c), gone)
    {
      ghost var g := View();
      LinkedAtBothEnds(nodes, c);
      AppendKeepsSynced(g, c);
      connections := connections + [c];
      var displaced := LinkUp(c.fromNode, c.fromInterface, from, c, []);
      displaced := LinkUp(c.toNode, c.toInterface, to, c, displaced);
      dirtyNodes := dirtyNodes + {c.fromNode, c.toNode};
      assert View() == Append(g, c);
      assert Elements(displaced) == gone;
      assert forall d :: d in displaced ==> d in Elements(displaced);
      RemoveAll(displaced);
    }

    // The start of a frame: bring the render thread's copy up to date.
    method RefreshSnapshot()
      modifies this
      ensures View() == Tick(old(View()))
    {
      if dirtyNodes == {} && removedNodes == {} {
        assert Refreshed(View()) == nodesCopy;
        return;
      }
      ghost var g := View();
      EraseRemoved();
      CopyDirty();
      assert nodesCopy == Refreshed(g);
      dirtyNodes, removedNodes := {}, {};
    }

    method EraseRemoved()
      modifies this`nodesCopy
      ensures nodesCopy == old(nodesCopy) - removedNodes
    {
      ghost var was := nodesCopy;
      ghost var done: set<Name> := {};
      var rest := removedNodes;
      while rest != {}
        invariant done !! rest && done + rest == removedNodes
        invariant nodesCopy == was - done
        decreases rest
      {
        var id :| id in rest;
        nodesCopy := nodesCopy - {id};
        rest, done := rest - {id}, done + {id};
      }
      assert done == removedNodes;
    }

    method CopyDirty()
      modifies this`nodesCopy
      ensures nodesCopy == old(nodesCopy) + (map n | n in dirtyNodes && n in nodes :: nodes[n])
    {
      ghost var was := nodesCopy;
      ghost var done: set<Name> := {};
      var rest := dirtyNodes;
      while rest != {}
        invariant done !! rest && done + rest == dirtyNodes
        invariant nodesCopy == was + (map n | n in done && n in nodes :: nodes[n])
        decreases rest
      {
        var id :| id in rest;
        if id in nodes {
          nodesCopy := nodesCopy[id := nodes[id]];
        }
        rest, done := rest - {id}, done + {id};
      }
      assert done == dirtyNodes;
    }
  }

  ghost function ErasedAt(nodes: Nodes, id: Name, i: Name, c: Connection): Nodes
    requires id in nodes && i in nodes[id].links
  {
    nodes[id := nodes[id].(links := nodes[id].links[i := Without(nodes[id].links[i], {c})])]
  }

  // Erasing a connection from the lists of its two ends erases it from every list.
  lemma ErasedFromBothEnds(nodes: Nodes, cons: seq<Connection>, c: Connection, left: Nodes)
    requires ListsOf(nodes, cons)
    requires c.fromNode in nodes && c.fromInterface in nodes[c.fromNode].links
    requires
      var once := ErasedAt(nodes, c.fromNode, c.fromInterface, c);
      c.toNode in once && c.toInterface in once[c.toNode].links
      && left == ErasedAt(once, c.toNode, c.toInterface, c)
    ensures left == NodesWithout(nodes, {c})
  {
    forall n | n in nodes ensures n in left && left[n] == nodes[n].(links := LinksWithout(nodes[n].links, {c})) {
      ErasedNode(nodes, cons, c, left, n);
    }
  }

  lemma ErasedNode(nodes: Nodes, cons: seq<Connection>, c: Connection, left: Nodes, n: Name)
    requires ListsOf(nodes, cons) && n in nodes
    requires c.fromNode in nodes && c.fromInterface in nodes[c.fromNode].links
    requires
      var once := ErasedAt(nodes, c.fromNode, c.fromInterface, c);
      c.toNode in once && c.toInterface in once[c.toNode].links
      && left == ErasedAt(once, c.toNode, c.toInterface, c)
    ensures n in left && left[n] == nodes[n].(links := LinksWithout(nodes[n].links, {c}))
  {
    ErasingTouchesLists(nodes, c.fromNode, c.fromInterface, c, n);
    ErasingTouchesLists(ErasedAt(nodes, c.fromNode, c.fromInterface, c), c.toNode, c.toInterface, c, n);
    forall i | i in nodes[n].links
      ensures i in left[n].links && left[n].links[i] == Without(nodes[n].links[i], {c})
    {
      ErasedList(nodes, cons, c, left, n, i);
    }
    assert left[n].links == LinksWithout(nodes[n].links, {c});
  }

  // Erasing a connection from one list changes nothing else of any node.
  lemma ErasingTouchesLists(nodes: Nodes, id: Name, i: Name, c: Connection, n: Name)
    requires id in nodes && i in nodes[id].links && n in nodes
    ensures var left := ErasedAt(nodes, id, i, c);
            n in left && left[n].links.Keys == nodes[n].links.Keys && left[n] == nodes[n].(links := left[n].links)
  {
  }

  lemma RemovedByParts(g: Graph, c: Connection, left: Nodes)
    requires ListsOf(g.nodes, g.connections) && c in g.connections
    requires c.fromNode in g.nodes && c.fromInterface in g.nodes[c.fromNode].links
    requires
      var once := ErasedAt(g.nodes, c.fromNode, c.fromInterface, c);
      c.toNode in once && c.toInterface in once[c.toNode].links
      && left == ErasedAt(once, c.toNode, c.toInterface, c)
    ensures RemoveConnection(g, c) ==
            g.(nodes := left, connections := Without(g.connections, {c}), dirty := g.dirty + {c.fromNode, c.toNode})
  {
    ErasedFromBothEnds(g.nodes, g.connections, c, left);
    assert Endpoints({c}) == {c.fromNode, c.toNode};
  }

  lemma ErasedList(nodes: Nodes, cons: seq<Connection>, c: Connection, left: Nodes, n: Name, i: Name)
    requires n in nodes && i in nodes[n].links && nodes[n].links[i] == ListOf(cons, n, i)
    requires c.fromNode in nodes && c.fromInterface in nodes[c.fromNode].links
    requires
      var once := ErasedAt(nodes, c.fromNode, c.fromInterface, c);
      c.toNode in once && c.toInterface in once[c.toNode].links
      && left == ErasedAt(once, c.toNode, c.toInterface, c)
    ensures n in left && i in left[n].links
    ensures left[n].links[i] == Without(nodes[n].links[i], {c})
  {
    var list := nodes[n].links[i];
    WithoutTwice(list, {c}, {c});
    assert {c} + {c} == {c};
    if !Touches(c, n, i) {
      ListOfContents(cons, n, i, c);
      WithoutNothing(list, {c});
    }
  }
}
