/** Every reachable graph satisfies the invariant: consistent lists, capped interfaces, no cycles, exact snapshots. */
module NodeGraphSafety {
  import opened Common
  import opened Options
  import opened NodeGraph

  /** Connection lists. */

  lemma {:induction false} ListOfContents(cons: seq<Connection>, n: Name, i: Name, c: Connection)
    ensures c in ListOf(cons, n, i) <==> c in cons && Touches(c, n, i)
  {
    if cons != [] {
      ListOfContents(cons[1..], n, i, c);
      assert cons == [cons[0]] + cons[1..];
    }
  }

  lemma {:induction false} ListOfUntouched(cons: seq<Connection>, n: Name, i: Name)
    requires forall c :: c in cons ==> !Touches(c, n, i)
    ensures ListOf(cons, n, i) == []
  {
    if cons != [] {
      assert forall c :: c in cons[1..] ==> c in cons;
      ListOfUntouched(cons[1..], n, i);
    }
  }

  lemma {:induction false} ListOfAppend(cons: seq<Connection>, c: Connection, n: Name, i: Name)
    ensures ListOf(cons + [c], n, i) == ListOf(cons, n, i) + if Touches(c, n, i) then [c] else []
  {
    if cons == [] {
      assert cons + [c] == [c];
    } else {
      ListOfAppend(cons[1..], c, n, i);
      assert (cons + [c])[1..] == cons[1..] + [c];
    }
  }

  lemma {:induction false} WithoutContents(cons: seq<Connection>, doomed: set<Connection>, c: Connection)
    ensures c in Without(cons, doomed) <==> c in cons && c !in doomed
  {
    if cons != [] {
      WithoutContents(cons[1..], doomed, c);
      assert cons == [cons[0]] + cons[1..];
    }
  }

  lemma {:induction false} WithoutShortens(cons: seq<Connection>, doomed: set<Connection>)
    ensures |Without(cons, doomed)| <= |cons|
    ensures (exists c :: c in cons && c in doomed) ==> |Without(cons, doomed)| < |cons|
  {
    if cons != [] {
      WithoutShortens(cons[1..], doomed);
      assert cons == [cons[0]] + cons[1..];
    }
  }

  lemma {:induction false} WithoutDistinct(cons: seq<Connection>, doomed: set<Connection>)
    requires Distinct(cons)
    ensures Distinct(Without(cons, doomed))
  {
    if cons != [] {
      WithoutDistinct(cons[1..], doomed);
      WithoutContents(cons[1..], doomed, cons[0]);
      assert cons[0] !in cons[1..];
    }
  }

  lemma ListOfHead(c: Connection, tail: seq<Connection>, n: Name, i: Name)
    ensures ListOf([c] + tail, n, i) == (if Touches(c, n, i) then [c] else []) + ListOf(tail, n, i)
  {
    assert ([c] + tail)[1..] == tail;
  }

  lemma WithoutHead(c: Connection, tail: seq<Connection>, doomed: set<Connection>)
    ensures Without([c] + tail, doomed) == (if c in doomed then [] else [c]) + Without(tail, doomed)
  {
    assert ([c] + tail)[1..] == tail;
  }

  lemma {:induction false} ListOfWithout(cons: seq<Connection>, doomed: set<Connection>, n: Name, i: Name)
    ensures ListOf(Without(cons, doomed), n, i) == Without(ListOf(cons, n, i), doomed)
  {
    if cons != [] {
      var c, tail := cons[0], cons[1..];
      ListOfWithout(tail, doomed, n, i);
      ListOfHead(c, Without(tail, doomed), n, i);
      WithoutHead(c, ListOf(tail, n, i), doomed);
      assert [] + Without(tail, doomed) == Without(tail, doomed);
      assert [] + ListOf(tail, n, i) == ListOf(tail, n, i);
    }
  }

  lemma {:induction false} WithoutNothing(cons: seq<Connection>, doomed: set<Connection>)
    requires forall c :: c in cons ==> c !in doomed
    ensures Without(cons, doomed) == cons
  {
    if cons != [] {
      assert forall c :: c in cons[1..] ==> c in cons;
      WithoutNothing(cons[1..], doomed);
    }
  }

  lemma {:induction false} WithoutTwice(cons: seq<Connection>, a: set<Connection>, b: set<Connection>)
    ensures Without(Without(cons, a), b) == Without(cons, a + b)
  {
    if cons != [] {
      WithoutTwice(cons[1..], a, b);
      WithoutHead(cons[0], Without(cons[1..], a), b);
      assert [] + Without(cons[1..], a) == Without(cons[1..], a);
    }
  }

  /** Paths and cycles. */

  lemma PathGrows(p: seq<Name>, a: Name, cons: seq<Connection>)
    requires Path(cons, p) && Linked(cons, a, p[0])
    ensures Path(cons, [a] + p)
  {
    var q := [a] + p;
    forall k | 0 <= k < |q| - 1 ensures Linked(cons, q[k], q[k + 1]) {
      if k > 0 { assert Linked(cons, p[k - 1], p[k - 1 + 1]); }
    }
  }

  lemma ReachSelf(cons: seq<Connection>, a: Name)
    ensures Reach(cons, a, a)
  {
    assert Path(cons, [a]);
  }

  lemma ReachStep(cons: seq<Connection>, a: Name, b: Name, c: Name)
    requires Linked(cons, a, b) && Reach(cons, b, c)
    ensures Reach(cons, a, c)
  {
    var p :| Path(cons, p) && p[0] == b && p[|p| - 1] == c;
    PathGrows(p, a, cons);
    var q := [a] + p;
    assert q[0] == a && q[|q| - 1] == c;
  }

  lemma PathTail(cons: seq<Connection>, p: seq<Name>)
    requires Path(cons, p) && 1 < |p|
    ensures Linked(cons, p[0], p[1]) && Path(cons, p[1..])
  {
    assert Linked(cons, p[0], p[0 + 1]);
    forall k | 0 <= k < |p[1..]| - 1 ensures Linked(cons, p[1..][k], p[1..][k + 1]) {
      var j := k + 1;
      assert Linked(cons, p[j], p[j + 1]);
    }
  }

  lemma {:induction false} PathReaches(cons: seq<Connection>, p: seq<Name>, q: seq<Name>)
    requires Path(cons, p) && Path(cons, q) && p[|p| - 1] == q[0]
    ensures Reach(cons, p[0], q[|q| - 1])
    decreases |p|
  {
    if |p| > 1 {
      var tail := p[1..];
      PathTail(cons, p);
      PathReaches(cons, tail, q);
      ReachStep(cons, p[0], p[1], q[|q| - 1]);
    }
  }

  lemma ReachTransitive(cons: seq<Connection>, a: Name, b: Name, c: Name)
    requires Reach(cons, a, b) && Reach(cons, b, c)
    ensures Reach(cons, a, c)
  {
    var p :| Path(cons, p) && p[0] == a && p[|p| - 1] == b;
    var q :| Path(cons, q) && q[0] == b && q[|q| - 1] == c;
    PathReaches(cons, p, q);
  }

  lemma AcyclicMeansNoWayBack(cons: seq<Connection>, a: Name, b: Name)
    requires Acyclic(cons) && Linked(cons, a, b)
    ensures !Reach(cons, b, a)
  {
    forall p | Path(cons, p) && p[0] == b ensures p[|p| - 1] != a {
      PathGrows(p, a, cons);
      var q := [a] + p;
      assert q[0] != q[|q| - 1];
    }
  }

  lemma FewerConnectionsFewerPaths(cons: seq<Connection>, more: seq<Connection>, p: seq<Name>)
    requires Path(cons, p) && forall c :: c in cons ==> c in more
    ensures Path(more, p)
  {
    forall k | 0 <= k < |p| - 1 ensures Linked(more, p[k], p[k + 1]) {
      assert Linked(cons, p[k], p[k + 1]);
    }
  }

  lemma FewerConnectionsStayAcyclic(cons: seq<Connection>, more: seq<Connection>)
    requires Acyclic(more) && forall c :: c in cons ==> c in more
    ensures Acyclic(cons)
  {
    forall p | Path(cons, p) && 1 < |p| ensures p[0] != p[|p| - 1] {
      FewerConnectionsFewerPaths(cons, more, p);
    }
  }

  // A path through one more connection avoids it, or runs up to it and on from it without it.
  lemma {:induction false} PathThroughNew(cons: seq<Connection>, c: Connection, p: seq<Name>)
    requires Path(cons + [c], p)
    ensures Reach(cons, p[0], p[|p| - 1])
            || (Reach(cons, p[0], c.fromNode) && Reach(cons, c.toNode, p[|p| - 1]))
    decreases |p|
  {
    var b := p[|p| - 1];
    if |p| == 1 {
      ReachSelf(cons, b);
    } else {
      var tail := p[1..];
      PathTail(cons + [c], p);
      PathThroughNew(cons, c, tail);
      if Linked(cons, p[0], p[1]) {
        if Reach(cons, p[1], b) {
          ReachStep(cons, p[0], p[1], b);
        } else {
          ReachStep(cons, p[0], p[1], c.fromNode);
        }
      } else {
        assert p[0] == c.fromNode && p[1] == c.toNode;
        ReachSelf(cons, p[0]);
      }
    }
  }

  // A connection closes a cycle exactly when its source was already downstream of its target.
  lemma AppendStaysAcyclic(cons: seq<Connection>, c: Connection)
    requires Acyclic(cons)
    ensures Acyclic(cons + [c]) <==> !Reach(cons, c.toNode, c.fromNode)
  {
    var more := cons + [c];
    if Reach(cons, c.toNode, c.fromNode) {
      var p :| Path(cons, p) && p[0] == c.toNode && p[|p| - 1] == c.fromNode;
      FewerConnectionsFewerPaths(cons, more, p);
      assert c in more;
      assert Linked(more, c.fromNode, c.toNode);
      PathGrows(p, c.fromNode, more);
      var q := [c.fromNode] + p;
      assert q[0] == q[|q| - 1];
    } else {
      forall p | Path(more, p) && 1 < |p| ensures p[0] != p[|p| - 1] {
        NoNewCycle(cons, c, p);
      }
    }
  }

  lemma NoNewCycle(cons: seq<Connection>, c: Connection, p: seq<Name>)
    requires Acyclic(cons) && !Reach(cons, c.toNode, c.fromNode)
    requires Path(cons + [c], p) && 1 < |p|
    ensures p[0] != p[|p| - 1]
  {
    var tail, b := p[1..], p[|p| - 1];
    PathTail(cons + [c], p);
    PathThroughNew(cons, c, tail);
    if Linked(cons, p[0], p[1]) {
      AcyclicMeansNoWayBack(cons, p[0], p[1]);
      if p[0] == b {
        ReachStep(cons, p[0], p[1], c.fromNode);
        ReachTransitive(cons, c.toNode, p[0], c.fromNode);
      }
    }
  }

  /** Taking connections out. */

  lemma DropKeepsLists(g: Graph, doomed: set<Connection>)
    requires Lists(g)
    ensures Lists(Drop(g, doomed))
  {
    var h := Drop(g, doomed);
    forall n, i | n in h.nodes && i in h.nodes[n].links
      ensures h.nodes[n].links[i] == ListOf(h.connections, n, i)
    {
      ListOfWithout(g.connections, doomed, n, i);
    }
  }

  lemma DropKeepsSound(g: Graph, doomed: set<Connection>)
    requires Sound(g)
    ensures Sound(Drop(g, doomed))
  {
    var h := Drop(g, doomed);
    forall c | c in h.connections ensures WellTyped(h, c) {
      WithoutContents(g.connections, doomed, c);
      assert WellTyped(g, c);
    }
  }

  lemma DropKeepsOrder(g: Graph, doomed: set<Connection>)
    requires Distinct(g.connections) && Acyclic(g.connections)
    ensures Distinct(Drop(g, doomed).connections) && Acyclic(Drop(g, doomed).connections)
  {
    WithoutDistinct(g.connections, doomed);
    forall c | c in Without(g.connections, doomed) ensures c in g.connections {
      WithoutContents(g.connections, doomed, c);
    }
    FewerConnectionsStayAcyclic(Without(g.connections, doomed), g.connections);
  }

  // A node that is no endpoint of a dropped connection is left exactly as it was.
  lemma DropLeavesOthers(g: Graph, doomed: set<Connection>, n: Name)
    requires Lists(g) && n in g.nodes && n !in Endpoints(doomed)
    ensures Drop(g, doomed).nodes[n] == g.nodes[n]
  {
    var links := g.nodes[n].links;
    forall i | i in links ensures Without(links[i], doomed) == links[i] {
      forall c | c in links[i] ensures c !in doomed {
        assert links[i] == ListOf(g.connections, n, i);
        ListOfContents(g.connections, n, i, c);
      }
      WithoutNothing(links[i], doomed);
    }
    assert LinksWithout(links, doomed) == links;
  }

  lemma DropKeepsPending(g: Graph, doomed: set<Connection>)
    requires Lists(g) && Pending(g)
    ensures Pending(Drop(g, doomed))
  {
    forall n | n in g.nodes && n !in Endpoints(doomed) ensures Drop(g, doomed).nodes[n] == g.nodes[n] {
      DropLeavesOthers(g, doomed, n);
    }
  }

  lemma DropKeepsRecords(g: Graph, doomed: set<Connection>)
    requires Defined(g)
    ensures Defined(Drop(g, doomed))
    ensures OptionsCanonical(g) ==> OptionsCanonical(Drop(g, doomed))
    ensures HasSettings(g) ==> HasSettings(Drop(g, doomed))
  {
    var h := Drop(g, doomed);
    forall n | n in h.nodes ensures DefinedRecord(h.definitions, h.nodes[n]) {
      assert DefinedRecord(g.definitions, g.nodes[n]);
    }
    if OptionsCanonical(g) {
      forall n | n in h.nodes ensures CanonicalRecord(h.definitions, h.nodes[n]) {
        assert CanonicalRecord(g.definitions, g.nodes[n]);
      }
    }
  }

  lemma DropKeepsCore(g: Graph, doomed: set<Connection>)
    requires Core(g)
    ensures Core(Drop(g, doomed))
  {
    DropKeepsRecords(g, doomed);
    DropKeepsLists(g, doomed);
    DropKeepsSound(g, doomed);
    DropKeepsOrder(g, doomed);
    DropKeepsPending(g, doomed);
  }

  lemma DropShortensLists(g: Graph, doomed: set<Connection>, n: Name, i: Name)
    ensures |ListOf(Drop(g, doomed).connections, n, i)| <= |ListOf(g.connections, n, i)|
  {
    ListOfWithout(g.connections, doomed, n, i);
    WithoutShortens(ListOf(g.connections, n, i), doomed);
  }

  lemma DropKeepsCaps(g: Graph, doomed: set<Connection>)
    requires Caps(g)
    ensures Caps(Drop(g, doomed))
  {
    var h := Drop(g, doomed);
    forall n, i | HasInterface(h, n, i) ensures Within(|ListOf(h.connections, n, i)|, InterfaceOf(h, n, i).cap) {
      assert HasInterface(g, n, i);
      DropShortensLists(g, doomed, n, i);
    }
  }

  lemma RemoveConnectionKeepsInv(g: Graph, c: Connection)
    requires Inv(g)
    ensures Inv(RemoveConnection(g, c))
  {
    DropKeepsCore(g, {c});
    DropKeepsCaps(g, {c});
  }

  /** Removing a node. */

  // Once its connections are gone, nothing refers to the node.
  lemma DropLeavesNodeUnused(g: Graph, id: Name, c: Connection)
    requires c in Drop(g, ConnectionsOf(g, id)).connections
    ensures c.fromNode != id && c.toNode != id
  {
    WithoutContents(g.connections, ConnectionsOf(g, id), c);
  }

  lemma ForgetNodeKeepsSound(h: Graph, k: Graph, id: Name)
    requires Sound(h) && k == h.(nodes := h.nodes - {id}, removed := h.removed + {id})
    requires forall c :: c in h.connections ==> c.fromNode != id && c.toNode != id
    ensures Sound(k)
  {
    forall c | c in k.connections ensures WellTyped(k, c) {
      assert WellTyped(h, c);
    }
  }

  lemma ForgetNodeKeepsCaps(h: Graph, k: Graph, id: Name)
    requires Caps(h) && k == h.(nodes := h.nodes - {id}, removed := h.removed + {id})
    ensures Caps(k)
  {
    forall n, i | HasInterface(k, n, i) ensures Within(|ListOf(k.connections, n, i)|, InterfaceOf(k, n, i).cap) {
      assert HasInterface(h, n, i);
    }
  }

  lemma RemoveNodeKeepsInv(g: Graph, id: Name)
    requires Inv(g)
    ensures Inv(RemoveNode(g, id))
  {
    if RemoveNodeError(g, id).NoError? {
      var doomed := ConnectionsOf(g, id);
      var h := Drop(g, doomed);
      DropKeepsCore(g, doomed);
      DropKeepsCaps(g, doomed);
      forall c | c in h.connections ensures c.fromNode != id && c.toNode != id {
        DropLeavesNodeUnused(g, id, c);
      }
      ForgetNodeKeepsInv(h, RemoveNode(g, id), id);
    }
  }

  lemma ForgetNodeKeepsInv(h: Graph, k: Graph, id: Name)
    requires Inv(h) && id != SETTINGS_ID
    requires k == h.(nodes := h.nodes - {id}, removed := h.removed + {id})
    requires forall c :: c in h.connections ==> c.fromNode != id && c.toNode != id
    ensures Inv(k)
  {
    ForgetNodeKeepsSound(h, k, id);
    ForgetNodeKeepsCaps(h, k, id);
    assert Defined(k) && OptionsCanonical(k) && Lists(k);
    assert HasSettings(k);
    assert Pending(k);
  }

  /** Adding and updating a node. */

  lemma NoConnectionsOfNewNode(g: Graph, id: Name, i: Name)
    requires Sound(g) && id !in g.nodes
    ensures ListOf(g.connections, id, i) == []
  {
    forall c | c in g.connections ensures !Touches(c, id, i) {
      assert WellTyped(g, c);
    }
    ListOfUntouched(g.connections, id, i);
  }

  // What adding a node does to the graph: one fresh record, canonical and without connections.
  lemma AddNodeMakesRecord(g: Graph, kind: Name, id: Name, options: Json) returns (r: Record)
    requires AddNodeError(g, kind, id, options).NoError?
    ensures id !in g.nodes && kind in g.definitions && (id == SETTINGS_ID <==> kind == SETTINGS_TYPE)
    ensures r.kind == kind && r.instance == g.made && r.links == NoLinks(g.definitions[kind])
    ensures CanonicalRecord(g.definitions, r)
    ensures AddNode(g, kind, id, options) ==
            g.(nodes := g.nodes[id := r], dirty := g.dirty + {id}, made := g.made + 1)
  {
    var d := g.definitions[kind];
    var rule := RuleOf(d.schema);
    UpdatedStaysCanonical(d.schema, map[], Object(d.defaults));
    UpdatedStaysCanonical(d.schema, Updated(rule, map[], Object(d.defaults)), options);
    r := NewRecord(g, kind, options);
  }

  // A node that connects to nothing joins, or takes new options in the place of its old record.
  lemma PutNodeKeepsLists(g: Graph, h: Graph, id: Name, r: Record)
    requires Lists(g) && Sound(g)
    requires h.connections == g.connections && h.nodes == g.nodes[id := r]
    requires if id in g.nodes then r.links == g.nodes[id].links
             else forall i :: i in r.links ==> r.links[i] == []
    ensures Lists(h)
  {
    forall n, i | n in h.nodes && i in h.nodes[n].links
      ensures h.nodes[n].links[i] == ListOf(h.connections, n, i)
    {
      if n == id && id !in g.nodes {
        NoConnectionsOfNewNode(g, id, i);
      }
    }
  }

  lemma PutNodeKeepsSound(g: Graph, h: Graph, id: Name, r: Record)
    requires Sound(g)
    requires h.definitions == g.definitions && h.connections == g.connections && h.nodes == g.nodes[id := r]
    requires id in g.nodes ==> r.kind == g.nodes[id].kind
    ensures Sound(h)
  {
    forall c | c in h.connections ensures WellTyped(h, c) {
      assert WellTyped(g, c);
    }
  }

  lemma PutNodeKeepsCaps(g: Graph, h: Graph, id: Name, r: Record)
    requires Caps(g) && Sound(g)
    requires h.definitions == g.definitions && h.connections == g.connections && h.nodes == g.nodes[id := r]
    requires id in g.nodes ==> r.kind == g.nodes[id].kind
    ensures Caps(h)
  {
    forall n, i | HasInterface(h, n, i) ensures Within(|ListOf(h.connections, n, i)|, InterfaceOf(h, n, i).cap) {
      if n in g.nodes {
        assert HasInterface(g, n, i);
      } else {
        NoConnectionsOfNewNode(g, n, i);
      }
    }
  }

  lemma PutNodeKeepsInv(g: Graph, id: Name, r: Record, made: nat)
    requires Inv(g)
    requires DefinedRecord(g.definitions, r) && CanonicalRecord(g.definitions, r)
    requires id == SETTINGS_ID <==> r.kind == SETTINGS_TYPE
    requires if id in g.nodes then r.links == g.nodes[id].links && r.kind == g.nodes[id].kind
             else forall i :: i in r.links ==> r.links[i] == []
    ensures Inv(g.(nodes := g.nodes[id := r], dirty := g.dirty + {id}, made := made))
  {
    var h := g.(nodes := g.nodes[id := r], dirty := g.dirty + {id}, made := made);
    PutNodeKeepsLists(g, h, id, r);
    PutNodeKeepsSound(g, h, id, r);
    PutNodeKeepsCaps(g, h, id, r);
    assert Defined(h);
    assert OptionsCanonical(h);
    assert HasSettings(h);
    assert Pending(h);
  }

  lemma PutNewNodeKeepsInv(g: Graph, kind: Name, id: Name, r: Record)
    requires Inv(g) && id !in g.nodes && kind in g.definitions
    requires r.kind == kind && r.links == NoLinks(g.definitions[kind])
    requires id == SETTINGS_ID <==> kind == SETTINGS_TYPE
    requires CanonicalRecord(g.definitions, r)
    ensures Inv(g.(nodes := g.nodes[id := r], dirty := g.dirty + {id}, made := g.made + 1))
  {
    PutNodeKeepsInv(g, id, r, g.made + 1);
  }

  lemma AddNodeKeepsInv(g: Graph, kind: Name, id: Name, options: Json)
    requires Inv(g)
    ensures Inv(AddNode(g, kind, id, options))
  {
    if AddNodeError(g, kind, id, options).NoError? {
      var r := AddNodeMakesRecord(g, kind, id, options);
      PutNewNodeKeepsInv(g, kind, id, r);
    }
  }

  lemma UpdateNodeKeepsInv(g: Graph, id: Name, options: Json)
    requires Inv(g)
    ensures Inv(UpdateNode(g, id, options))
  {
    if UpdateNodeError(g, id, options).NoError? {
      var r := g.nodes[id];
      var schema := g.definitions[r.kind].schema;
      assert CanonicalRecord(g.definitions, r);
      UpdatedStaysCanonical(schema, r.options, options);
      PutNodeKeepsInv(g, id, r.(options := Updated(RuleOf(schema), r.options, options)), g.made);
    }
  }

  /** Adding a connection. */

  lemma AppendKeepsLists(g: Graph, c: Connection)
    requires Lists(g)
    ensures Lists(Append(g, c))
  {
    var h := Append(g, c);
    forall n, i | n in h.nodes && i in h.nodes[n].links
      ensures h.nodes[n].links[i] == ListOf(h.connections, n, i)
    {
      ListOfAppend(g.connections, c, n, i);
    }
  }

  lemma AppendKeepsSound(g: Graph, c: Connection)
    requires Sound(g) && WellTyped(g, c)
    ensures Sound(Append(g, c))
  {
    var h := Append(g, c);
    forall d | d in h.connections ensures WellTyped(h, d) {
      assert WellTyped(g, d);
    }
  }

  lemma AppendKeepsRecords(g: Graph, c: Connection)
    requires Defined(g)
    ensures Defined(Append(g, c))
    ensures OptionsCanonical(g) ==> OptionsCanonical(Append(g, c))
    ensures HasSettings(g) ==> HasSettings(Append(g, c))
  {
    var h := Append(g, c);
    forall n | n in h.nodes ensures DefinedRecord(h.definitions, h.nodes[n]) {
      assert DefinedRecord(g.definitions, g.nodes[n]);
    }
    if OptionsCanonical(g) {
      forall n | n in h.nodes ensures CanonicalRecord(h.definitions, h.nodes[n]) {
        assert CanonicalRecord(g.definitions, g.nodes[n]);
      }
    }
  }

  lemma AppendKeepsPending(g: Graph, c: Connection)
    requires Pending(g)
    ensures Pending(Append(g, c))
  {
    forall n | n in g.nodes && n != c.fromNode && n != c.toNode
      ensures Append(g, c).nodes[n] == g.nodes[n]
    {
      assert LinksWith(g.nodes[n].links, n, c) == g.nodes[n].links;
    }
  }

  lemma AppendKeepsCore(g: Graph, c: Connection)
    requires Core(g) && WellTyped(g, c) && c !in g.connections
    requires !Reach(g.connections, c.toNode, c.fromNode)
    ensures Core(Append(g, c))
  {
    AppendKeepsRecords(g, c);
    AppendKeepsLists(g, c);
    AppendKeepsSound(g, c);
    AppendStaysAcyclic(g.connections, c);
    AppendKeepsPending(g, c);
  }

  lemma EvictionKeepsCap(g: Graph, o: Connection, n: Name, i: Name)
    requires Caps(g) && SoundDefinitions(g.definitions) && BothEnds(g, o) && HasInterface(g, n, i)
    ensures Within(|ListOf(Drop(Append(g, o), Evicted(g, o)).connections, n, i)|, InterfaceOf(g, n, i).cap)
  {
    var list, cap := ListOf(g.connections, n, i), InterfaceOf(g, n, i).cap;
    var gone := Evicted(g, o);
    ListOfAppend(g.connections, o, n, i);
    ListOfWithout(g.connections + [o], gone, n, i);
    WithoutShortens(list + (if Touches(o, n, i) then [o] else []), gone);
    assert Within(|list|, cap);
    if Touches(o, n, i) && cap == Some(|list|) {
      assert SoundInterface(InterfaceOf(g, n, i));
      assert list[0] in Displaced(list, cap);
      assert list[0] in gone && list[0] in list + [o];
    }
  }

  lemma EvictionKeepsCaps(g: Graph, o: Connection)
    requires Caps(g) && SoundDefinitions(g.definitions) && BothEnds(g, o)
    ensures Caps(Drop(Append(g, o), Evicted(g, o)))
  {
    var h := Drop(Append(g, o), Evicted(g, o));
    forall n, i | HasInterface(h, n, i) ensures Within(|ListOf(h.connections, n, i)|, InterfaceOf(h, n, i).cap) {
      assert HasInterface(g, n, i);
      EvictionKeepsCap(g, o, n, i);
    }
  }

  // An accepted connection, turned from output to input, is well typed, new, and closes no cycle.
  lemma AcceptedConnection(g: Graph, c: Connection)
    requires AddConnectionError(g, c).NoError?
    ensures BothEnds(g, c)
    ensures WellTyped(g, Oriented(g, c)) && Oriented(g, c) !in g.connections
    ensures !Reach(g.connections, Oriented(g, c).toNode, Oriented(g, c).fromNode)
    ensures AddConnection(g, c) == Drop(Append(g, Oriented(g, c)), Evicted(g, Oriented(g, c)))
  {
  }

  lemma AddConnectionKeepsInv(g: Graph, c: Connection)
    requires Inv(g)
    ensures Inv(AddConnection(g, c))
  {
    if AddConnectionError(g, c).NoError? {
      AcceptedConnection(g, c);
      var o := Oriented(g, c);
      AppendKeepsCore(g, o);
      DropKeepsCore(Append(g, o), Evicted(g, o));
      EvictionKeepsCaps(g, o);
    }
  }

  // The first of the connections that take part in an interface, in the order they were made.
  ghost predicate FirstTouching(cons: seq<Connection>, n: Name, i: Name, d: Connection) {
    exists k :: 0 <= k < |cons| && cons[k] == d && Touches(d, n, i)
                && forall j :: 0 <= j < k ==> !Touches(cons[j], n, i)
  }

  // As many connections take part in an interface as it allows.
  ghost predicate Full(g: Graph, n: Name, i: Name)
    requires HasInterface(g, n, i)
  {
    InterfaceOf(g, n, i).cap == Some(|ListOf(g.connections, n, i)|)
  }

  lemma {:induction false} FirstTouchingIsFirstListed(cons: seq<Connection>, n: Name, i: Name, d: Connection)
    requires Distinct(cons)
    ensures FirstTouching(cons, n, i, d) <==> ListOf(cons, n, i) != [] && ListOf(cons, n, i)[0] == d
  {
    if cons != [] {
      var rest := cons[1..];
      FirstTouchingIsFirstListed(rest, n, i, d);
      if Touches(cons[0], n, i) {
        assert FirstTouching(cons, n, i, cons[0]);
      } else if FirstTouching(cons, n, i, d) {
        var k :| 0 <= k < |cons| && cons[k] == d && Touches(d, n, i)
                 && forall j :: 0 <= j < k ==> !Touches(cons[j], n, i);
        assert rest[k - 1] == d && forall j :: 0 <= j < k - 1 ==> rest[j] == cons[j + 1];
      }
    }
  }

  // An interface that is full has a connection to give up.
  lemma FullDisplacesFirst(g: Graph, n: Name, i: Name, d: Connection)
    requires SoundDefinitions(g.definitions) && Distinct(g.connections) && HasInterface(g, n, i)
    ensures d in Displaced(ListOf(g.connections, n, i), InterfaceOf(g, n, i).cap)
            <==> Full(g, n, i) && FirstTouching(g.connections, n, i, d)
  {
    FirstTouchingIsFirstListed(g.connections, n, i, d);
  }

  // What eviction means for the caller: the new connection joins at the end and stays, the others keep their order,
  // and one of them is gone exactly when it is the oldest at an end of the new one and that end was full.
  lemma AddConnectionEvictsOldest(g: Graph, c: Connection)
    requires Inv(g) && AddConnectionError(g, c).NoError?
    ensures BothEnds(g, c) && BothEnds(g, Oriented(g, c))
    ensures var o, cons := Oriented(g, c), AddConnection(g, c).connections;
            cons == Without(g.connections, Evicted(g, o)) + [o] && o !in g.connections
            && forall d :: d in g.connections ==>
                 (d !in cons <==> (Full(g, o.fromNode, o.fromInterface)
                                   && FirstTouching(g.connections, o.fromNode, o.fromInterface, d))
                                  || (Full(g, o.toNode, o.toInterface)
                                      && FirstTouching(g.connections, o.toNode, o.toInterface, d)))
    ensures var o := Oriented(g, c);
            !Full(g, o.fromNode, o.fromInterface) && !Full(g, o.toNode, o.toInterface) ==>
              AddConnection(g, c).connections == g.connections + [o]
  {
    AcceptedConnection(g, c);
    var o := Oriented(g, c);
    EvictedAreListed(g, o);
    WithoutAppend(g.connections, o, Evicted(g, o));
    forall d
      ensures d in Evicted(g, o) <==> (Full(g, o.fromNode, o.fromInterface)
                                       && FirstTouching(g.connections, o.fromNode, o.fromInterface, d))
                                      || (Full(g, o.toNode, o.toInterface)
                                          && FirstTouching(g.connections, o.toNode, o.toInterface, d))
    {
      FullDisplacesFirst(g, o.fromNode, o.fromInterface, d);
      FullDisplacesFirst(g, o.toNode, o.toInterface, d);
    }
    forall d | d in g.connections ensures d in AddConnection(g, c).connections <==> d !in Evicted(g, o) {
      WithoutContents(g.connections, Evicted(g, o), d);
    }
    if Evicted(g, o) == {} {
      WithoutNothing(g.connections, {});
    }
  }

  lemma EvictedLeaveOrEnter(g: Graph, o: Connection, d: Connection)
    requires Sound(g) && WellTyped(g, o) && d in Evicted(g, o)
    ensures d in g.connections && (d.fromNode == o.fromNode || d.toNode == o.toNode)
  {
    ListOfContents(g.connections, o.fromNode, o.fromInterface, d);
    ListOfContents(g.connections, o.toNode, o.toInterface, d);
    assert WellTyped(g, d);
  }

  // A path from one node to another uses no connection that leaves the last or enters the first: it would make a cycle.
  lemma CrossesNoDoomed(cons: seq<Connection>, doomed: set<Connection>, first: Name, last: Name, a: Name, b: Name)
    requires Acyclic(cons) && Linked(cons, a, b) && Reach(cons, first, a) && Reach(cons, b, last)
    requires forall d :: d in doomed ==> d.fromNode == last || d.toNode == first
    ensures Linked(Without(cons, doomed), a, b)
  {
    var d :| d in cons && d.fromNode == a && d.toNode == b;
    AcyclicMeansNoWayBack(cons, a, b);
    assert a != last && b != first;
    WithoutContents(cons, doomed, d);
  }

  lemma {:induction false} NoWayBackIsDoomed(cons: seq<Connection>, doomed: set<Connection>, first: Name,
                                             p: seq<Name>, last: Name)
    requires Acyclic(cons) && Path(cons, p) && p[|p| - 1] == last && Reach(cons, first, p[0])
    requires forall d :: d in doomed ==> d.fromNode == last || d.toNode == first
    ensures Reach(Without(cons, doomed), p[0], last)
    decreases |p|
  {
    if |p| == 1 {
      ReachSelf(Without(cons, doomed), last);
    } else {
      var tail := p[1..];
      PathTail(cons, p);
      ReachSelf(cons, p[1]);
      ReachStep(cons, p[0], p[1], p[1]);
      ReachTransitive(cons, first, p[0], p[1]);
      assert Reach(cons, p[1], last) by {
        assert tail[0] == p[1] && tail[|tail| - 1] == last;
      }
      NoWayBackIsDoomed(cons, doomed, first, tail, last);
      CrossesNoDoomed(cons, doomed, first, last, p[0], p[1]);
      ReachStep(Without(cons, doomed), p[0], p[1], last);
    }
  }

  lemma EvictionLeavesWayBack(cons: seq<Connection>, doomed: set<Connection>, first: Name, last: Name)
    requires Acyclic(cons) && forall d :: d in doomed ==> d.fromNode == last || d.toNode == first
    ensures Reach(Without(cons, doomed), first, last) <==> Reach(cons, first, last)
  {
    if Reach(cons, first, last) {
      var p :| Path(cons, p) && p[0] == first && p[|p| - 1] == last;
      ReachSelf(cons, first);
      NoWayBackIsDoomed(cons, doomed, first, p, last);
    }
    if Reach(Without(cons, doomed), first, last) {
      LeftReachesNoMore(cons, doomed, first, last);
    }
  }

  lemma AcyclicAfterEviction(g: Graph, o: Connection)
    requires Sound(g) && Distinct(g.connections) && Acyclic(g.connections) && WellTyped(g, o)
    ensures Acyclic(Without(g.connections, Evicted(g, o)) + [o]) <==> !Reach(g.connections, o.toNode, o.fromNode)
  {
    forall d | d in Evicted(g, o) ensures d.fromNode == o.fromNode || d.toNode == o.toNode {
      EvictedLeaveOrEnter(g, o, d);
    }
    EvictionLeavesWayBack(g.connections, Evicted(g, o), o.toNode, o.fromNode);
    DropKeepsOrder(g, Evicted(g, o));
    AppendStaysAcyclic(Without(g.connections, Evicted(g, o)), o);
  }

  // The search for a cycle comes before the eviction, but refuses nothing the eviction would have made possible: a
  // new, well-typed connection is refused as circular exactly when what eviction leaves has a cycle with it.
  lemma CircularExactlyAfterEviction(g: Graph, c: Connection)
    requires Inv(g)
    ensures AddConnectionError(g, c).CircularConnection?
            <==> c !in g.connections && BothEnds(g, c) && WellTyped(g, Oriented(g, c))
                 && Oriented(g, c) !in g.connections
                 && !Acyclic(Without(g.connections, Evicted(g, Oriented(g, c))) + [Oriented(g, c)])
  {
    if BothEnds(g, c) && WellTyped(g, Oriented(g, c)) {
      AcyclicAfterEviction(g, Oriented(g, c));
    }
  }

  lemma LeftReachesNoMore(cons: seq<Connection>, doomed: set<Connection>, a: Name, b: Name)
    requires Reach(Without(cons, doomed), a, b)
    ensures Reach(cons, a, b)
  {
    forall c | c in Without(cons, doomed) ensures c in cons {
      WithoutContents(cons, doomed, c);
    }
    var p :| Path(Without(cons, doomed), p) && p[0] == a && p[|p| - 1] == b;
    FewerConnectionsFewerPaths(Without(cons, doomed), cons, p);
  }

  lemma EvictedAreListed(g: Graph, o: Connection)
    requires BothEnds(g, o)
    ensures Evicted(g, o) <= set d | d in g.connections
    ensures |Evicted(g, o)| <= 2
  {
    forall d | d in Evicted(g, o) ensures d in g.connections {
      ListOfContents(g.connections, o.fromNode, o.fromInterface, d);
      ListOfContents(g.connections, o.toNode, o.toInterface, d);
    }
    DisplacedIsAtMostOne(ListOf(g.connections, o.fromNode, o.fromInterface),
                         InterfaceOf(g, o.fromNode, o.fromInterface).cap);
    DisplacedIsAtMostOne(ListOf(g.connections, o.toNode, o.toInterface), InterfaceOf(g, o.toNode, o.toInterface).cap);
  }

  lemma DisplacedIsAtMostOne(list: seq<Connection>, cap: Option<nat>)
    ensures |Displaced(list, cap)| <= 1
  {
  }

  lemma {:induction false} WithoutAppend(cons: seq<Connection>, c: Connection, doomed: set<Connection>)
    requires c !in doomed
    ensures Without(cons + [c], doomed) == Without(cons, doomed) + [c]
  {
    if cons == [] {
      assert cons + [c] == [c];
    } else {
      WithoutAppend(cons[1..], c, doomed);
      assert (cons + [c])[1..] == cons[1..] + [c];
    }
  }

  /** Runs. */

  // After a refresh the render thread sees exactly the nodes of the graph.
  lemma RefreshIsExact(g: Graph)
    requires Pending(g)
    ensures Refreshed(g) == g.nodes
  {
    var s := Refreshed(g);
    forall n ensures n in s <==> n in g.nodes {
    }
    forall n | n in s ensures s[n] == g.nodes[n] {
    }
  }

  lemma SnapshotIsApart(g: Graph, h: Graph)
    requires h.definitions == g.definitions && h.nodes == g.nodes && h.connections == g.connections
    ensures Sound(g) ==> Sound(h)
    ensures Caps(g) ==> Caps(h)
  {
    if Caps(g) {
      forall n, i | HasInterface(h, n, i) ensures Within(|ListOf(h.connections, n, i)|, InterfaceOf(h, n, i).cap) {
        assert HasInterface(g, n, i);
      }
    }
    if Sound(g) {
      forall c | c in h.connections ensures WellTyped(h, c) {
        assert WellTyped(g, c);
      }
    }
  }

  lemma TickKeepsPending(g: Graph)
    requires Pending(g)
    ensures Tick(g).snapshot == g.nodes && Pending(Tick(g))
  {
    RefreshIsExact(g);
  }

  lemma TickKeepsInv(g: Graph)
    requires Inv(g)
    ensures Inv(Tick(g))
    ensures Tick(g).snapshot == g.nodes
  {
    TickKeepsPending(g);
    SnapshotIsApart(g, Tick(g));
  }

  lemma StepKeepsInv(g: Graph, a: Action)
    requires Inv(g)
    ensures Inv(Step(g, a))
  {
    match a
    case AddNodeAction(kind, id, options) => AddNodeKeepsInv(g, kind, id, options);
    case RemoveNodeAction(id) => RemoveNodeKeepsInv(g, id);
    case UpdateNodeAction(id, options) => UpdateNodeKeepsInv(g, id, options);
    case AddConnectionAction(c) => AddConnectionKeepsInv(g, c);
    case RemoveConnectionAction(c) => RemoveConnectionKeepsInv(g, c);
    case TickAction => TickKeepsInv(g);
  }

  lemma StepKeepsDefinitions(g: Graph, a: Action)
    requires Defined(g)
    ensures Step(g, a).definitions == g.definitions
  {
  }

  lemma EmptyCore(definitions: Definitions)
    requires SoundDefinitions(definitions)
    ensures AddNodeError(Empty(definitions), SETTINGS_TYPE, SETTINGS_ID, Object(map[])).NoError?
  {
    DefaultSettingsAccepted();
  }

  lemma InitHolds(definitions: Definitions)
    requires SoundDefinitions(definitions)
    ensures Inv(Init(definitions)) && Init(definitions).definitions == definitions
  {
    var g := Empty(definitions);
    EmptyCore(definitions);
    var r := AddNodeMakesRecord(g, SETTINGS_TYPE, SETTINGS_ID, Object(map[]));
    var h := g.(nodes := map[SETTINGS_ID := r], dirty := {SETTINGS_ID}, made := 1);
    assert Init(definitions) == h;
    assert Defined(h) && OptionsCanonical(h);
    assert Lists(h);
    assert forall n, i :: ListOf(h.connections, n, i) == [];
    assert Caps(h);
    assert Acyclic([]) by {
      forall p | 1 < |p| ensures !Path([], p) {
        assert !Linked([], p[0], p[0 + 1]);
      }
    }
  }

  // The graph after a run of operations in any order.
  ghost predicate Reaches(definitions: Definitions, run: seq<Action>, g: Graph)
    decreases |run|
  {
    if run == [] then g == Init(definitions)
    else
      exists before :: Reaches(definitions, run[..|run| - 1], before) && Defined(before)
                       && g == Step(before, run[|run| - 1])
  }

  lemma {:induction false} EveryRunKeepsGraphSound(definitions: Definitions, run: seq<Action>, g: Graph)
    requires SoundDefinitions(definitions) && Reaches(definitions, run, g)
    ensures Inv(g) && g.definitions == definitions
    decreases |run|
  {
    if run == [] {
      InitHolds(definitions);
    } else {
      var before :| Reaches(definitions, run[..|run| - 1], before) && Defined(before)
                    && g == Step(before, run[|run| - 1]);
      EveryRunKeepsGraphSound(definitions, run[..|run| - 1], before);
      StepKeepsInv(before, run[|run| - 1]);
      StepKeepsDefinitions(before, run[|run| - 1]);
    }
  }

  // Whatever was edited since the last frame, including a node removed and added again under its id, the frame
  // that starts now renders exactly the current nodes, finds the settings node, and can use its settings.
  lemma EveryFrameSeesCurrentNodes(definitions: Definitions, run: seq<Action>, g: Graph)
    requires SoundDefinitions(definitions) && Reaches(definitions, run, g)
    ensures Tick(g).snapshot == g.nodes
    ensures SETTINGS_ID in Tick(g).snapshot && Usable(Tick(g).snapshot[SETTINGS_ID].options)
  {
    EveryRunKeepsGraphSound(definitions, run, g);
    RefreshIsExact(g);
    assert CanonicalRecord(g.definitions, g.nodes[SETTINGS_ID]);
    CanonicalSettingsAreUsable(g.nodes[SETTINGS_ID].options);
  }
}
