/** What each edit of the node graph changes, and that it changes nothing else. */
module NodeGraphEffects {
  import opened Common
  import opened Options
  import opened NodeGraph
  import opened NodeGraphSafety

  // The same node with its type, its identity and its options; only its lists may differ.
  ghost predicate SameNode(r: Record, t: Record) {
    t.kind == r.kind && t.instance == r.instance && t.options == r.options && t.links.Keys == r.links.Keys
  }

  function Elsewhere(id: Name): Connection -> bool { (c: Connection) => c.fromNode != id && c.toNode != id }

  function OtherThan(c: Connection): Connection -> bool { (d: Connection) => d != c }

  // The connections that pass a test stay, in their order, in the connection list and in every interface's list.
  ghost predicate KeepsOnly(g: Graph, h: Graph, keep: Connection -> bool) {
    && h.connections == Filter(g.connections, keep)
    && forall n :: n in h.nodes ==>
         && n in g.nodes && SameNode(g.nodes[n], h.nodes[n])
         && forall i :: i in h.nodes[n].links ==> h.nodes[n].links[i] == Filter(g.nodes[n].links[i], keep)
  }

  lemma {:induction false} WithoutIsFilter(cons: seq<Connection>, doomed: set<Connection>, keep: Connection -> bool)
    requires forall c :: c in cons ==> (keep(c) <==> c !in doomed)
    ensures Without(cons, doomed) == Filter(cons, keep)
  {
    if cons != [] {
      assert forall c :: c in cons[1..] ==> c in cons;
      WithoutIsFilter(cons[1..], doomed, keep);
    }
  }

  lemma DropKeepsOnly(g: Graph, doomed: set<Connection>, keep: Connection -> bool)
    requires Lists(g) && forall c :: c in g.connections ==> (keep(c) <==> c !in doomed)
    ensures KeepsOnly(g, Drop(g, doomed), keep)
  {
    WithoutIsFilter(g.connections, doomed, keep);
    var h := Drop(g, doomed);
    forall n, i | n in h.nodes && i in h.nodes[n].links
      ensures h.nodes[n].links[i] == Filter(g.nodes[n].links[i], keep)
    {
      forall c | c in g.nodes[n].links[i] ensures c in g.connections {
        ListOfContents(g.connections, n, i, c);
      }
      WithoutIsFilter(g.nodes[n].links[i], doomed, keep);
    }
  }

  // Removing a node takes it and the connections at its interfaces out of the graph. Every other node, every other
  // connection, and the order of both kinds of list, stay.
  lemma RemoveNodeTakesOnlyIt(g: Graph, id: Name)
    requires Lists(g) && RemoveNodeError(g, id).NoError?
    ensures var h := RemoveNode(g, id);
            h.nodes.Keys == g.nodes.Keys - {id} && KeepsOnly(g, h, Elsewhere(id))
            && h.snapshot == g.snapshot && h.definitions == g.definitions && h.made == g.made
            && h.removed == g.removed + {id} && g.dirty <= h.dirty
            && forall c :: c in g.connections && !Elsewhere(id)(c) ==> c.fromNode in h.dirty && c.toNode in h.dirty
  {
    DropKeepsOnly(g, ConnectionsOf(g, id), Elsewhere(id));
  }

  // Removing a connection takes exactly that one out.
  lemma RemoveConnectionTakesOnlyIt(g: Graph, c: Connection)
    requires Lists(g)
    ensures var h := RemoveConnection(g, c);
            h.nodes.Keys == g.nodes.Keys && h.snapshot == g.snapshot && h.definitions == g.definitions
            && h.removed == g.removed && h.made == g.made
            && KeepsOnly(g, h, OtherThan(c))
            && (c in g.connections ==> c.fromNode in h.dirty && c.toNode in h.dirty && c !in h.connections)
            && (c !in g.connections ==> h == g)
  {
    if c in g.connections {
      DropKeepsOnly(g, {c}, OtherThan(c));
      WithoutContents(g.connections, {c}, c);
    } else {
      NothingToTake(g, OtherThan(c));
    }
  }

  lemma NothingToTake(g: Graph, keep: Connection -> bool)
    requires Lists(g) && forall c :: c in g.connections ==> keep(c)
    ensures KeepsOnly(g, g, keep)
  {
    FilterAll(g.connections, keep);
    forall n, i | n in g.nodes && i in g.nodes[n].links
      ensures g.nodes[n].links[i] == Filter(g.nodes[n].links[i], keep)
    {
      forall c | c in g.nodes[n].links[i] ensures c in g.connections {
        ListOfContents(g.connections, n, i, c);
      }
      FilterAll(g.nodes[n].links[i], keep);
    }
  }

  lemma {:induction false} FilterAll(cons: seq<Connection>, keep: Connection -> bool)
    requires forall c :: c in cons ==> keep(c)
    ensures Filter(cons, keep) == cons
  {
    if cons != [] {
      assert forall c :: c in cons[1..] ==> c in cons;
      FilterAll(cons[1..], keep);
    }
  }

  // A connection added changes no node but in its lists: those of its two ends have it last, unless the addition was
  // refused; what is evicted is in AddConnectionEvictsOldest.
  lemma AddConnectionKeepsNodes(g: Graph, c: Connection)
    ensures var h := AddConnection(g, c);
            h.nodes.Keys == g.nodes.Keys && h.snapshot == g.snapshot && h.definitions == g.definitions
            && h.removed == g.removed && h.made == g.made
            && (forall n :: n in g.nodes ==> SameNode(g.nodes[n], h.nodes[n]))
            && (!AddConnectionError(g, c).NoError? ==> h == g)
  {
  }

  lemma AddedConnectionIsListed(g: Graph, c: Connection)
    requires Inv(g) && AddConnectionError(g, c).NoError?
    ensures BothEnds(g, c)
    ensures var h, o := AddConnection(g, c), Oriented(g, c);
            o.fromNode in h.dirty && o.toNode in h.dirty && (o == c || o == Swapped(c))
            && forall n, i :: n in h.nodes && i in h.nodes[n].links && Touches(o, n, i) ==>
                 h.nodes[n].links[i] != [] && h.nodes[n].links[i][|h.nodes[n].links[i]| - 1] == o
  {
    AcceptedConnection(g, c);
    AddConnectionKeepsInv(g, c);
    var h, o := AddConnection(g, c), Oriented(g, c);
    AddConnectionEvictsOldest(g, c);
    var kept := Without(g.connections, Evicted(g, o));
    forall n, i | n in h.nodes && i in h.nodes[n].links && Touches(o, n, i)
      ensures h.nodes[n].links[i] == ListOf(kept, n, i) + [o]
    {
      ListOfAppend(kept, o, n, i);
    }
  }

  // A connection is accepted exactly when it, turned from output to input, is new, its ends exist, the input takes the
  // output's type, and the input's node does not already feed the output's.
  lemma AcceptedExactly(g: Graph, c: Connection)
    ensures AddConnectionError(g, c).NoError?
            <==> c !in g.connections && BothEnds(g, c)
                 && (Joinable(g, c) || Joinable(g, Swapped(c)))
  {
    if BothEnds(g, c) && WellTyped(g, Swapped(c)) {
      assert Oriented(g, c) == Swapped(c);
    }
  }

  ghost predicate Joinable(g: Graph, o: Connection) {
    o !in g.connections && WellTyped(g, o) && !Reach(g.connections, o.toNode, o.fromNode)
  }

  // An input takes its own type; one for vectors takes numbers as well, one for textures framebuffers.
  lemma InputsAccept(i: Interface, from: InterfaceType)
    ensures Accepts(i, from) <==> i.direction.Input? && (from == i.kind || (i.kind.Vec2? && from.F64?)
                                                         || (i.kind.Texture? && from.Framebuffer?))
  {
  }

  // What the options of a node are after some have been written over them.
  ghost predicate Overwrites(schema: Schema, before: Settings, written: map<Name, Json>, after: Settings) {
    && after.Keys == before.Keys + written.Keys
    && forall k :: k in after ==>
         if k in written
         then var r := NormalizeOption(schema, k, written[k]); r.Accepted? && after[k] == r.json
         else after[k] == before[k]
  }

  lemma UpdatedOverwrites(schema: Schema, before: Settings, options: Json)
    requires Acceptable(RuleOf(schema), options)
    ensures Overwrites(schema, before, options.fields, Updated(RuleOf(schema), before, options))
  {
    var rule := RuleOf(schema);
    forall k | k in options.fields ensures rule(k, options.fields[k]) == NormalizeOption(schema, k, options.fields[k]) {
    }
  }

  // Adding a node puts one without connections into the graph, with its type's defaults and the given options over
  // them; every other node and all connections stay.
  lemma AddNodePutsOnlyIt(g: Graph, kind: Name, id: Name, options: Json)
    ensures var h := AddNode(g, kind, id, options);
            if AddNodeError(g, kind, id, options).NoError?
            then id !in g.nodes && h == g.(nodes := h.nodes, dirty := g.dirty + {id}, made := g.made + 1)
                 && h.nodes.Keys == g.nodes.Keys + {id} && (forall n :: n in g.nodes ==> h.nodes[n] == g.nodes[n])
                 && h.nodes[id].kind == kind
                 && h.nodes[id].links.Keys == g.definitions[kind].interfaces.Keys
                 && (forall i :: i in h.nodes[id].links ==> h.nodes[id].links[i] == [])
                 && exists base :: Overwrites(g.definitions[kind].schema, map[], g.definitions[kind].defaults, base)
                                   && options.Object?
                                   && Overwrites(g.definitions[kind].schema, base, options.fields,
                                                 h.nodes[id].options)
            else h == g
  {
    if AddNodeError(g, kind, id, options).NoError? {
      var d := g.definitions[kind];
      var base := Updated(RuleOf(d.schema), map[], Object(d.defaults));
      UpdatedOverwrites(d.schema, map[], Object(d.defaults));
      UpdatedOverwrites(d.schema, base, options);
      assert AddNode(g, kind, id, options).nodes[id].options == Updated(RuleOf(d.schema), base, options);
    }
  }

  // Updating a node changes its options and nothing else.
  lemma UpdateNodeChangesOnlyIt(g: Graph, id: Name, options: Json)
    requires Defined(g)
    ensures id in g.nodes ==> g.nodes[id].kind in g.definitions
    ensures var h := UpdateNode(g, id, options);
            if UpdateNodeError(g, id, options).NoError?
            then h == g.(nodes := h.nodes, dirty := g.dirty + {id}) && h.nodes.Keys == g.nodes.Keys && options.Object?
                 && (forall n :: n in g.nodes && n != id ==> h.nodes[n] == g.nodes[n])
                 && h.nodes[id] == g.nodes[id].(options := h.nodes[id].options)
                 && Overwrites(g.definitions[g.nodes[id].kind].schema, g.nodes[id].options, options.fields,
                               h.nodes[id].options)
            else h == g
  {
    if id in g.nodes { assert DefinedRecord(g.definitions, g.nodes[id]); }
    if UpdateNodeError(g, id, options).NoError? {
      UpdatedOverwrites(g.definitions[g.nodes[id].kind].schema, g.nodes[id].options, options);
    }
  }

  // An edit is refused for its options exactly when one of them is not accepted.
  lemma OptionsAcceptedExactly(schema: Schema, options: Json)
    ensures Acceptable(RuleOf(schema), options)
            <==> options.Object? && forall k :: k in options.fields ==>
                                       NormalizeOption(schema, k, options.fields[k]).Accepted?
  {
    var rule := RuleOf(schema);
    if options.Object? {
      forall k | k in options.fields
        ensures rule(k, options.fields[k]) == NormalizeOption(schema, k, options.fields[k])
      {
      }
    }
  }

  // Why a node is not added: the settings node has its own type and no other node has; the id is taken; there is no
  // such type; the type's own defaults fail; the options are not accepted.
  lemma AddNodeRefusals(g: Graph, kind: Name, id: Name, options: Json)
    ensures var e, settings := AddNodeError(g, kind, id, options), (id == SETTINGS_ID <==> kind == SETTINGS_TYPE);
            (e == InvalidType <==> !settings || (id !in g.nodes && kind !in g.definitions))
            && (e == DuplicateId <==> settings && id in g.nodes)
            && (e == InternalError <==> settings && id !in g.nodes && kind in g.definitions
                                        && !DefaultsAccepted(g.definitions[kind]))
            && (e == InvalidOptions <==> settings && id !in g.nodes && kind in g.definitions
                                         && DefaultsAccepted(g.definitions[kind])
                                         && !Acceptable(RuleOf(g.definitions[kind].schema), options))
            && e !in {NotFound, CircularConnection}
  {
  }

  // The settings node stays; any other node there is can be removed, and any node there is updated with options its
  // type accepts.
  lemma NodeEditRefusals(g: Graph, id: Name, options: Json)
    requires id in g.nodes ==> g.nodes[id].kind in g.definitions
    ensures RemoveNodeError(g, id) ==
            if id == SETTINGS_ID then InvalidType else if id in g.nodes then NoError else NotFound
    ensures UpdateNodeError(g, id, options) ==
            if id !in g.nodes then NotFound
            else if Acceptable(RuleOf(g.definitions[g.nodes[id].kind].schema), options) then NoError else InvalidOptions
  {
  }

  // A connection is a duplicate as given or turned round, not found without both its ends, of a wrong type when it
  // does not lead from an output to an input that takes it, and circular when it would close a circle.
  lemma AddConnectionRefusals(g: Graph, c: Connection)
    ensures AddConnectionError(g, c) == NotFound <==> c !in g.connections && !BothEnds(g, c)
    ensures AddConnectionError(g, c) == DuplicateId
            <==> c in g.connections
                 || (BothEnds(g, c) && Swapped(c) in g.connections
                     && InterfaceOf(g, c.fromNode, c.fromInterface).direction.Input?
                     && InterfaceOf(g, c.toNode, c.toInterface).direction.Output?)
    ensures AddConnectionError(g, c) == CircularConnection
            ==> exists o :: o in {c, Swapped(c)} && WellTyped(g, o) && Reach(g.connections, o.toNode, o.fromNode)
  {
    if AddConnectionError(g, c) == CircularConnection {
      var o := Oriented(g, c);
      assert o in {c, Swapped(c)} && WellTyped(g, o);
    }
  }
}
