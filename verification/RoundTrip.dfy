/** Saving any reachable configuration and loading it into a fresh manager reproduces it. */
module RoundTrip {
  import opened Common
  import opened Options
  import opened NodeGraph
  import opened NodeGraphSafety
  import opened NodeManager
  import opened Configuration

  /** A saved document is up to date. */

  lemma SavedEntries(g: Graph, order: seq<Name>, k: nat)
    requires Inv(g) && (forall n :: n in order ==> n in g.nodes) && k < |order|
    ensures DefinedRecord(g.definitions, g.nodes[order[k]])
    ensures SavedNodes(g, order)[k] == SavedEntry(g.definitions, order[k], g.nodes[order[k]])
  {
    assert order[k] in order;
  }

  // What the saved graph's invariant says about one of its nodes.
  ghost predicate Restorable(g: Graph, n: Name) {
    && n in g.nodes && g.nodes[n].kind in g.definitions
    && CanonicalRecord(g.definitions, g.nodes[n])
    && (n == SETTINGS_ID <==> g.nodes[n].kind == SETTINGS_TYPE)
  }

  lemma EveryNodeIsRestorable(g: Graph, n: Name)
    requires Inv(g) && n in g.nodes
    ensures Restorable(g, n)
  {
    assert DefinedRecord(g.definitions, g.nodes[n]);
  }

  // The entries a list of nodes is saved as.
  ghost predicate EntriesOf(g: Graph, order: seq<Name>, entries: seq<NodeEntry>) {
    && |entries| == |order|
    && forall k :: 0 <= k < |order| ==>
         Restorable(g, order[k]) && entries[k] == SavedEntry(g.definitions, order[k], g.nodes[order[k]])
  }

  lemma SavedNodesAreEntries(g: Graph, order: seq<Name>)
    requires Inv(g) && Traversal(g.nodes, order)
    ensures EntriesOf(g, order, SavedNodes(g, order))
  {
    forall k | 0 <= k < |order|
      ensures Restorable(g, order[k])
      ensures SavedNodes(g, order)[k] == SavedEntry(g.definitions, order[k], g.nodes[order[k]])
    {
      assert order[k] in Elements(order);
      EveryNodeIsRestorable(g, order[k]);
      SavedEntries(g, order, k);
    }
  }

  lemma EntriesAreCurrent(g: Graph, order: seq<Name>, entries: seq<NodeEntry>)
    requires EntriesOf(g, order, entries) && Distinct(order)
    ensures CurrentNodes(g.definitions, entries)
  {
    forall e | e in entries
      ensures e.kind in g.definitions && e.schemaVersion == Some(Int(SchemaVersion(g.definitions[e.kind])))
    {
      var k :| 0 <= k < |entries| && entries[k] == e;
      assert Restorable(g, order[k]);
    }
    forall j, k | 0 <= j < k < |entries| ensures entries[j].id != entries[k].id {
      assert Restorable(g, order[j]) && Restorable(g, order[k]);
    }
  }

  lemma EntriesAreNamed(g: Graph, order: seq<Name>, entries: seq<NodeEntry>, n: Name)
    requires EntriesOf(g, order, entries) && n in order
    ensures Named(entries, n)
  {
    var k :| 0 <= k < |order| && order[k] == n;
    assert Restorable(g, order[k]);
    assert entries[k] in entries && entries[k].id == n;
  }

  /** Loading the nodes. */

  // The nodes loaded so far are those of the saved graph, without their connections; the settings node is that of
  // the manager loaded into, with the saved options written over its own once its entry has come.
  ghost predicate PartLoaded(own: Settings, g: Graph, h: Graph, done: set<Name>) {
    && h.definitions == g.definitions && h.connections == []
    && h.nodes.Keys == {SETTINGS_ID} + done && done <= g.nodes.Keys
    && (forall n :: n in done && n != SETTINGS_ID ==>
          h.nodes[n].kind == g.nodes[n].kind && h.nodes[n].options == g.nodes[n].options)
    && SETTINGS_ID in g.nodes && h.nodes[SETTINGS_ID].kind == g.nodes[SETTINGS_ID].kind == SETTINGS_TYPE
    && h.nodes[SETTINGS_ID].options ==
       if SETTINGS_ID in done then own + g.nodes[SETTINGS_ID].options else own
  }

  // Options in normal form are accepted as they are, over any others.
  lemma CanonicalOverwrite(rule: Rule, base: Settings, saved: Settings)
    requires AllCanonical(rule, saved)
    ensures Acceptable(rule, Object(saved)) && Updated(rule, base, Object(saved)) == base + saved
  {
    CanonicalOptionsReload(rule, map[], saved);
    assert Normalized(rule, Object(saved)) == saved by {
      assert map[] + Normalized(rule, Object(saved)) == Normalized(rule, Object(saved));
    }
  }

  lemma SavedOptionsRebuildNode(d: Definition, saved: Settings)
    requires DefaultsAccepted(d) && d.defaults.Keys <= saved.Keys && AllCanonical(RuleOf(d.schema), saved)
    ensures Acceptable(RuleOf(d.schema), Object(saved))
    ensures Updated(RuleOf(d.schema), Updated(RuleOf(d.schema), map[], Object(d.defaults)), Object(saved)) == saved
  {
    var rule := RuleOf(d.schema);
    var base := Updated(rule, map[], Object(d.defaults));
    assert base.Keys == d.defaults.Keys;
    CanonicalOptionsReload(rule, base, saved);
  }

  lemma SavedNodeIsAdded(g: Graph, h: Graph, n: Name)
    requires n in g.nodes && n != SETTINGS_ID && n !in h.nodes && h.definitions == g.definitions
    requires g.nodes[n].kind in g.definitions && g.nodes[n].kind != SETTINGS_TYPE
    requires CanonicalRecord(g.definitions, g.nodes[n])
    ensures AddNodeError(h, g.nodes[n].kind, n, Object(g.nodes[n].options)).NoError?
    ensures var k := AddNode(h, g.nodes[n].kind, n, Object(g.nodes[n].options));
            k.nodes.Keys == h.nodes.Keys + {n} && k.connections == h.connections && k.definitions == h.definitions
            && (forall m :: m in h.nodes ==> k.nodes[m] == h.nodes[m])
            && k.nodes[n].kind == g.nodes[n].kind && k.nodes[n].options == g.nodes[n].options
  {
    SavedOptionsRebuildNode(g.definitions[g.nodes[n].kind], g.nodes[n].options);
  }

  lemma SavedSettingsAreWritten(own: Settings, g: Graph, h: Graph, done: set<Name>)
    requires PartLoaded(own, g, h, done) && SETTINGS_ID !in done
    requires SETTINGS_TYPE in g.definitions && AllCanonical(RuleOf(g.definitions[SETTINGS_TYPE].schema),
                                                            g.nodes[SETTINGS_ID].options)
    ensures var saved := Object(g.nodes[SETTINGS_ID].options);
            UpdateNodeError(h, SETTINGS_ID, saved).NoError?
            && PartLoaded(own, g, UpdateNode(h, SETTINGS_ID, saved), done + {SETTINGS_ID})
  {
    CanonicalOverwrite(RuleOf(g.definitions[SETTINGS_TYPE].schema), own, g.nodes[SETTINGS_ID].options);
  }

  lemma SavedEntryLoads(own: Settings, g: Graph, h: Graph, done: set<Name>, n: Name)
    requires Defined(h) && PartLoaded(own, g, h, done) && n !in done && Restorable(g, n)
    ensures var e := SavedEntry(g.definitions, n, g.nodes[n]);
            LoadEntry(h, e).0.None? && PartLoaded(own, g, LoadEntry(h, e).1, done + {n})
  {
    if n == SETTINGS_ID {
      SavedSettingsAreWritten(own, g, h, done);
    } else {
      SavedNodeIsAdded(g, h, n);
      AddedNodeIsLoaded(own, g, h, AddNode(h, g.nodes[n].kind, n, Object(g.nodes[n].options)), done, n);
    }
  }

  lemma AddedNodeIsLoaded(own: Settings, g: Graph, h: Graph, k: Graph, done: set<Name>, n: Name)
    requires PartLoaded(own, g, h, done) && n !in done && n in g.nodes && n != SETTINGS_ID
    requires k.nodes.Keys == h.nodes.Keys + {n} && k.connections == h.connections && k.definitions == h.definitions
    requires forall m :: m in h.nodes ==> k.nodes[m] == h.nodes[m]
    requires k.nodes[n].kind == g.nodes[n].kind && k.nodes[n].options == g.nodes[n].options
    ensures PartLoaded(own, g, k, done + {n})
  {
  }

  lemma FirstEntryLoads(own: Settings, g: Graph, h: Graph, done: set<Name>, order: seq<Name>, entries: seq<NodeEntry>)
    requires Inv(h) && PartLoaded(own, g, h, done) && EntriesOf(g, order, entries)
    requires order != [] && order[0] !in done
    ensures var (error, k) := LoadEntry(h, entries[0]);
            error.None? && Inv(k) && PartLoaded(own, g, k, done + {order[0]})
            && LoadNodes(h, entries) == LoadNodes(k, entries[1..])
  {
    SavedEntryLoads(own, g, h, done, order[0]);
    LoadEntryKeepsInv(h, entries[0]);
  }

  lemma EntriesTail(g: Graph, order: seq<Name>, entries: seq<NodeEntry>)
    requires EntriesOf(g, order, entries) && order != []
    ensures EntriesOf(g, order[1..], entries[1..])
  {
    forall k | 0 <= k < |order| - 1
      ensures Restorable(g, order[1..][k])
      ensures entries[1..][k] == SavedEntry(g.definitions, order[1..][k], g.nodes[order[1..][k]])
    {
      assert Restorable(g, order[k + 1]);
    }
  }

  lemma FirstAndRest(order: seq<Name>, done: set<Name>)
    requires Distinct(order) && order != [] && forall n :: n in order ==> n !in done
    ensures order[0] !in done && Distinct(order[1..])
    ensures forall n :: n in order[1..] ==> n !in done + {order[0]}
    ensures done + {order[0]} + Elements(order[1..]) == done + Elements(order)
  {
    assert order == [order[0]] + order[1..];
  }

  lemma {:induction false} SavedNodesLoad(own: Settings, g: Graph, h: Graph, done: set<Name>, order: seq<Name>,
                                          entries: seq<NodeEntry>, loaded: (Option<Failure>, Graph))
    requires Inv(h) && PartLoaded(own, g, h, done) && EntriesOf(g, order, entries)
    requires Distinct(order) && forall n :: n in order ==> n !in done
    requires loaded == LoadNodes(h, entries)
    ensures loaded.0.None? && Inv(loaded.1) && PartLoaded(own, g, loaded.1, done + Elements(order))
    decreases |order|
  {
    if order == [] {
      assert done + Elements(order) == done;
    } else {
      FirstEntryLoads(own, g, h, done, order, entries);
      EntriesTail(g, order, entries);
      FirstAndRest(order, done);
      SavedNodesLoad(own, g, LoadEntry(h, entries[0]).1, done + {order[0]}, order[1..], entries[1..], loaded);
    }
  }

  /** Loading the connections. */

  // Nodes, types and options of two graphs agree.
  ghost predicate SameNodes(g: Graph, h: Graph) {
    && g.definitions == h.definitions && g.nodes.Keys == h.nodes.Keys
    && forall n :: n in g.nodes ==> g.nodes[n].kind == h.nodes[n].kind && g.nodes[n].options == h.nodes[n].options
  }

  ghost predicate SameKinds(g: Graph, h: Graph) {
    && g.definitions == h.definitions && g.nodes.Keys == h.nodes.Keys
    && forall n :: n in g.nodes ==> g.nodes[n].kind == h.nodes[n].kind
  }

  lemma {:induction false} ListOfConcat(a: seq<Connection>, b: seq<Connection>, n: Name, i: Name)
    ensures ListOf(a + b, n, i) == ListOf(a, n, i) + ListOf(b, n, i)
    decreases |b|
  {
    if b == [] {
      assert a + b == a;
    } else {
      ListOfConcat(a + [b[0]], b[1..], n, i);
      assert a + b == a + [b[0]] + b[1..];
      ListOfAppend(a, b[0], n, i);
      assert [b[0]] + b[1..] == b;
    }
  }

  // Before a connection of the saved graph is entered again, its lists still have room.
  lemma RoomForNext(g: Graph, k: nat, n: Name, i: Name)
    requires Caps(g) && k < |g.connections| && HasInterface(g, n, i) && Touches(g.connections[k], n, i)
    ensures Displaced(ListOf(g.connections[..k], n, i), InterfaceOf(g, n, i).cap) == {}
  {
    var cons := g.connections;
    ListOfAppend(cons[..k], cons[k], n, i);
    ListOfConcat(cons[..k] + [cons[k]], cons[k + 1..], n, i);
    assert cons == cons[..k] + [cons[k]] + cons[k + 1..];
    assert Within(|ListOf(cons, n, i)|, InterfaceOf(g, n, i).cap);
  }

  lemma NextClosesNoCycle(cons: seq<Connection>, k: nat)
    requires Acyclic(cons) && k < |cons|
    ensures !Reach(cons[..k], cons[k].toNode, cons[k].fromNode)
  {
    var c := cons[k];
    assert c in cons;
    assert Linked(cons, c.fromNode, c.toNode);
    AcyclicMeansNoWayBack(cons, c.fromNode, c.toNode);
    forall p | Path(cons[..k], p) && p[0] == c.toNode ensures p[|p| - 1] != c.fromNode {
      FewerConnectionsFewerPaths(cons[..k], cons, p);
    }
  }

  lemma SameInterface(g: Graph, h: Graph, n: Name, i: Name)
    requires SameKinds(g, h) && HasInterface(g, n, i)
    ensures HasInterface(h, n, i) && InterfaceOf(h, n, i) == InterfaceOf(g, n, i)
  {
  }

  lemma SavedConnectionIsAccepted(g: Graph, h: Graph, k: nat)
    requires Sound(g) && Distinct(g.connections) && Acyclic(g.connections) && k < |g.connections|
    requires SameKinds(g, h) && h.connections == g.connections[..k]
    ensures AddConnectionError(h, g.connections[k]).NoError?
    ensures Oriented(h, g.connections[k]) == g.connections[k]
  {
    var c := g.connections[k];
    assert WellTyped(g, c);
    SameInterface(g, h, c.fromNode, c.fromInterface);
    SameInterface(g, h, c.toNode, c.toInterface);
    NextClosesNoCycle(g.connections, k);
  }

  lemma SavedConnectionEvictsNothing(g: Graph, h: Graph, k: nat)
    requires Sound(g) && Caps(g) && k < |g.connections|
    requires SameKinds(g, h) && h.connections == g.connections[..k]
    ensures BothEnds(h, g.connections[k]) && Evicted(h, g.connections[k]) == {}
  {
    var c := g.connections[k];
    assert WellTyped(g, c);
    SameInterface(g, h, c.fromNode, c.fromInterface);
    SameInterface(g, h, c.toNode, c.toInterface);
    RoomForNext(g, k, c.fromNode, c.fromInterface);
    RoomForNext(g, k, c.toNode, c.toInterface);
  }

  lemma SavedConnectionJoins(g: Graph, h: Graph, k: nat)
    requires Sound(g) && Caps(g) && Distinct(g.connections) && Acyclic(g.connections) && k < |g.connections|
    requires SameKinds(g, h) && h.connections == g.connections[..k]
    ensures AddConnectionError(h, g.connections[k]).NoError?
    ensures AddConnection(h, g.connections[k]) == Append(h, g.connections[k])
    ensures SameNodes(h, AddConnection(h, g.connections[k]))
    ensures AddConnection(h, g.connections[k]).connections == g.connections[..k + 1]
  {
    SavedConnectionIsAccepted(g, h, k);
    SavedConnectionEvictsNothing(g, h, k);
    DropNothing(Append(h, g.connections[k]));
    assert g.connections[..k + 1] == g.connections[..k] + [g.connections[k]];
  }

  lemma {:induction false} SavedConnectionsLoad(g: Graph, h: Graph, k: nat, loaded: (Option<Failure>, Graph))
    requires Sound(g) && Caps(g) && Distinct(g.connections) && Acyclic(g.connections) && k <= |g.connections|
    requires SameKinds(g, h) && h.connections == g.connections[..k] && Inv(h)
    requires loaded == LoadConnections(h, g.connections[k..])
    ensures loaded.0.None? && Inv(loaded.1)
    ensures SameNodes(h, loaded.1) && loaded.1.connections == g.connections
    decreases |g.connections| - k
  {
    if k < |g.connections| {
      var c := g.connections[k];
      SavedConnectionJoins(g, h, k);
      AddConnectionKeepsInv(h, c);
      assert g.connections[k..][1..] == g.connections[k + 1..];
      SavedConnectionsLoad(g, AddConnection(h, c), k + 1, loaded);
    }
  }

  /** The round trip. */

  // The same nodes with the same types and options, the same connections in the same order, and the same lists at
  // every interface.
  ghost predicate SameConfiguration(g: Graph, h: Graph) {
    && SameNodes(g, h) && g.connections == h.connections
    && forall n :: n in g.nodes ==> g.nodes[n].links == h.nodes[n].links
  }

  lemma SameConnectionsSameLists(g: Graph, h: Graph)
    requires Defined(g) && Lists(g) && Defined(h) && Lists(h) && SameKinds(g, h) && g.connections == h.connections
    ensures forall n :: n in g.nodes ==> g.nodes[n].links == h.nodes[n].links
  {
    forall n | n in g.nodes ensures g.nodes[n].links == h.nodes[n].links {
      assert DefinedRecord(g.definitions, g.nodes[n]) && DefinedRecord(h.definitions, h.nodes[n]);
    }
  }

  // Migration leaves a saved document alone.
  lemma SavedDocumentMigrates(g: Graph, order: seq<Name>)
    requires Inv(g) && Traversal(g.nodes, order)
    ensures var m := MigrateNodes(g.definitions, SavedNodes(g, order), map[]);
            m.error.None? && m.nodes == SavedNodes(g, order) && SoundInfos(g.definitions, m.infos)
            && MigrateConnections(g.definitions, m.infos, g.connections) == (None, g.connections)
  {
    SavedNodesAreEntries(g, order);
    EntriesMigrate(g, order, SavedNodes(g, order));
  }

  lemma EntriesMigrate(g: Graph, order: seq<Name>, entries: seq<NodeEntry>)
    requires EntriesOf(g, order, entries) && Traversal(g.nodes, order)
    requires Versioned(g.definitions) && Sound(g)
    ensures var m := MigrateNodes(g.definitions, entries, map[]);
            m.error.None? && m.nodes == entries && SoundInfos(g.definitions, m.infos)
            && MigrateConnections(g.definitions, m.infos, g.connections) == (None, g.connections)
  {
    var m := MigrateNodes(g.definitions, entries, map[]);
    EntriesAreCurrent(g, order, entries);
    CurrentNodesAreUnchanged(g.definitions, entries, map[]);
    MigratedInfosAreSound(g.definitions, entries, map[]);
    forall c | c in g.connections ensures c.fromNode in m.infos && c.toNode in m.infos {
      EndsAreNamed(g, order, entries, c);
      MigrationRemembersNodes(g.definitions, entries, map[], c.fromNode);
      MigrationRemembersNodes(g.definitions, entries, map[], c.toNode);
    }
    CurrentConnectionsAreUnchanged(g.definitions, m.infos, g.connections);
  }

  lemma EndsAreNamed(g: Graph, order: seq<Name>, entries: seq<NodeEntry>, c: Connection)
    requires EntriesOf(g, order, entries) && Traversal(g.nodes, order) && Sound(g) && c in g.connections
    ensures Named(entries, c.fromNode) && Named(entries, c.toNode)
  {
    assert WellTyped(g, c);
    assert c.fromNode in Elements(order) && c.toNode in Elements(order);
    EntriesAreNamed(g, order, entries, c.fromNode);
    EntriesAreNamed(g, order, entries, c.toNode);
  }

  lemma LoadSkipsMigration(g0: Graph, doc: Document, infos: LoadInfos)
    requires Inv(g0) && OnlySettings(g0) && doc.schemaVersion == Some(Int(SCHEMA_VERSION))
    requires MigrateNodes(g0.definitions, doc.nodes, map[]) == MigratedNodes(None, doc.nodes, infos)
    requires SoundInfos(g0.definitions, infos)
    requires MigrateConnections(g0.definitions, infos, doc.connections) == (None, doc.connections)
    requires LoadNodes(g0, doc.nodes).0.None?
    ensures Load(g0, doc) == LoadConnections(LoadNodes(g0, doc.nodes).1, doc.connections)
  {
  }

  lemma FreshIsPartLoaded(g0: Graph, g: Graph)
    requires OnlySettings(g0) && g0.definitions == g.definitions && HasSettings(g0) && HasSettings(g)
    ensures PartLoaded(g0.nodes[SETTINGS_ID].options, g, g0, {})
  {
  }

  lemma EntriesLoadIntoFresh(g0: Graph, g: Graph, order: seq<Name>, entries: seq<NodeEntry>)
    requires OnlySettings(g0) && g0.definitions == g.definitions && Inv(g0) && HasSettings(g)
    requires EntriesOf(g, order, entries) && Traversal(g.nodes, order)
    ensures LoadNodes(g0, entries).0.None? && Inv(LoadNodes(g0, entries).1)
    ensures PartLoaded(g0.nodes[SETTINGS_ID].options, g, LoadNodes(g0, entries).1, g.nodes.Keys)
  {
    FreshIsPartLoaded(g0, g);
    assert {} + Elements(order) == g.nodes.Keys;
    SavedNodesLoad(g0.nodes[SETTINGS_ID].options, g, g0, {}, order, entries, LoadNodes(g0, entries));
  }

  lemma SavedNodesLoadIntoFresh(g0: Graph, g: Graph, order: seq<Name>)
    requires Inv(g) && Inv(g0) && OnlySettings(g0) && g0.definitions == g.definitions && Traversal(g.nodes, order)
    ensures LoadNodes(g0, SavedNodes(g, order)).0.None? && Inv(LoadNodes(g0, SavedNodes(g, order)).1)
    ensures PartLoaded(g0.nodes[SETTINGS_ID].options, g, LoadNodes(g0, SavedNodes(g, order)).1, g.nodes.Keys)
  {
    SavedNodesAreEntries(g, order);
    EntriesLoadIntoFresh(g0, g, order, SavedNodes(g, order));
  }

  lemma LoadOfSavedDocument(g0: Graph, g: Graph, order: seq<Name>)
    requires Inv(g) && Inv(g0) && OnlySettings(g0) && g0.definitions == g.definitions && Traversal(g.nodes, order)
    ensures Load(g0, Save(g, order)) == LoadConnections(LoadNodes(g0, SavedNodes(g, order)).1, g.connections)
  {
    SavedDocumentMigrates(g, order);
    SavedNodesLoadIntoFresh(g0, g, order);
    LoadSkipsMigration(g0, Save(g, order), MigrateNodes(g.definitions, SavedNodes(g, order), map[]).infos);
  }

  lemma LoadedNodesHaveKinds(own: Settings, g: Graph, h: Graph)
    requires PartLoaded(own, g, h, g.nodes.Keys)
    ensures SameKinds(g, h)
    ensures SameNodes(g, h) <==> own + g.nodes[SETTINGS_ID].options == g.nodes[SETTINGS_ID].options
  {
    assert {SETTINGS_ID} + g.nodes.Keys == g.nodes.Keys;
  }

  lemma CoveredExactlyWhenNamed(own: Settings, saved: Settings)
    ensures own + saved == saved <==> own.Keys <= saved.Keys
  {
    if own + saved == saved {
      assert (own + saved).Keys == own.Keys + saved.Keys;
    }
  }

  // A saved configuration loads without an error or an eviction into a manager that has only its settings node,
  // and reproduces the saved one exactly when that manager's settings have no option the saved settings lack.
  lemma SavedConfigurationLoads(g0: Graph, g: Graph, order: seq<Name>)
    requires Inv(g) && Inv(g0) && OnlySettings(g0) && g0.definitions == g.definitions && Traversal(g.nodes, order)
    ensures var (failure, h) := Load(g0, Save(g, order));
            failure.None? && Inv(h) && h.connections == g.connections
            && (SameConfiguration(g, h) <==>
                g0.nodes[SETTINGS_ID].options.Keys <= g.nodes[SETTINGS_ID].options.Keys)
  {
    var nodes := LoadNodes(g0, SavedNodes(g, order)).1;
    LoadOfSavedDocument(g0, g, order);
    SavedNodesLoadIntoFresh(g0, g, order);
    ConnectionsCompleteIt(g0.nodes[SETTINGS_ID].options, g, nodes, LoadConnections(nodes, g.connections));
  }

  lemma ConnectionsCompleteIt(own: Settings, g: Graph, h: Graph, loaded: (Option<Failure>, Graph))
    requires Inv(g) && Inv(h) && PartLoaded(own, g, h, g.nodes.Keys)
    requires loaded == LoadConnections(h, g.connections)
    ensures loaded.0.None? && Inv(loaded.1) && loaded.1.connections == g.connections
    ensures SameConfiguration(g, loaded.1) <==> own.Keys <= g.nodes[SETTINGS_ID].options.Keys
  {
    LoadedNodesHaveKinds(own, g, h);
    assert g.connections[0..] == g.connections && g.connections[..0] == [];
    SavedConnectionsLoad(g, h, 0, loaded);
    OnlySettingsCanDiffer(own, g, h, loaded.1);
  }

  lemma OnlySettingsCanDiffer(own: Settings, g: Graph, h: Graph, k: Graph)
    requires PartLoaded(own, g, h, g.nodes.Keys) && SameNodes(h, k) && k.connections == g.connections
    requires Defined(g) && Lists(g) && Defined(k) && Lists(k)
    ensures SameConfiguration(g, k) <==> own.Keys <= g.nodes[SETTINGS_ID].options.Keys
  {
    LoadedNodesHaveKinds(own, g, h);
    SameConnectionsSameLists(g, k);
    CoveredExactlyWhenNamed(own, g.nodes[SETTINGS_ID].options);
  }

  lemma FreshSettings(definitions: Definitions)
    requires SoundDefinitions(definitions)
    ensures OnlySettings(Init(definitions))
    ensures Init(definitions).nodes[SETTINGS_ID].options.Keys == SETTINGS_DEFAULTS.Keys
  {
    EmptyCore(definitions);
    DefaultSettingsAccepted();
    var rule := RuleOf(SETTINGS_SCHEMA);
    assert Updated(rule, map[], Object(SETTINGS_DEFAULTS)).Keys == SETTINGS_DEFAULTS.Keys;
    assert Normalized(rule, Object(map[])) == map[];
  }

  function Naming(text: string): Action { UpdateNodeAction(SETTINGS_ID, Object(map[NAME := Text(text)])) }

  lemma NameIsAccepted(schema: Schema, state: Settings, text: string)
    ensures Acceptable(RuleOf(schema), Object(map[NAME := Text(text)]))
    ensures NAME in Updated(RuleOf(schema), state, Object(map[NAME := Text(text)]))
  {
    var rule, options := RuleOf(schema), Object(map[NAME := Text(text)]);
    assert rule(NAME, Text(text)) == Accepted(Text(text), false);
    assert NAME in Normalized(rule, options);
  }

  lemma NamingAddsName(g: Graph, text: string)
    requires Defined(g) && OnlySettings(g)
    ensures var h := Step(g, Naming(text));
            OnlySettings(h) && h.definitions == g.definitions && NAME in h.nodes[SETTINGS_ID].options
  {
    var r := g.nodes[SETTINGS_ID];
    assert DefinedRecord(g.definitions, r);
    NameIsAccepted(g.definitions[r.kind].schema, r.options, text);
  }

  lemma OneNodeTraversal(g: Graph)
    requires OnlySettings(g)
    ensures Traversal(g.nodes, [SETTINGS_ID])
  {
    assert Elements([SETTINGS_ID]) == {SETTINGS_ID};
  }

  lemma NameIsKept(g: Graph, h: Graph)
    requires Inv(g) && Inv(h) && OnlySettings(g) && OnlySettings(h) && h.definitions == g.definitions
    requires NAME in h.nodes[SETTINGS_ID].options && NAME !in g.nodes[SETTINGS_ID].options
    ensures Traversal(g.nodes, [SETTINGS_ID])
    ensures Load(h, Save(g, [SETTINGS_ID])).0.None?
    ensures !SameConfiguration(g, Load(h, Save(g, [SETTINGS_ID])).1)
  {
    OneNodeTraversal(g);
    SavedConfigurationLoads(h, g, [SETTINGS_ID]);
  }

  lemma NamedManagerIsReached(definitions: Definitions, text: string)
    requires SoundDefinitions(definitions)
    ensures Reaches(definitions, [], Init(definitions)) && Inv(Init(definitions))
    ensures Reaches(definitions, [Naming(text)], Step(Init(definitions), Naming(text)))
  {
    InitHolds(definitions);
    assert [Naming(text)][..0] == [];
  }

  lemma FreshHasNoName(definitions: Definitions)
    requires SoundDefinitions(definitions)
    ensures OnlySettings(Init(definitions)) && NAME !in Init(definitions).nodes[SETTINGS_ID].options
  {
    FreshSettings(definitions);
    assert NAME !in SETTINGS_DEFAULTS.Keys;
    assert NAME !in Init(definitions).nodes[SETTINGS_ID].options.Keys;
  }

  // A document saved from a fresh manager, and a manager whose settings node has been given a name since: loading the
  // document there succeeds and keeps the name.
  lemma ExtraSettingIsKept(definitions: Definitions, text: string, g: Graph, h: Graph)
    requires SoundDefinitions(definitions) && g == Init(definitions)
    requires Defined(g) && h == Step(g, Naming(text))
    ensures Reaches(definitions, [], g) && Inv(g) && Traversal(g.nodes, [SETTINGS_ID])
    ensures Reaches(definitions, [Naming(text)], h) && Inv(h) && OnlySettings(h)
    ensures Load(h, Save(g, [SETTINGS_ID])).0.None?
    ensures !SameConfiguration(g, Load(h, Save(g, [SETTINGS_ID])).1)
  {
    NamedManagerIsReached(definitions, text);
    FreshHasNoName(definitions);
    NamingAddsName(g, text);
    StepKeepsInv(g, Naming(text));
    NameIsKept(g, h);
  }

  // A table of node types with nothing but the settings type.
  const SETTINGS_ONLY: Definitions := map[SETTINGS_TYPE := Definition(map[], SETTINGS_SCHEMA, SETTINGS_DEFAULTS, [])]

  lemma SettingsOnlyIsSound()
    ensures SoundDefinitions(SETTINGS_ONLY)
  {
  }

  // Save any configuration reached by any run, load it into a fresh manager: nothing is rejected, nothing is
  // evicted, and nodes, options, connection order and interface lists are those that were saved.
  lemma EverySavedConfigurationRoundTrips(definitions: Definitions, run: seq<Action>, g: Graph, order: seq<Name>)
    requires SoundDefinitions(definitions) && Reaches(definitions, run, g) && Traversal(g.nodes, order)
    ensures Inv(g) && Inv(Init(definitions))
    ensures Load(Init(definitions), Save(g, order)).0.None?
    ensures SameConfiguration(g, Load(Init(definitions), Save(g, order)).1)
  {
    EveryRunKeepsGraphSound(definitions, run, g);
    InitHolds(definitions);
    FreshSettings(definitions);
    EveryNodeIsRestorable(g, SETTINGS_ID);
    SavedConfigurationLoads(Init(definitions), g, order);
  }
}
