/** Loading and saving as the loops of the source, and what migration does to a document. */
module ConfigurationStore {
  import opened Common
  import opened Options
  import opened NodeGraph
  import opened NodeGraphSafety
  import opened NodeManager
  import opened Configuration

  method MigrateEntryOptions(definition: Definition, version: nat, options: Json) returns (migrated: Json)
    requires 0 < version <= SchemaVersion(definition)
    ensures migrated == MigrateOptions(definition.migrations[version - 1..], options)
  {
    migrated := options;
    for v := version to SchemaVersion(definition)
      invariant MigrateOptions(definition.migrations[version - 1..], options)
                == MigrateOptions(definition.migrations[v - 1..], migrated)
    {
      assert definition.migrations[v - 1..][1..] == definition.migrations[v..];
      migrated := definition.migrations[v - 1].options(migrated);
    }
    assert definition.migrations[SchemaVersion(definition) - 1..] == [];
  }

  lemma MigrateFirst(definitions: Definitions, nodes: seq<NodeEntry>, infos: LoadInfos) returns (rest: MigratedNodes)
    requires nodes != []
    ensures var e, all := nodes[0], MigrateNodes(definitions, nodes, infos);
            if EntryError(definitions, e).Some? then all.error == EntryError(definitions, e)
            else if e.id in infos then all.error == Some(DuplicateNode)
            else rest == MigrateNodes(definitions, nodes[1..],
                                      infos[e.id := LoadInfo(e.kind, EntryVersion(definitions, e))])
                 && all == rest.(nodes := [MigratedEntry(definitions, e)] + rest.nodes)
  {
    var e := nodes[0];
    rest := MigratedNodes(None, [], infos);
    if EntryError(definitions, e).None? && e.id !in infos {
      rest := MigrateNodes(definitions, nodes[1..], infos[e.id := LoadInfo(e.kind, EntryVersion(definitions, e))]);
    }
  }

  method MigrateNode(definitions: Definitions, e: NodeEntry, infos: LoadInfos)
    returns (error: Option<Failure>, migrated: NodeEntry, info: LoadInfo)
    ensures error == if EntryError(definitions, e).Some? then EntryError(definitions, e)
                     else if e.id in infos then Some(DuplicateNode) else None
    ensures error.None? ==>
              migrated == MigratedEntry(definitions, e) && info == LoadInfo(e.kind, EntryVersion(definitions, e))
  {
    error, migrated, info := EntryError(definitions, e), e, LoadInfo(e.kind, 0);
    if error.Some? {
      return;
    }
    info := LoadInfo(e.kind, EntryVersion(definitions, e));
    var options := MigrateEntryOptions(definitions[e.kind], info.version, e.options);
    migrated := e.(options := options, schemaVersion := Some(Int(SchemaVersion(definitions[e.kind]))));
    if e.id in infos {
      error := Some(DuplicateNode);
    }
  }

  method MigrateAllNodes(definitions: Definitions, nodes: seq<NodeEntry>)
    returns (error: Option<Failure>, migrated: seq<NodeEntry>, infos: LoadInfos)
    ensures error == MigrateNodes(definitions, nodes, map[]).error
    ensures error.None? ==> MigratedNodes(None, migrated, infos) == MigrateNodes(definitions, nodes, map[])
  {
    error, migrated, infos := None, [], map[];
    ghost var all := MigrateNodes(definitions, nodes, map[]);
    ghost var rest := all;
    for k := 0 to |nodes|
      invariant error.None? && rest == MigrateNodes(definitions, nodes[k..], infos)
      invariant all == rest.(nodes := migrated + rest.nodes)
    {
      var e := nodes[k];
      assert nodes[k..][0] == e && nodes[k..][1..] == nodes[k + 1..];
      rest := MigrateFirst(definitions, nodes[k..], infos);
      var entry, info;
      error, entry, info := MigrateNode(definitions, e, infos);
      if error.Some? {
        return;
      }
      migrated := migrated + [entry];
      infos := infos[e.id := info];
    }
    assert nodes[|nodes|..] == [];
  }

  method MigrateInterfaces(definition: Definition, version: nat, outgoing: bool, i: Name) returns (migrated: Name)
    requires 0 < version <= SchemaVersion(definition)
    ensures migrated == if outgoing then MigrateOutput(definition.migrations[version - 1..], i)
                        else MigrateInput(definition.migrations[version - 1..], i)
  {
    migrated := i;
    for v := version to SchemaVersion(definition)
      invariant MigrateOutput(definition.migrations[version - 1..], i)
                == MigrateOutput(definition.migrations[v - 1..], migrated) || !outgoing
      invariant MigrateInput(definition.migrations[version - 1..], i)
                == MigrateInput(definition.migrations[v - 1..], migrated) || outgoing
    {
      assert definition.migrations[v - 1..][1..] == definition.migrations[v..];
      var migration := definition.migrations[v - 1];
      migrated := if outgoing then migration.outputInterface(migrated) else migration.inputInterface(migrated);
    }
    assert definition.migrations[SchemaVersion(definition) - 1..] == [];
  }

  method MigrateAllConnections(definitions: Definitions, infos: LoadInfos, cons: seq<Connection>)
    returns (error: Option<Failure>, migrated: seq<Connection>)
    requires SoundInfos(definitions, infos)
    ensures error == MigrateConnections(definitions, infos, cons).0
    ensures error.None? ==> migrated == MigrateConnections(definitions, infos, cons).1
  {
    error, migrated := None, [];
    ghost var all := MigrateConnections(definitions, infos, cons);
    for k := 0 to |cons|
      invariant error.None?
      invariant all.0 == MigrateConnections(definitions, infos, cons[k..]).0
      invariant all.1 == migrated + MigrateConnections(definitions, infos, cons[k..]).1
    {
      var c := cons[k];
      assert cons[k..][0] == c && cons[k..][1..] == cons[k + 1..];
      if c.fromNode !in infos || c.toNode !in infos {
        error := Some(MissingNode);
        return;
      }
      var from, to := infos[c.fromNode], infos[c.toNode];
      var fromInterface := MigrateInterfaces(definitions[from.kind], from.version, true, c.fromInterface);
      var toInterface := MigrateInterfaces(definitions[to.kind], to.version, false, c.toInterface);
      migrated := migrated + [c.(fromInterface := fromInterface, toInterface := toInterface)];
    }
    assert cons[|cons|..] == [];
  }

  class ConfigurationStore {
    const nodeManager: NodeManager

    constructor (nodeManager: NodeManager)
      ensures this.nodeManager == nodeManager
    {
      this.nodeManager := nodeManager;
    }

    method LoadConfig(doc: Document) returns (failure: Option<Failure>)
      requires Inv(nodeManager.View())
      modifies nodeManager
      ensures (failure, nodeManager.View()) == Load(old(nodeManager.View()), doc)
      ensures Inv(nodeManager.View())
    {
      var version := GetSchemaVersion(doc.schemaVersion);
      if version.None? {
        return Some(BadVersion);
      }
      if version.value != SCHEMA_VERSION {
        return Some(UnsupportedVersion);
      }
      if nodeManager.nodes.Keys != {SETTINGS_ID} || nodeManager.connections != [] {
        return Some(NotEmpty);
      }
      var definitions := nodeManager.definitions;
      var nodes, infos, connections;
      failure, nodes, infos := MigrateAllNodes(definitions, doc.nodes);
      if failure.Some? {
        return;
      }
      MigratedInfosAreSound(definitions, doc.nodes, map[]);
      failure, connections := MigrateAllConnections(definitions, infos, doc.connections);
      if failure.Some? {
        return;
      }
      failure := LoadAllNodes(nodes);
      if failure.Some? {
        return;
      }
      failure := LoadAllConnections(connections);
    }

    method LoadAllNodes(nodes: seq<NodeEntry>) returns (failure: Option<Failure>)
      requires Inv(nodeManager.View())
      modifies nodeManager
      ensures (failure, nodeManager.View()) == LoadNodes(old(nodeManager.View()), nodes)
      ensures Inv(nodeManager.View())
    {
      ghost var all := LoadNodes(nodeManager.View(), nodes);
      for k := 0 to |nodes|
        invariant Inv(nodeManager.View()) && all == LoadNodes(nodeManager.View(), nodes[k..])
      {
        assert nodes[k..][0] == nodes[k] && nodes[k..][1..] == nodes[k + 1..];
        LoadEntryKeepsInv(nodeManager.View(), nodes[k]);
        failure := LoadOne(nodes[k]);
        if failure.Some? {
          return;
        }
      }
      failure := None;
      assert nodes[|nodes|..] == [];
    }

    method LoadOne(e: NodeEntry) returns (failure: Option<Failure>)
      requires Defined(nodeManager.View())
      modifies nodeManager
      ensures (failure, nodeManager.View()) == LoadEntry(old(nodeManager.View()), e)
    {
      var error;
      if e.id == SETTINGS_ID {
        if e.kind != SETTINGS_TYPE {
          return Some(WrongSettingsType);
        }
        var corrected;
        error, corrected := nodeManager.HandleUpdateNode(e.id, e.options);
      } else {
        error := nodeManager.HandleAddNode(e.kind, e.id, e.options);
      }
      failure := if error.NoError? then None else Some(Rejected(error));
    }

    method LoadAllConnections(cons: seq<Connection>) returns (failure: Option<Failure>)
      requires Inv(nodeManager.View())
      modifies nodeManager
      ensures (failure, nodeManager.View()) == LoadConnections(old(nodeManager.View()), cons)
      ensures Inv(nodeManager.View())
    {
      ghost var all := LoadConnections(nodeManager.View(), cons);
      for k := 0 to |cons|
        invariant Inv(nodeManager.View()) && all == LoadConnections(nodeManager.View(), cons[k..])
      {
        assert cons[k..][0] == cons[k] && cons[k..][1..] == cons[k + 1..];
        AddConnectionKeepsInv(nodeManager.View(), cons[k]);
        var error := nodeManager.HandleAddConnection(cons[k]);
        if !error.NoError? {
          return Some(Rejected(error));
        }
      }
      failure := None;
      assert cons[|cons|..] == [];
    }

    method GetConfig() returns (doc: Document)
      requires Defined(nodeManager.View())
      ensures exists order :: Traversal(nodeManager.nodes, order) && doc == Save(nodeManager.View(), order)
    {
      var nodes, definitions := nodeManager.nodes, nodeManager.definitions;
      var entries: seq<NodeEntry> := [];
      ghost var order: seq<Name> := [];
      var rest := nodes.Keys;
      while rest != {}
        invariant rest !! Elements(order) && rest + Elements(order) == nodes.Keys
        invariant Distinct(order) && |entries| == |order|
        invariant forall k :: 0 <= k < |order| ==> order[k] in nodes && nodes[order[k]].kind in definitions
                                                   && entries[k] == SavedEntry(definitions, order[k], nodes[order[k]])
        decreases rest
      {
        var id :| id in rest;
        assert DefinedRecord(definitions, nodes[id]);
        assert Elements(order + [id]) == Elements(order) + {id};
        assert id !in Elements(order);
        entries := entries + [SavedEntry(definitions, id, nodes[id])];
        order := order + [id];
        rest := rest - {id};
      }
      doc := Document(Some(Int(SCHEMA_VERSION)), entries, nodeManager.connections);
      assert forall n :: n in order ==> n in Elements(order);
      assert Traversal(nodeManager.nodes, order);
      assert entries == SavedNodes(nodeManager.View(), order);
      assert doc == Save(nodeManager.View(), order);
    }
  }

  /** Migration happens once: what it leaves is up to date. */

  lemma MigratedEntryIsCurrent(definitions: Definitions, e: NodeEntry)
    requires Versioned(definitions) && EntryError(definitions, e).None?
    ensures EntryError(definitions, MigratedEntry(definitions, e)).None?
    ensures MigratedEntry(definitions, MigratedEntry(definitions, e)) == MigratedEntry(definitions, e)
  {
    CurrentEntryIsUnchanged(definitions, MigratedEntry(definitions, e));
  }

  ghost predicate SameIds(a: seq<NodeEntry>, b: seq<NodeEntry>) {
    |a| == |b| && forall k :: 0 <= k < |a| ==> a[k].id == b[k].id && a[k].kind == b[k].kind
  }

  lemma {:induction false} MigratedNodesAreCurrent(definitions: Definitions, nodes: seq<NodeEntry>, infos: LoadInfos,
                                                   m: MigratedNodes)
    requires Versioned(definitions) && m == MigrateNodes(definitions, nodes, infos) && m.error.None?
    ensures CurrentNodes(definitions, m.nodes) && SameIds(nodes, m.nodes)
    ensures forall e :: e in m.nodes ==> e.id !in infos
    decreases |nodes|
  {
    if nodes != [] {
      var e := nodes[0];
      var more := infos[e.id := LoadInfo(e.kind, EntryVersion(definitions, e))];
      var rest := MigrateNodes(definitions, nodes[1..], more);
      MigratedNodesAreCurrent(definitions, nodes[1..], more, rest);
      MigratedEntryIsCurrent(definitions, e);
      FirstJoinsCurrent(definitions, MigratedEntry(definitions, e), rest.nodes);
      assert m.nodes[1..] == rest.nodes;
      assert forall k :: 1 <= k < |nodes| ==> nodes[k] == nodes[1..][k - 1] && m.nodes[k] == rest.nodes[k - 1];
    }
  }

  lemma FirstJoinsCurrent(definitions: Definitions, e: NodeEntry, rest: seq<NodeEntry>)
    requires CurrentNodes(definitions, rest) && e.kind in definitions
    requires e.schemaVersion == Some(Int(SchemaVersion(definitions[e.kind])))
    requires forall f :: f in rest ==> f.id != e.id
    ensures CurrentNodes(definitions, [e] + rest)
  {
    var all := [e] + rest;
    forall j, k | 0 <= j < k < |all| ensures all[j].id != all[k].id {
      assert all[k] in rest;
      if j > 0 { assert rest[j - 1].id != rest[k - 1].id; }
    }
  }

  // Migrating in two stages is migrating at once.
  lemma {:induction false} MigrationComposes(first: seq<Migration>, later: seq<Migration>, options: Json, i: Name)
    ensures MigrateOptions(first + later, options) == MigrateOptions(later, MigrateOptions(first, options))
    ensures MigrateInput(first + later, i) == MigrateInput(later, MigrateInput(first, i))
    ensures MigrateOutput(first + later, i) == MigrateOutput(later, MigrateOutput(first, i))
    decreases |first|
  {
    if first == [] {
      assert first + later == later;
    } else {
      assert (first + later)[1..] == first[1..] + later;
      MigrationComposes(first[1..], later, first[0].options(options), first[0].inputInterface(i));
      MigrationComposes(first[1..], later, first[0].options(options), first[0].outputInterface(i));
    }
  }

  // A document, once migrated, migrates to itself; so a file written back after loading needs no migration again.
  lemma MigrationIsIdempotent(definitions: Definitions, nodes: seq<NodeEntry>)
    requires Versioned(definitions) && MigrateNodes(definitions, nodes, map[]).error.None?
    ensures var m := MigrateNodes(definitions, nodes, map[]);
            MigrateNodes(definitions, m.nodes, map[]).error.None?
            && MigrateNodes(definitions, m.nodes, map[]).nodes == m.nodes
            && SameIds(nodes, m.nodes)
  {
    var m := MigrateNodes(definitions, nodes, map[]);
    MigratedNodesAreCurrent(definitions, nodes, map[], m);
    CurrentNodesAreUnchanged(definitions, m.nodes, map[]);
  }
}
