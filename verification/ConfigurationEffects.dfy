/** What loading does to a document, step by step, and when it refuses one. */
module ConfigurationEffects {
  import opened Common
  import opened Options
  import opened NodeGraph
  import opened NodeGraphSafety
  import opened Configuration

  // A version is missing, or a positive number of 32 bits; anything else is an error.
  lemma VersionsAreRead(version: Option<Json>, v: nat)
    ensures GetSchemaVersion(version) == Some(v)
            <==> (version.None? && v == 1) || (0 < v < 0x1_0000_0000 && version == Some(Int(v)))
  {
  }

  // An entry is refused for an unknown type, for a version that is none, or for one newer than the type's.
  lemma EntriesAreChecked(definitions: Definitions, e: NodeEntry)
    ensures EntryError(definitions, e) == Some(UnknownType) <==> e.kind !in definitions
    ensures EntryError(definitions, e) == Some(BadVersion)
            <==> e.kind in definitions && GetSchemaVersion(e.schemaVersion).None?
    ensures EntryError(definitions, e) == Some(TooNew)
            <==> e.kind in definitions && GetSchemaVersion(e.schemaVersion).Some?
                 && GetSchemaVersion(e.schemaVersion).value > |definitions[e.kind].migrations| + 1
    ensures EntryError(definitions, e) in {None, Some(UnknownType), Some(BadVersion), Some(TooNew)}
  {
  }

  // An entry of the current version is left alone but for the version written into it.
  lemma CurrentEntryIsKept(definitions: Definitions, e: NodeEntry)
    requires EntryError(definitions, e).None?
    requires EntryVersion(definitions, e) == SchemaVersion(definitions[e.kind])
    ensures MigratedEntry(definitions, e) == e.(schemaVersion := Some(Int(EntryVersion(definitions, e))))
  {
    var d := definitions[e.kind];
    assert d.migrations[EntryVersion(definitions, e) - 1..] == [];
  }

  // The entry one version on.
  ghost function NextEntry(definitions: Definitions, e: NodeEntry): NodeEntry
    requires EntryError(definitions, e).None?
    requires EntryVersion(definitions, e) < SchemaVersion(definitions[e.kind])
  {
    var v := EntryVersion(definitions, e);
    e.(options := definitions[e.kind].migrations[v - 1].options(e.options), schemaVersion := Some(Int(v + 1)))
  }

  // An older entry goes through the migration of its own version first, and then on from the next one.
  lemma OlderEntryMigratesStepwise(definitions: Definitions, e: NodeEntry)
    requires EntryError(definitions, e).None?
    requires EntryVersion(definitions, e) < SchemaVersion(definitions[e.kind]) < 0x1_0000_0000
    ensures var next := NextEntry(definitions, e);
            EntryError(definitions, next).None? && EntryVersion(definitions, next) == EntryVersion(definitions, e) + 1
            && MigratedEntry(definitions, e) == MigratedEntry(definitions, next)
  {
    var v, migrations := EntryVersion(definitions, e), definitions[e.kind].migrations;
    assert migrations[v - 1..][1..] == migrations[v..];
  }

  // The same for the interface names of a connection, each by the type and version of the node at its end.
  lemma ConnectionMigratesStepwise(definitions: Definitions, infos: LoadInfos, c: Connection)
    requires SoundInfos(definitions, infos) && c.fromNode in infos && c.toNode in infos
    ensures var m := MigratedConnection(definitions, infos, c);
            m.fromNode == c.fromNode && m.toNode == c.toNode
            && m.fromInterface == MigrateOutput(definitions[infos[c.fromNode].kind].migrations
                                                [infos[c.fromNode].version - 1..], c.fromInterface)
            && m.toInterface == MigrateInput(definitions[infos[c.toNode].kind].migrations
                                             [infos[c.toNode].version - 1..], c.toInterface)
  {
  }

  lemma InterfaceNamesMigrateStepwise(migrations: seq<Migration>, v: nat, i: Name)
    requires 1 <= v <= |migrations| + 1
    ensures v == |migrations| + 1 ==>
              MigrateOutput(migrations[v - 1..], i) == i && MigrateInput(migrations[v - 1..], i) == i
    ensures v <= |migrations| ==>
              MigrateOutput(migrations[v - 1..], i) ==
                MigrateOutput(migrations[v..], migrations[v - 1].outputInterface(i))
              && MigrateInput(migrations[v - 1..], i) ==
                   MigrateInput(migrations[v..], migrations[v - 1].inputInterface(i))
  {
    if v <= |migrations| { assert migrations[v - 1..][1..] == migrations[v..]; }
  }

  // Every entry is migrated in its place, and remembered by its type and the version it was written in, as long as none
  // is refused and no id comes twice.
  lemma {:induction false} EveryEntryIsMigrated(definitions: Definitions, nodes: seq<NodeEntry>, infos: LoadInfos)
    requires MigrateNodes(definitions, nodes, infos).error.None?
    ensures var m := MigrateNodes(definitions, nodes, infos);
            |m.nodes| == |nodes|
            && (forall k :: 0 <= k < |nodes| ==>
                  && EntryError(definitions, nodes[k]).None? && nodes[k].id !in infos
                  && m.nodes[k] == MigratedEntry(definitions, nodes[k])
                  && nodes[k].id in m.infos
                  && m.infos[nodes[k].id] == LoadInfo(nodes[k].kind, EntryVersion(definitions, nodes[k])))
            && (forall j, k :: 0 <= j < k < |nodes| ==> nodes[j].id != nodes[k].id)
            && (forall n :: n in infos ==> n in m.infos && m.infos[n] == infos[n])
    decreases |nodes|
  {
    if nodes != [] {
      var e := nodes[0];
      var more := infos[e.id := LoadInfo(e.kind, EntryVersion(definitions, e))];
      EveryEntryIsMigrated(definitions, nodes[1..], more);
      assert forall k :: 0 < k < |nodes| ==> nodes[k] == nodes[1..][k - 1];
    }
  }

  // The first entry that is refused, or repeats an id, is the reason given.
  lemma {:induction false} FirstBadEntryIsReported(definitions: Definitions, nodes: seq<NodeEntry>, infos: LoadInfos,
                                                   k: nat)
    requires k < |nodes| && (forall j :: 0 <= j < k ==> EntryError(definitions, nodes[j]).None?)
    requires forall j :: 0 <= j < k ==> nodes[j].id !in infos
    requires forall i, j :: 0 <= i < j < k ==> nodes[i].id != nodes[j].id
    requires EntryError(definitions, nodes[k]).Some? || nodes[k].id in infos
             || exists j :: 0 <= j < k && nodes[j].id == nodes[k].id
    ensures MigrateNodes(definitions, nodes, infos).error ==
            if EntryError(definitions, nodes[k]).Some? then EntryError(definitions, nodes[k]) else Some(DuplicateNode)
    decreases k
  {
    if k > 0 {
      var e, rest := nodes[0], nodes[1..];
      assert forall j :: 0 <= j < |rest| ==> rest[j] == nodes[j + 1];
      var more := infos[e.id := LoadInfo(e.kind, EntryVersion(definitions, e))];
      if j :| 0 <= j < k && nodes[j].id == nodes[k].id {
        assert j > 0 ==> rest[j - 1].id == rest[k - 1].id;
      }
      FirstBadEntryIsReported(definitions, rest, more, k - 1);
    }
  }

  // A document is refused before anything changes for its version, for a manager in use, for one of its entries, and
  // for a connection to a node it lacks, in this order.
  lemma LoadRefusesFirst(g: Graph, doc: Document)
    requires Inv(g)
    ensures var version, m := GetSchemaVersion(doc.schemaVersion), MigrateNodes(g.definitions, doc.nodes, map[]);
            (version.None? ==> Load(g, doc) == (Some(BadVersion), g))
            && (version.Some? && version.value != 1 ==> Load(g, doc) == (Some(UnsupportedVersion), g))
            && (version == Some(1) && (g.nodes.Keys != {SETTINGS_ID} || g.connections != []) ==>
                  Load(g, doc) == (Some(NotEmpty), g))
            && (version == Some(1) && OnlySettings(g) && m.error.Some? ==> Load(g, doc) == (m.error, g))
            && (version == Some(1) && OnlySettings(g) && m.error.None?
                && (exists c :: c in doc.connections && (c.fromNode !in m.infos || c.toNode !in m.infos)) ==>
                  Load(g, doc) == (Some(MissingNode), g))
  {
    var m := MigrateNodes(g.definitions, doc.nodes, map[]);
    MigratedInfosAreSound(g.definitions, doc.nodes, map[]);
    MissingNodeIsReported(g.definitions, m.infos, doc.connections);
  }

  lemma {:induction false} MissingNodeIsReported(definitions: Definitions, infos: LoadInfos, cons: seq<Connection>)
    requires SoundInfos(definitions, infos)
    ensures MigrateConnections(definitions, infos, cons).0 ==
            if exists c :: c in cons && (c.fromNode !in infos || c.toNode !in infos) then Some(MissingNode) else None
    decreases |cons|
  {
    if cons != [] {
      MissingNodeIsReported(definitions, infos, cons[1..]);
      assert cons == [cons[0]] + cons[1..];
    }
  }

  // Nodes are entered one by one: the settings written over those there are, any other as a new node; the first that is
  // refused ends the loading.
  lemma NodesAreEntered(g: Graph, e: NodeEntry)
    requires Inv(g) && SETTINGS_ID in g.nodes
    ensures g.nodes[SETTINGS_ID].kind in g.definitions
    ensures e.id == SETTINGS_ID && e.kind != SETTINGS_TYPE ==> LoadEntry(g, e) == (Some(WrongSettingsType), g)
    ensures e.id == SETTINGS_ID && e.kind == SETTINGS_TYPE ==>
              LoadEntry(g, e) == (if UpdateNodeError(g, e.id, e.options).NoError? then None
                                  else Some(Rejected(UpdateNodeError(g, e.id, e.options))),
                                  UpdateNode(g, e.id, e.options))
    ensures e.id != SETTINGS_ID ==>
              LoadEntry(g, e) == (if AddNodeError(g, e.kind, e.id, e.options).NoError? then None
                                  else Some(Rejected(AddNodeError(g, e.kind, e.id, e.options))),
                                  AddNode(g, e.kind, e.id, e.options))
  {
    assert DefinedRecord(g.definitions, g.nodes[SETTINGS_ID]);
  }
}
