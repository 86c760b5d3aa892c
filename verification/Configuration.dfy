/** Configuration documents: migration to the current schema, loading, saving, and the round trip. */
module Configuration {
  import opened Common
  import opened FrameRate
  import opened Options
  import opened NodeGraph
  import opened NodeGraphSafety
  import opened NodeManager

  const SCHEMA_VERSION: nat := 1
  const LEGACY_SCHEMA_VERSION: nat := 1

  datatype NodeEntry = NodeEntry(id: Name, kind: Name, schemaVersion: Option<Json>, options: Json)

  datatype Document = Document(schemaVersion: Option<Json>, nodes: seq<NodeEntry>, connections: seq<Connection>)

  datatype Failure =
    | BadVersion
    | UnsupportedVersion
    | NotEmpty
    | UnknownType
    | TooNew
    | DuplicateNode
    | MissingNode
    | WrongSettingsType
    | Rejected(error: Error)

  // A missing version is the first; anything but a positive 32-bit integer is an error.
  function GetSchemaVersion(version: Option<Json>): (r: Option<nat>)
    ensures r.Some? ==> 0 < r.value < UINT32_LIMIT
  {
    if version.None? then Some(LEGACY_SCHEMA_VERSION)
    else if !version.value.Int? then None
    else if version.value.number < 1 || version.value.number >= UINT32_LIMIT then None
    else Some(version.value.number)
  }

  // What loading remembers of a node: its type and the version its document was written in.
  datatype LoadInfo = LoadInfo(kind: Name, version: nat)

  type LoadInfos = map<Name, LoadInfo>

  /** Migration. */

  function MigrateOptions(migrations: seq<Migration>, options: Json): Json {
    if migrations == [] then options else MigrateOptions(migrations[1..], migrations[0].options(options))
  }

  function MigrateInput(migrations: seq<Migration>, i: Name): Name {
    if migrations == [] then i else MigrateInput(migrations[1..], migrations[0].inputInterface(i))
  }

  function MigrateOutput(migrations: seq<Migration>, i: Name): Name {
    if migrations == [] then i else MigrateOutput(migrations[1..], migrations[0].outputInterface(i))
  }

  function EntryError(definitions: Definitions, e: NodeEntry): Option<Failure> {
    if e.kind !in definitions then Some(UnknownType)
    else
      var version := GetSchemaVersion(e.schemaVersion);
      if version.None? then Some(BadVersion)
      else if version.value > SchemaVersion(definitions[e.kind]) then Some(TooNew)
      else None
  }

  function EntryVersion(definitions: Definitions, e: NodeEntry): (r: nat)
    requires EntryError(definitions, e).None?
    ensures 0 < r <= SchemaVersion(definitions[e.kind])
  {
    GetSchemaVersion(e.schemaVersion).value
  }

  function MigratedEntry(definitions: Definitions, e: NodeEntry): NodeEntry
    requires EntryError(definitions, e).None?
  {
    var d := definitions[e.kind];
    e.(options := MigrateOptions(d.migrations[EntryVersion(definitions, e) - 1..], e.options),
       schemaVersion := Some(Int(SchemaVersion(d))))
  }

  datatype MigratedNodes = MigratedNodes(error: Option<Failure>, nodes: seq<NodeEntry>, infos: LoadInfos)

  function MigrateNodes(definitions: Definitions, nodes: seq<NodeEntry>, infos: LoadInfos): MigratedNodes {
    if nodes == [] then MigratedNodes(None, [], infos)
    else
      var e := nodes[0];
      var error := EntryError(definitions, e);
      if error.Some? then MigratedNodes(error, [], infos)
      else if e.id in infos then MigratedNodes(Some(DuplicateNode), [], infos)
      else
        var rest := MigrateNodes(definitions, nodes[1..],
                                 infos[e.id := LoadInfo(e.kind, EntryVersion(definitions, e))]);
        rest.(nodes := [MigratedEntry(definitions, e)] + rest.nodes)
  }

  // Every remembered node has a known type and a version that type has migrations from.
  ghost predicate SoundInfos(definitions: Definitions, infos: LoadInfos) {
    forall n :: n in infos ==> infos[n].kind in definitions
                               && 0 < infos[n].version <= SchemaVersion(definitions[infos[n].kind])
  }

  function MigratedConnection(definitions: Definitions, infos: LoadInfos, c: Connection): Connection
    requires SoundInfos(definitions, infos) && c.fromNode in infos && c.toNode in infos
  {
    var from, to := infos[c.fromNode], infos[c.toNode];
    c.(fromInterface := MigrateOutput(definitions[from.kind].migrations[from.version - 1..], c.fromInterface),
       toInterface := MigrateInput(definitions[to.kind].migrations[to.version - 1..], c.toInterface))
  }

  function MigrateConnections(definitions: Definitions, infos: LoadInfos, cons: seq<Connection>)
    : (r: (Option<Failure>, seq<Connection>))
    requires SoundInfos(definitions, infos)
  {
    if cons == [] then (None, [])
    else if cons[0].fromNode !in infos || cons[0].toNode !in infos then (Some(MissingNode), [])
    else
      var rest := MigrateConnections(definitions, infos, cons[1..]);
      (rest.0, [MigratedConnection(definitions, infos, cons[0])] + rest.1)
  }

  lemma {:induction false} MigratedInfosAreSound(definitions: Definitions, nodes: seq<NodeEntry>, infos: LoadInfos)
    requires SoundInfos(definitions, infos)
    ensures SoundInfos(definitions, MigrateNodes(definitions, nodes, infos).infos)
  {
    if nodes != [] && EntryError(definitions, nodes[0]).None? && nodes[0].id !in infos {
      var e := nodes[0];
      MigratedInfosAreSound(definitions, nodes[1..], infos[e.id := LoadInfo(e.kind, EntryVersion(definitions, e))]);
    }
  }

  /** Loading. */

  ghost function LoadEntry(g: Graph, e: NodeEntry): (Option<Failure>, Graph)
    requires Defined(g)
  {
    if e.id == SETTINGS_ID && e.kind != SETTINGS_TYPE then (Some(WrongSettingsType), g)
    else if e.id == SETTINGS_ID then
      var error := UpdateNodeError(g, e.id, e.options);
      (if error.NoError? then None else Some(Rejected(error)), UpdateNode(g, e.id, e.options))
    else
      var error := AddNodeError(g, e.kind, e.id, e.options);
      (if error.NoError? then None else Some(Rejected(error)), AddNode(g, e.kind, e.id, e.options))
  }

  ghost function LoadNodes(g: Graph, nodes: seq<NodeEntry>): (Option<Failure>, Graph)
    requires Inv(g)
    decreases |nodes|
  {
    if nodes == [] then (None, g)
    else
      var (error, h) := LoadEntry(g, nodes[0]);
      LoadEntryKeepsInv(g, nodes[0]);
      if error.Some? then (error, h) else LoadNodes(h, nodes[1..])
  }

  ghost function LoadConnections(g: Graph, cons: seq<Connection>): (Option<Failure>, Graph)
    decreases |cons|
  {
    if cons == [] then (None, g)
    else
      var error := AddConnectionError(g, cons[0]);
      if !error.NoError? then (Some(Rejected(error)), g) else LoadConnections(AddConnection(g, cons[0]), cons[1..])
  }

  lemma LoadEntryKeepsInv(g: Graph, e: NodeEntry)
    requires Inv(g)
    ensures Inv(LoadEntry(g, e).1)
  {
    if e.id == SETTINGS_ID {
      UpdateNodeKeepsInv(g, e.id, e.options);
    } else {
      AddNodeKeepsInv(g, e.kind, e.id, e.options);
    }
  }

  ghost predicate OnlySettings(g: Graph) {
    g.nodes.Keys == {SETTINGS_ID} && g.connections == []
  }

  // What load does to the manager: on failure it stops where it is.
  ghost function Load(g: Graph, doc: Document): (Option<Failure>, Graph)
    requires Inv(g)
  {
    var version := GetSchemaVersion(doc.schemaVersion);
    if version.None? then (Some(BadVersion), g)
    else if version.value != SCHEMA_VERSION then (Some(UnsupportedVersion), g)
    else if !OnlySettings(g) then (Some(NotEmpty), g)
    else
      var nodes := MigrateNodes(g.definitions, doc.nodes, map[]);
      MigratedInfosAreSound(g.definitions, doc.nodes, map[]);
      if nodes.error.Some? then (nodes.error, g)
      else
        var connections := MigrateConnections(g.definitions, nodes.infos, doc.connections);
        if connections.0.Some? then (connections.0, g)
        else
          var loaded := LoadNodes(g, nodes.nodes);
          if loaded.0.Some? then loaded else LoadConnections(loaded.1, connections.1)
  }

  /** Saving. */

  function SavedEntry(definitions: Definitions, id: Name, r: Record): NodeEntry
    requires r.kind in definitions
  {
    NodeEntry(id, r.kind, Some(Int(SchemaVersion(definitions[r.kind]))), Object(r.options))
  }

  // The map of nodes is written in whatever order it is traversed.
  ghost predicate Traversal(nodes: Nodes, order: seq<Name>) {
    Distinct(order) && Elements(order) == nodes.Keys
  }

  ghost function SavedNodes(g: Graph, order: seq<Name>): seq<NodeEntry>
    requires Defined(g) && forall n :: n in order ==> n in g.nodes
  {
    seq(|order|, k requires 0 <= k < |order| =>
      assert order[k] in order;
      assert DefinedRecord(g.definitions, g.nodes[order[k]]);
      SavedEntry(g.definitions, order[k], g.nodes[order[k]]))
  }

  ghost function Save(g: Graph, order: seq<Name>): Document
    requires Defined(g) && Traversal(g.nodes, order)
  {
    assert forall n :: n in order ==> n in Elements(order);
    Document(Some(Int(SCHEMA_VERSION)), SavedNodes(g, order), g.connections)
  }

  /** Documents that are up to date. */

  // Every entry is of a known type and the current version, no id appears twice.
  ghost predicate CurrentNodes(definitions: Definitions, nodes: seq<NodeEntry>) {
    && (forall e :: e in nodes ==> e.kind in definitions
                                   && e.schemaVersion == Some(Int(SchemaVersion(definitions[e.kind]))))
    && (forall j, k :: 0 <= j < k < |nodes| ==> nodes[j].id != nodes[k].id)
  }

  ghost predicate Versioned(definitions: Definitions) {
    forall k :: k in definitions ==> SchemaVersion(definitions[k]) < UINT32_LIMIT
  }

  ghost predicate CurrentInfos(definitions: Definitions, infos: LoadInfos) {
    forall n :: n in infos ==> infos[n].kind in definitions
                               && infos[n].version == SchemaVersion(definitions[infos[n].kind])
  }

  lemma CurrentEntryIsUnchanged(definitions: Definitions, e: NodeEntry)
    requires Versioned(definitions) && e.kind in definitions
    requires e.schemaVersion == Some(Int(SchemaVersion(definitions[e.kind])))
    ensures EntryError(definitions, e).None? && EntryVersion(definitions, e) == SchemaVersion(definitions[e.kind])
    ensures MigratedEntry(definitions, e) == e
  {
    var d := definitions[e.kind];
    assert d.migrations[SchemaVersion(d) - 1..] == [];
  }

  lemma {:induction false} CurrentNodesAreUnchanged(definitions: Definitions, nodes: seq<NodeEntry>, infos: LoadInfos)
    requires Versioned(definitions) && CurrentNodes(definitions, nodes) && CurrentInfos(definitions, infos)
    requires forall e :: e in nodes ==> e.id !in infos
    ensures MigrateNodes(definitions, nodes, infos).error.None?
    ensures MigrateNodes(definitions, nodes, infos).nodes == nodes
    ensures CurrentInfos(definitions, MigrateNodes(definitions, nodes, infos).infos)
    decreases |nodes|
  {
    if nodes != [] {
      var e := nodes[0];
      assert e in nodes;
      CurrentEntryIsUnchanged(definitions, e);
      CurrentTail(definitions, nodes);
      CurrentNodesAreUnchanged(definitions, nodes[1..],
                               infos[e.id := LoadInfo(e.kind, EntryVersion(definitions, e))]);
      assert nodes == [e] + nodes[1..];
    }
  }

  ghost predicate Named(nodes: seq<NodeEntry>, id: Name) {
    exists e :: e in nodes && e.id == id
  }

  // Migration remembers exactly the nodes of the document.
  lemma {:induction false} MigrationRemembersNodes(definitions: Definitions, nodes: seq<NodeEntry>, infos: LoadInfos,
                                                   id: Name)
    requires MigrateNodes(definitions, nodes, infos).error.None?
    ensures id in MigrateNodes(definitions, nodes, infos).infos <==> id in infos || Named(nodes, id)
    decreases |nodes|
  {
    if nodes != [] {
      var e := nodes[0];
      assert e in nodes && nodes == [e] + nodes[1..];
      MigrationRemembersNodes(definitions, nodes[1..], infos[e.id := LoadInfo(e.kind, EntryVersion(definitions, e))],
                              id);
      if Named(nodes, id) && id != e.id {
        var f :| f in nodes && f.id == id;
        assert f in nodes[1..];
      }
      if Named(nodes[1..], id) {
        var f :| f in nodes[1..] && f.id == id;
        assert f in nodes;
      }
    }
  }

  lemma CurrentTail(definitions: Definitions, nodes: seq<NodeEntry>)
    requires CurrentNodes(definitions, nodes) && nodes != []
    ensures CurrentNodes(definitions, nodes[1..])
    ensures forall f :: f in nodes[1..] ==> f in nodes && f.id != nodes[0].id
  {
    var rest := nodes[1..];
    forall j, k | 0 <= j < k < |rest| ensures rest[j].id != rest[k].id {
      assert rest[j] == nodes[j + 1] && rest[k] == nodes[k + 1];
    }
  }

  lemma CurrentConnectionIsUnchanged(definitions: Definitions, infos: LoadInfos, c: Connection)
    requires SoundInfos(definitions, infos) && CurrentInfos(definitions, infos)
    requires c.fromNode in infos && c.toNode in infos
    ensures MigratedConnection(definitions, infos, c) == c
  {
    var from, to := infos[c.fromNode], infos[c.toNode];
    assert definitions[from.kind].migrations[from.version - 1..] == [];
    assert definitions[to.kind].migrations[to.version - 1..] == [];
  }

  lemma {:induction false} CurrentConnectionsAreUnchanged(definitions: Definitions, infos: LoadInfos,
                                                          cons: seq<Connection>)
    requires SoundInfos(definitions, infos) && CurrentInfos(definitions, infos)
    requires forall c :: c in cons ==> c.fromNode in infos && c.toNode in infos
    ensures MigrateConnections(definitions, infos, cons) == (None, cons)
    decreases |cons|
  {
    if cons != [] {
      assert cons == [cons[0]] + cons[1..];
      CurrentConnectionIsUnchanged(definitions, infos, cons[0]);
      CurrentConnectionsAreUnchanged(definitions, infos, cons[1..]);
    }
  }
}
