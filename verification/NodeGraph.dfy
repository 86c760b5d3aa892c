/**
 The node graph: nodes with their interfaces and options, the list of connections, each interface's own list of
 the connections it takes part in, and the render thread's snapshot of the nodes.
 */
module NodeGraph {
  import opened Common
  import opened FrameRate
  import opened Options

  const SETTINGS_ID: Name := 0
  const SETTINGS_TYPE: Name := 0

  datatype Direction = Input | Output

  datatype InterfaceType = F64 | Vec2 | Rect | Texture | Framebuffer

  // No cap means the largest size_t.
  datatype Interface = Interface(direction: Direction, kind: InterfaceType, cap: Option<nat>)

  predicate Accepts(iface: Interface, from: InterfaceType) {
    iface.direction.Input? &&
    match iface.kind
    case Vec2 => from.Vec2? || from.F64?
    case Texture => from.Texture? || from.Framebuffer?
    case F64 => from.F64?
    case Rect => from.Rect?
    case Framebuffer => from.Framebuffer?
  }

  function OutputCap(kind: InterfaceType): Option<nat> { if kind.Framebuffer? then Some(1) else None }

  // One step up in a node type's schema version.
  datatype Migration = Migration(options: Json -> Json, inputInterface: Name -> Name, outputInterface: Name -> Name)

  datatype Definition = Definition(
    interfaces: map<Name, Interface>,
    schema: Schema,
    defaults: Settings,
    migrations: seq<Migration>)

  type Definitions = map<Name, Definition>

  datatype Connection = Connection(fromNode: Name, fromInterface: Name, toNode: Name, toInterface: Name)

  type Links = map<Name, seq<Connection>>

  // The instance tells a node object from an earlier one with the same id.
  datatype Record = Record(kind: Name, instance: nat, links: Links, options: Settings)

  type Nodes = map<Name, Record>

  datatype Graph = Graph(
    definitions: Definitions,
    nodes: Nodes,
    connections: seq<Connection>,
    snapshot: Nodes,
    dirty: set<Name>,
    removed: set<Name>,
    made: nat)

  predicate Touches(c: Connection, n: Name, i: Name) {
    (c.fromNode == n && c.fromInterface == i) || (c.toNode == n && c.toInterface == i)
  }

  function Swapped(c: Connection): Connection {
    Connection(c.toNode, c.toInterface, c.fromNode, c.fromInterface)
  }

  // The part of a connection list that takes part in one interface, in its order.
  ghost function ListOf(cons: seq<Connection>, n: Name, i: Name): seq<Connection> {
    if cons == [] then []
    else (if Touches(cons[0], n, i) then [cons[0]] else []) + ListOf(cons[1..], n, i)
  }

  ghost function Without(cons: seq<Connection>, doomed: set<Connection>): seq<Connection> {
    if cons == [] then []
    else (if cons[0] in doomed then [] else [cons[0]]) + Without(cons[1..], doomed)
  }

  /** Paths. */

  ghost predicate Linked(cons: seq<Connection>, a: Name, b: Name) {
    exists c :: c in cons && c.fromNode == a && c.toNode == b
  }

  ghost predicate Path(cons: seq<Connection>, p: seq<Name>) {
    0 < |p| && forall k :: 0 <= k < |p| - 1 ==> Linked(cons, p[k], p[k + 1])
  }

  ghost predicate Reach(cons: seq<Connection>, a: Name, b: Name) {
    exists p :: Path(cons, p) && p[0] == a && p[|p| - 1] == b
  }

  // No path of at least one connection comes back to its start.
  ghost predicate Acyclic(cons: seq<Connection>) {
    forall p :: Path(cons, p) && 1 < |p| ==> p[0] != p[|p| - 1]
  }

  /** The operations. Each leaves the graph as it is when it reports an error. */

  ghost function AddNodeError(g: Graph, kind: Name, id: Name, options: Json): Error {
    if (id == SETTINGS_ID) != (kind == SETTINGS_TYPE) then InvalidType
    else if id in g.nodes then DuplicateId
    else if kind !in g.definitions then InvalidType
    else
      var rule := RuleOf(g.definitions[kind].schema);
      var defaults := Object(g.definitions[kind].defaults);
      if !Acceptable(rule, defaults) || Corrects(rule, defaults) then InternalError
      else if !Acceptable(rule, options) then InvalidOptions
      else NoError
  }

  function NoLinks(definition: Definition): Links { map i | i in definition.interfaces :: [] }

  ghost function NewRecord(g: Graph, kind: Name, options: Json): Record
    requires kind in g.definitions
  {
    var d := g.definitions[kind];
    var rule := RuleOf(d.schema);
    Record(kind, g.made, NoLinks(d), Updated(rule, Updated(rule, map[], Object(d.defaults)), options))
  }

  ghost function AddNode(g: Graph, kind: Name, id: Name, options: Json): Graph {
    if !AddNodeError(g, kind, id, options).NoError? then g
    else g.(nodes := g.nodes[id := NewRecord(g, kind, options)], dirty := g.dirty + {id}, made := g.made + 1)
  }

  ghost function UpdateNodeError(g: Graph, id: Name, options: Json): Error
    requires id in g.nodes ==> g.nodes[id].kind in g.definitions
  {
    if id !in g.nodes then NotFound
    else if !Acceptable(RuleOf(g.definitions[g.nodes[id].kind].schema), options) then InvalidOptions
    else NoError
  }

  ghost function UpdateNode(g: Graph, id: Name, options: Json): Graph
    requires id in g.nodes ==> g.nodes[id].kind in g.definitions
  {
    if !UpdateNodeError(g, id, options).NoError? then g
    else
      var r := g.nodes[id];
      var rule := RuleOf(g.definitions[r.kind].schema);
      g.(nodes := g.nodes[id := r.(options := Updated(rule, r.options, options))], dirty := g.dirty + {id})
  }

  ghost function Endpoints(cons: set<Connection>): set<Name> {
    (set c | c in cons :: c.fromNode) + (set c | c in cons :: c.toNode)
  }

  ghost function LinksWithout(links: Links, doomed: set<Connection>): Links {
    map i | i in links :: Without(links[i], doomed)
  }

  ghost function NodesWithout(nodes: Nodes, doomed: set<Connection>): Nodes {
    map n | n in nodes :: nodes[n].(links := LinksWithout(nodes[n].links, doomed))
  }

  // Take connections out of the graph, from the connection list and from every interface's list.
  ghost function Drop(g: Graph, doomed: set<Connection>): Graph {
    g.(nodes := NodesWithout(g.nodes, doomed),
       connections := Without(g.connections, doomed),
       dirty := g.dirty + Endpoints(doomed))
  }

  ghost function RemoveConnectionError(g: Graph, c: Connection): Error {
    if c in g.connections then NoError else NotFound
  }

  ghost function RemoveConnection(g: Graph, c: Connection): Graph {
    if c in g.connections then Drop(g, {c}) else g
  }

  ghost function ConnectionsOf(g: Graph, id: Name): set<Connection> {
    set c | c in g.connections && (c.fromNode == id || c.toNode == id)
  }

  ghost function RemoveNodeError(g: Graph, id: Name): Error {
    if id == SETTINGS_ID then InvalidType else if id !in g.nodes then NotFound else NoError
  }

  ghost function RemoveNode(g: Graph, id: Name): Graph {
    if !RemoveNodeError(g, id).NoError? then g
    else
      var h := Drop(g, ConnectionsOf(g, id));
      h.(nodes := h.nodes - {id}, removed := h.removed + {id})
  }

  ghost predicate HasInterface(g: Graph, n: Name, i: Name) {
    n in g.nodes && g.nodes[n].kind in g.definitions && i in g.definitions[g.nodes[n].kind].interfaces
  }

  ghost function InterfaceOf(g: Graph, n: Name, i: Name): Interface
    requires HasInterface(g, n, i)
  {
    g.definitions[g.nodes[n].kind].interfaces[i]
  }

  ghost predicate BothEnds(g: Graph, c: Connection) {
    HasInterface(g, c.fromNode, c.fromInterface) && HasInterface(g, c.toNode, c.toInterface)
  }

  // A connection given from an input to an output is turned round.
  ghost function Oriented(g: Graph, c: Connection): Connection
    requires BothEnds(g, c)
  {
    if InterfaceOf(g, c.fromNode, c.fromInterface).direction.Input?
       && InterfaceOf(g, c.toNode, c.toInterface).direction.Output?
    then Swapped(c) else c
  }

  ghost function AddConnectionError(g: Graph, c: Connection): Error {
    if c in g.connections then DuplicateId
    else if !BothEnds(g, c) then NotFound
    else
      var o := Oriented(g, c);
      var from, to := InterfaceOf(g, o.fromNode, o.fromInterface), InterfaceOf(g, o.toNode, o.toInterface);
      if o in g.connections then DuplicateId
      else if from.direction.Input? || to.direction.Output? then InvalidType
      else if !Accepts(to, from.kind) then InvalidType
      else if Reach(g.connections, o.toNode, o.fromNode) then CircularConnection
      else NoError
  }

  ghost function LinksWith(links: Links, n: Name, c: Connection): Links {
    map i | i in links :: if Touches(c, n, i) then links[i] + [c] else links[i]
  }

  ghost function NodesWith(nodes: Nodes, c: Connection): Nodes {
    map n | n in nodes :: nodes[n].(links := LinksWith(nodes[n].links, n, c))
  }

  ghost function Append(g: Graph, c: Connection): Graph {
    g.(nodes := NodesWith(g.nodes, c),
       connections := g.connections + [c],
       dirty := g.dirty + {c.fromNode, c.toNode})
  }

  // The oldest connection of a full list has to go.
  function Displaced(list: seq<Connection>, cap: Option<nat>): set<Connection> {
    if cap == Some(|list|) && list != [] then {list[0]} else {}
  }

  ghost function Evicted(g: Graph, o: Connection): set<Connection>
    requires BothEnds(g, o)
  {
    Displaced(ListOf(g.connections, o.fromNode, o.fromInterface), InterfaceOf(g, o.fromNode, o.fromInterface).cap)
    + Displaced(ListOf(g.connections, o.toNode, o.toInterface), InterfaceOf(g, o.toNode, o.toInterface).cap)
  }

  ghost function AddConnection(g: Graph, c: Connection): Graph {
    if !AddConnectionError(g, c).NoError? then g
    else
      var o := Oriented(g, c);
      Drop(Append(g, o), Evicted(g, o))
  }

  // The render thread's refresh at the start of a frame: removed nodes first, then the changed ones.
  ghost function Refreshed(g: Graph): Nodes {
    (g.snapshot - g.removed) + (map n | n in g.dirty && n in g.nodes :: g.nodes[n])
  }

  ghost function Tick(g: Graph): Graph {
    g.(snapshot := Refreshed(g), dirty := {}, removed := {})
  }

  // A graph as it is before the constructor adds the settings node.
  function Empty(definitions: Definitions): Graph {
    Graph(definitions, map[], [], map[], {}, {}, 0)
  }

  ghost function Init(definitions: Definitions): Graph {
    AddNode(Empty(definitions), SETTINGS_TYPE, SETTINGS_ID, Object(map[]))
  }

  datatype Action =
    | AddNodeAction(kind: Name, id: Name, options: Json)
    | RemoveNodeAction(id: Name)
    | UpdateNodeAction(id: Name, options: Json)
    | AddConnectionAction(connection: Connection)
    | RemoveConnectionAction(connection: Connection)
    | TickAction

  ghost function Step(g: Graph, a: Action): Graph
    requires Defined(g)
  {
    match a
    case AddNodeAction(kind, id, options) => AddNode(g, kind, id, options)
    case RemoveNodeAction(id) => RemoveNode(g, id)
    case UpdateNodeAction(id, options) => UpdateNode(g, id, options)
    case AddConnectionAction(c) => AddConnection(g, c)
    case RemoveConnectionAction(c) => RemoveConnection(g, c)
    case TickAction => Tick(g)
  }

  /** What every reachable graph satisfies. */

  predicate SoundInterface(i: Interface) {
    match i.direction
    case Input => i.cap.Some? && 0 < i.cap.value
    case Output => i.cap == OutputCap(i.kind)
  }

  function SchemaVersion(d: Definition): nat { |d.migrations| + 1 }

  // The table of node types: interface caps as the interface constructors leave them, schema versions of 32 bits,
  // and the settings type.
  ghost predicate SoundDefinitions(definitions: Definitions) {
    && (forall k, i :: k in definitions && i in definitions[k].interfaces ==>
          SoundInterface(definitions[k].interfaces[i]))
    && (forall k :: k in definitions ==> SchemaVersion(definitions[k]) < UINT32_LIMIT)
    && SETTINGS_TYPE in definitions
    && definitions[SETTINGS_TYPE].schema == SETTINGS_SCHEMA
    && definitions[SETTINGS_TYPE].defaults == SETTINGS_DEFAULTS
  }

  ghost predicate DefinedRecord(definitions: Definitions, r: Record) {
    && r.kind in definitions
    && r.links.Keys == definitions[r.kind].interfaces.Keys
  }

  // Every node is of a known type and has a list for each of its interfaces.
  ghost predicate Defined(g: Graph) {
    forall n :: n in g.nodes ==> DefinedRecord(g.definitions, g.nodes[n])
  }

  ghost predicate DefaultsAccepted(d: Definition) {
    Acceptable(RuleOf(d.schema), Object(d.defaults)) && !Corrects(RuleOf(d.schema), Object(d.defaults))
  }

  ghost predicate CanonicalRecord(definitions: Definitions, r: Record)
    requires r.kind in definitions
  {
    && DefaultsAccepted(definitions[r.kind])
    && definitions[r.kind].defaults.Keys <= r.options.Keys
    && AllCanonical(RuleOf(definitions[r.kind].schema), r.options)
  }

  // Every node has all its type's options, each in normal form.
  ghost predicate OptionsCanonical(g: Graph)
    requires Defined(g)
  {
    forall n :: n in g.nodes ==> CanonicalRecord(g.definitions, g.nodes[n])
  }

  // Every interface's list is the part of the connection list that touches it, in the same order.
  ghost predicate Lists(g: Graph) {
    forall n, i :: n in g.nodes && i in g.nodes[n].links ==> g.nodes[n].links[i] == ListOf(g.connections, n, i)
  }

  // A connection leads from an output to an input that accepts its type.
  ghost predicate WellTyped(g: Graph, c: Connection) {
    && BothEnds(g, c)
    && InterfaceOf(g, c.fromNode, c.fromInterface).direction.Output?
    && InterfaceOf(g, c.toNode, c.toInterface).direction.Input?
    && Accepts(InterfaceOf(g, c.toNode, c.toInterface), InterfaceOf(g, c.fromNode, c.fromInterface).kind)
  }

  ghost predicate Sound(g: Graph) {
    forall c :: c in g.connections ==> WellTyped(g, c)
  }

  predicate Within(size: nat, cap: Option<nat>) { cap.None? || size <= cap.value }

  // No interface takes part in more connections than its cap allows.
  ghost predicate Caps(g: Graph) {
    forall n, i :: HasInterface(g, n, i) ==> Within(|ListOf(g.connections, n, i)|, InterfaceOf(g, n, i).cap)
  }

  // The settings node exists, and is the only node of its type.
  ghost predicate HasSettings(g: Graph) {
    && SETTINGS_ID in g.nodes
    && forall n :: n in g.nodes ==> (n == SETTINGS_ID <==> g.nodes[n].kind == SETTINGS_TYPE)
  }

  // The snapshot differs from the nodes only where the next refresh will look.
  ghost predicate Pending(g: Graph) {
    && (forall n :: n in g.snapshot && n !in g.nodes ==> n in g.removed)
    && (forall n :: n in g.nodes && n !in g.dirty ==>
          n !in g.removed && n in g.snapshot && g.snapshot[n] == g.nodes[n])
  }

  // All but the caps, which adding a connection exceeds until it has evicted the oldest.
  ghost predicate Core(g: Graph) {
    && SoundDefinitions(g.definitions)
    && Defined(g) && OptionsCanonical(g)
    && Lists(g) && Sound(g)
    && Distinct(g.connections) && Acyclic(g.connections)
    && HasSettings(g) && Pending(g)
  }

  ghost predicate Inv(g: Graph) {
    Core(g) && Caps(g)
  }
}
