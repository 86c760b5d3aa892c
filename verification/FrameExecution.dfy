/**
 One frame over the snapshot: the submit pass and the execute pass, each recursing upstream through the nodes'
 connections and visiting every node at most once.
 */
module FrameExecution {
  import opened Common
  import opened Options
  import opened NodeGraph

  // Interfaces and options of the nodes that prune what they submit.
  const FB_IN: Name := 1
  const A: Name := 2
  const B: Name := 3
  const T: Name := 4
  const ACTIVE: Name := 5
  const T_OPTION: Name := 20
  const ACTIVE_OPTION: Name := 21

  datatype Behaviour = Plain | MixTextures | Switch(inputs: seq<Name>)

  // What a frame works on: the snapshot, how each node type behaves, and what this frame's rendering decides:
  // which connections a plain node resolves and in which order, the number a connection delivers, and whether it
  // delivers a framebuffer.
  datatype Frame = Frame(
    definitions: Definitions,
    nodes: Nodes,
    connections: seq<Connection>,
    behaviour: Name -> Behaviour,
    resolves: Name -> seq<Connection>,
    number: Connection -> real,
    framebuffer: Connection -> bool)

  function LinksAt(r: Record, i: Name): seq<Connection> { if i in r.links then r.links[i] else [] }

  // A single-valued input resolves the first connection of its list.
  function Front(r: Record, i: Name): seq<Connection> {
    if LinksAt(r, i) == [] then [] else [LinksAt(r, i)[0]]
  }

  function OptionReal(options: Settings, key: Name): real {
    if key in options && IsNumber(options[key]) then AsReal(options[key]) else 0.0
  }

  function OptionInt(options: Settings, key: Name, fallback: int): int {
    if key !in options then fallback
    else match options[key]
      case Int(n) => n
      case Float(x) => Truncate(x)
      case Bool(b) => if b then 1 else 0
      case _ => fallback
  }

  // The value an input has: what its connection delivers, or the node's own option.
  function InputNumber(f: Frame, r: Record, i: Name, fallback: real): real {
    if LinksAt(r, i) == [] then fallback else f.number(LinksAt(r, i)[0])
  }

  function ActiveIndex(active: real, slots: nat): nat
    requires 0 < slots
  {
    var clamped := Clamp(active.Floor as real, 1.0, slots as real);
    (clamped - 1.0).Floor
  }

  // The inputs a texture mix blends: one of them alone at either end of the range.
  function Blended(t: real): seq<Name> {
    if t <= 0.0 then [A] else if t >= 1.0 then [B] else [A, B]
  }

  function Fronts(r: Record, inputs: seq<Name>): seq<Connection> {
    if inputs == [] then [] else Front(r, inputs[0]) + Fronts(r, inputs[1..])
  }

  function MixReads(f: Frame, r: Record): seq<Connection> {
    var target := Front(r, FB_IN);
    if target == [] || !f.framebuffer(target[0]) then target
    else
      var t := Clamp(InputNumber(f, r, T, OptionReal(r.options, T_OPTION)), 0.0, 1.0);
      target + Front(r, T) + Fronts(r, Blended(t))
  }

  function ActiveOption(r: Record): real { OptionInt(r.options, ACTIVE_OPTION, 1) as real }

  function SwitchReads(f: Frame, r: Record, inputs: seq<Name>): seq<Connection> {
    if inputs == [] then []
    else
      var index := ActiveIndex(InputNumber(f, r, ACTIVE, ActiveOption(r)), |inputs|);
      Front(r, ACTIVE) + (if index < |inputs| then Front(r, inputs[index]) else [])
  }

  // The connections a node's execute resolves, in order.
  function ExecReads(f: Frame, id: Name): seq<Connection>
    requires id in f.nodes
  {
    var r := f.nodes[id];
    match f.behaviour(r.kind)
    case Plain => f.resolves(id)
    case MixTextures => MixReads(f, r)
    case Switch(inputs) => SwitchReads(f, r, inputs)
  }

  ghost predicate IsInput(f: Frame, id: Name, i: Name) {
    && id in f.nodes && f.nodes[id].kind in f.definitions
    && i in f.definitions[f.nodes[id].kind].interfaces
    && f.definitions[f.nodes[id].kind].interfaces[i].direction.Input?
  }

  ghost function InputConnections(f: Frame, id: Name): set<Connection>
    requires id in f.nodes
  {
    set i, c | i in f.nodes[id].links && IsInput(f, id, i) && c in f.nodes[id].links[i] :: c
  }

  function Listed(r: Record, i: Name): set<Connection> { set c | c in LinksAt(r, i) }

  function MixSubmits(r: Record): set<Connection> {
    var t := OptionReal(r.options, T_OPTION);
    var connected := LinksAt(r, T) != [];
    Listed(r, FB_IN) + Listed(r, T)
    + (if connected || t < 1.0 then Listed(r, A) else {})
    + (if connected || t > 0.0 then Listed(r, B) else {})
  }

  function AllListed(r: Record, inputs: seq<Name>): set<Connection> {
    if inputs == [] then {} else Listed(r, inputs[0]) + AllListed(r, inputs[1..])
  }

  function SwitchSubmits(r: Record, inputs: seq<Name>): set<Connection> {
    if LinksAt(r, ACTIVE) != [] then Listed(r, ACTIVE) + AllListed(r, inputs)
    else if inputs == [] then {}
    else
      var index := ActiveIndex(ActiveOption(r), |inputs|);
      if index < |inputs| then Listed(r, inputs[index]) else {}
  }

  // The connections whose sources a node's submit submits.
  ghost function SubmitReads(f: Frame, id: Name): set<Connection>
    requires id in f.nodes
  {
    var r := f.nodes[id];
    match f.behaviour(r.kind)
    case Plain => InputConnections(f, id)
    case MixTextures => MixSubmits(r)
    case Switch(inputs) => SwitchSubmits(r, inputs)
  }

  /** A node never resolves a connection it did not submit. */

  // A plain node resolves its own input connections only.
  ghost predicate ReadsOwnInputs(f: Frame) {
    forall id :: id in f.nodes && f.behaviour(f.nodes[id].kind).Plain? ==>
      forall c :: c in f.resolves(id) ==> c in InputConnections(f, id)
  }

  lemma ActiveIndexInRange(active: real, slots: nat)
    requires 0 < slots
    ensures ActiveIndex(active, slots) < slots
  {
    var clamped := Clamp(active.Floor as real, 1.0, slots as real);
    assert clamped == 1.0 || clamped == slots as real || clamped == active.Floor as real;
  }

  // A switch counts its inputs from one, ignores fractions, and takes the nearest input to a number out of range.
  lemma ActiveIndexCountsFromOne(active: real, slots: nat, index: nat)
    requires 0 < slots
    ensures ActiveIndex(active, slots) == index <==>
            index < slots && (index == 0 || (index + 1) as real <= active)
            && (index == slots - 1 || active < (index + 2) as real)
  {
    ActiveIndexInRange(active, slots);
    var clamped := Clamp(active.Floor as real, 1.0, slots as real);
    var n := if active.Floor < 1 then 1 else if active.Floor > slots then slots else active.Floor;
    assert clamped == n as real;
    assert clamped - 1.0 == (n - 1) as real;
  }

  lemma FrontIsListed(r: Record, i: Name, c: Connection)
    requires c in Front(r, i)
    ensures c in Listed(r, i)
  {
  }

  lemma {:induction false} FrontsAreListed(r: Record, inputs: seq<Name>, c: Connection)
    requires c in Fronts(r, inputs)
    ensures exists i :: i in inputs && c in Listed(r, i)
  {
    if c in Front(r, inputs[0]) {
      FrontIsListed(r, inputs[0], c);
      assert inputs[0] in inputs;
    } else {
      FrontsAreListed(r, inputs[1..], c);
      var i :| i in inputs[1..] && c in Listed(r, i);
      assert i in inputs;
    }
  }

  lemma {:induction false} AllListedContains(r: Record, inputs: seq<Name>, k: nat)
    requires k < |inputs|
    ensures Listed(r, inputs[k]) <= AllListed(r, inputs)
  {
    if k > 0 {
      AllListedContains(r, inputs[1..], k - 1);
    }
  }

  lemma MixReadsAreSubmitted(f: Frame, r: Record, c: Connection)
    requires c in MixReads(f, r)
    ensures c in MixSubmits(r)
  {
    var target := Front(r, FB_IN);
    if c !in target && c !in Front(r, T) {
      var t := Clamp(InputNumber(f, r, T, OptionReal(r.options, T_OPTION)), 0.0, 1.0);
      FrontsAreListed(r, Blended(t), c);
    }
  }

  lemma SwitchReadsAreSubmitted(f: Frame, r: Record, inputs: seq<Name>, c: Connection)
    requires c in SwitchReads(f, r, inputs)
    ensures c in SwitchSubmits(r, inputs)
  {
    var index := ActiveIndex(InputNumber(f, r, ACTIVE, ActiveOption(r)), |inputs|);
    ActiveIndexInRange(InputNumber(f, r, ACTIVE, ActiveOption(r)), |inputs|);
    if c !in Front(r, ACTIVE) {
      FrontIsListed(r, inputs[index], c);
      AllListedContains(r, inputs, index);
    }
  }

  lemma ReadsAreSubmitted(f: Frame, id: Name, c: Connection)
    requires ReadsOwnInputs(f) && id in f.nodes && c in ExecReads(f, id)
    ensures c in SubmitReads(f, id)
  {
    var r := f.nodes[id];
    match f.behaviour(r.kind)
    case Plain =>
    case MixTextures => MixReadsAreSubmitted(f, r, c);
    case Switch(inputs) => SwitchReadsAreSubmitted(f, r, inputs, c);
  }

  // Pruning is exact: without a connected control input, a mix that has its framebuffer, and a switch, submit
  // exactly what they then resolve.
  lemma PrunedSubmitIsExact(f: Frame, r: Record, inputs: seq<Name>)
    requires forall i :: |LinksAt(r, i)| <= 1
    ensures LinksAt(r, T) == [] && LinksAt(r, FB_IN) != [] && f.framebuffer(LinksAt(r, FB_IN)[0])
            ==> Elements(MixReads(f, r)) == MixSubmits(r)
    ensures LinksAt(r, ACTIVE) == [] ==> Elements(SwitchReads(f, r, inputs)) == SwitchSubmits(r, inputs)
  {
    forall i ensures Elements(Front(r, i)) == Listed(r, i) {
    }
    if LinksAt(r, T) == [] && LinksAt(r, FB_IN) != [] && f.framebuffer(LinksAt(r, FB_IN)[0]) {
      MixPruningIsExact(f, r);
    }
    if LinksAt(r, ACTIVE) == [] && inputs != [] {
      ActiveIndexInRange(ActiveOption(r), |inputs|);
    }
  }

  lemma MixPruningIsExact(f: Frame, r: Record)
    requires forall i :: Elements(Front(r, i)) == Listed(r, i)
    requires LinksAt(r, T) == [] && LinksAt(r, FB_IN) != [] && f.framebuffer(LinksAt(r, FB_IN)[0])
    ensures Elements(MixReads(f, r)) == MixSubmits(r)
  {
    var option := OptionReal(r.options, T_OPTION);
    var blended := Blended(Clamp(option, 0.0, 1.0));
    FrontsOfPair(r, blended);
    assert Elements(MixReads(f, r)) == Elements(Front(r, FB_IN)) + Elements(Fronts(r, blended));
  }

  lemma FrontsOfPair(r: Record, inputs: seq<Name>)
    requires 1 <= |inputs| <= 2
    ensures Elements(Fronts(r, inputs)) ==
            Elements(Front(r, inputs[0])) + if |inputs| == 2 then Elements(Front(r, inputs[1])) else {}
  {
    assert Fronts(r, inputs[1..]) == if |inputs| == 2 then Front(r, inputs[1]) + Fronts(r, inputs[2..]) else [] by {
      if |inputs| == 2 { assert inputs[1..][1..] == inputs[2..]; }
    }
  }
}
