/** How a control input decides what a node resolves, and what that means for the nodes a frame executes. */
module FrameControl {
  import opened Common
  import opened Options
  import opened NodeGraph
  import opened FrameExecution
  import opened FramePasses

  // The place among inputs counted from one that a number stands for: rounded down, and moved into the range.
  ghost predicate IsPlace(x: real, slots: nat, place: nat) {
    && 1 <= place <= slots
    && (place == 1 || place as real <= x)
    && (place == slots || x < (place + 1) as real)
  }

  lemma EveryNumberHasOnePlace(x: real, slots: nat) returns (place: nat)
    requires 0 < slots
    ensures IsPlace(x, slots, place)
    ensures forall other :: IsPlace(x, slots, other) ==> other == place
  {
    place := ActiveIndex(x, slots) + 1;
    ActiveIndexCountsFromOne(x, slots, place - 1);
    forall other: nat | IsPlace(x, slots, other) ensures other == place {
      ActiveIndexCountsFromOne(x, slots, other - 1);
    }
  }

  lemma PlaceIsActive(x: real, slots: nat, place: nat)
    requires 0 < slots && IsPlace(x, slots, place)
    ensures ActiveIndex(x, slots) == place - 1
  {
    ActiveIndexCountsFromOne(x, slots, place - 1);
  }

  // A switch with a connected control input resolves that connection, and then the input whose place the delivered
  // number is, whatever its option says.
  lemma SwitchFollowsConnection(f: Frame, r: Record, inputs: seq<Name>, c: Connection, place: nat)
    requires LinksAt(r, ACTIVE) != [] && c == LinksAt(r, ACTIVE)[0] && IsPlace(f.number(c), |inputs|, place)
    ensures SwitchReads(f, r, inputs) == [c] + Front(r, inputs[place - 1])
  {
    PlaceIsActive(f.number(c), |inputs|, place);
  }

  // Without one, the option decides.
  lemma SwitchFollowsOption(f: Frame, r: Record, inputs: seq<Name>, option: int, place: nat)
    requires LinksAt(r, ACTIVE) == [] && ACTIVE_OPTION in r.options && r.options[ACTIVE_OPTION] == Int(option)
    requires IsPlace(option as real, |inputs|, place)
    ensures SwitchReads(f, r, inputs) == Front(r, inputs[place - 1])
    ensures SwitchSubmits(r, inputs) == Listed(r, inputs[place - 1])
  {
    PlaceIsActive(option as real, |inputs|, place);
  }

  // A mix blends by a number: its first texture alone, its second alone, or both.
  ghost function Textures(r: Record, t: real): seq<Connection> {
    if t <= 0.0 then Front(r, A) else if t >= 1.0 then Front(r, B) else Front(r, A) + Front(r, B)
  }

  ghost predicate HasTarget(f: Frame, r: Record, target: Connection) {
    LinksAt(r, FB_IN) != [] && LinksAt(r, FB_IN)[0] == target && f.framebuffer(target)
  }

  lemma MixTexturesOf(f: Frame, r: Record, target: Connection, t: real)
    requires HasTarget(f, r, target) && t == InputNumber(f, r, T, OptionReal(r.options, T_OPTION))
    ensures MixReads(f, r) == [target] + Front(r, T) + Textures(r, t)
  {
    BlendedFronts(r, Options.Clamp(t, 0.0, 1.0));
  }

  // With a target and a connected control input, a mix resolves both and then the textures the delivered number asks
  // for, whatever its option says.
  lemma MixFollowsConnection(f: Frame, r: Record, target: Connection, c: Connection)
    requires HasTarget(f, r, target) && LinksAt(r, T) != [] && c == LinksAt(r, T)[0]
    ensures MixReads(f, r) == [target, c] + Textures(r, f.number(c))
  {
    MixTexturesOf(f, r, target, f.number(c));
  }

  // With a target and no control input its option decides.
  lemma MixFollowsOption(f: Frame, r: Record, target: Connection, option: real)
    requires HasTarget(f, r, target) && LinksAt(r, T) == []
    requires T_OPTION in r.options && r.options[T_OPTION] == Float(option)
    ensures MixReads(f, r) == [target] + Textures(r, option)
  {
    MixTexturesOf(f, r, target, option);
  }

  // Without a target it resolves nothing more.
  lemma MixWithoutTarget(f: Frame, r: Record)
    requires LinksAt(r, FB_IN) == [] || !f.framebuffer(LinksAt(r, FB_IN)[0])
    ensures MixReads(f, r) == Front(r, FB_IN)
  {
  }

  // Before a node, in the order in which nodes finished.
  ghost predicate FinishedBefore(finished: seq<Name>, a: Name, b: Name) {
    exists i, j :: 0 <= i < j < |finished| && finished[i] == a && finished[j] == b
  }

  // What a finished node has resolved is what its type and inputs decide, and the sources finished before it.
  lemma FinishedNodeResolved(f: Frame, log: seq<Request>, executed: set<Name>, finished: seq<Name>, begun: set<Name>,
                             id: Name, c: Connection)
    requires Progress(f, executed, finished, begun) && Resolved(f, log, executed, finished)
    requires id in finished && c in ExecReads(f, id) && Resolvable(f, c)
    ensures ReadBy(log, id) == ExecReads(f, id) && FinishedBefore(finished, c.fromNode, id)
  {
    var j :| 0 <= j < |finished| && finished[j] == id;
    assert ReadsFrom(f, finished[j], Elements(finished[..j]));
    assert c.fromNode in finished[..j];
    var i :| 0 <= i < j && finished[i] == c.fromNode;
  }

  // Once a switch has executed, it has resolved its control connection and the input the number stands for, and no
  // other; the nodes they come from finished before it.
  lemma SwitchExecutesChosenInput(f: Frame, log: seq<Request>, executed: set<Name>, finished: seq<Name>,
                                  begun: set<Name>, id: Name, inputs: seq<Name>, c: Connection, place: nat)
    requires Progress(f, executed, finished, begun) && Resolved(f, log, executed, finished) && id in finished
    requires id in f.nodes && f.behaviour(f.nodes[id].kind) == Switch(inputs)
    requires LinksAt(f.nodes[id], ACTIVE) != [] && c == LinksAt(f.nodes[id], ACTIVE)[0]
    requires IsPlace(f.number(c), |inputs|, place)
    ensures ReadBy(log, id) == [c] + Front(f.nodes[id], inputs[place - 1])
    ensures forall d :: d in ReadBy(log, id) && Resolvable(f, d) ==> FinishedBefore(finished, d.fromNode, id)
  {
    SwitchFollowsConnection(f, f.nodes[id], inputs, c, place);
    forall d | d in ExecReads(f, id) && Resolvable(f, d) ensures FinishedBefore(finished, d.fromNode, id) {
      FinishedNodeResolved(f, log, executed, finished, begun, id, d);
    }
  }

  // The same for a mix: its target, its control connection, and the textures the number asks for.
  lemma MixExecutesChosenTextures(f: Frame, log: seq<Request>, executed: set<Name>, finished: seq<Name>,
                                  begun: set<Name>, id: Name, target: Connection, c: Connection)
    requires Progress(f, executed, finished, begun) && Resolved(f, log, executed, finished) && id in finished
    requires id in f.nodes && f.behaviour(f.nodes[id].kind) == MixTextures
    requires HasTarget(f, f.nodes[id], target)
    requires LinksAt(f.nodes[id], T) != [] && c == LinksAt(f.nodes[id], T)[0]
    ensures ReadBy(log, id) == [target, c] + Textures(f.nodes[id], f.number(c))
    ensures forall d :: d in ReadBy(log, id) && Resolvable(f, d) ==> FinishedBefore(finished, d.fromNode, id)
  {
    MixFollowsConnection(f, f.nodes[id], target, c);
    forall d | d in ExecReads(f, id) && Resolvable(f, d) ensures FinishedBefore(finished, d.fromNode, id) {
      FinishedNodeResolved(f, log, executed, finished, begun, id, d);
    }
  }

  // With a connected control input a switch submits what is connected to it and to every input, since any of them may
  // be asked for; and nothing else.
  lemma SwitchSubmitsEveryInput(r: Record, inputs: seq<Name>, c: Connection)
    requires LinksAt(r, ACTIVE) != []
    ensures c in SwitchSubmits(r, inputs)
            <==> c in LinksAt(r, ACTIVE) || exists k :: 0 <= k < |inputs| && c in LinksAt(r, inputs[k])
  {
    AllListedIs(r, inputs, c);
  }

  lemma {:induction false} AllListedIs(r: Record, inputs: seq<Name>, c: Connection)
    ensures c in AllListed(r, inputs) <==> exists k :: 0 <= k < |inputs| && c in LinksAt(r, inputs[k])
  {
    if inputs != [] {
      var rest := inputs[1..];
      AllListedIs(r, rest, c);
      assert forall k :: 0 <= k < |rest| ==> rest[k] == inputs[k + 1];
      if k :| 0 < k < |inputs| && c in LinksAt(r, inputs[k]) {
        assert rest[k - 1] == inputs[k];
      }
    }
  }

  // A mix submits its target and its control input, and of its textures both with a connected control input, else the
  // ones its option asks for.
  lemma MixSubmitsTextures(r: Record, option: real, c: Connection)
    requires option == OptionReal(r.options, T_OPTION)
    ensures c in MixSubmits(r)
            <==> c in LinksAt(r, FB_IN) || c in LinksAt(r, T)
                 || (c in LinksAt(r, A) && (LinksAt(r, T) != [] || option < 1.0))
                 || (c in LinksAt(r, B) && (LinksAt(r, T) != [] || option > 0.0))
  {
  }
}
