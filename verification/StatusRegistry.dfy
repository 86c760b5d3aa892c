/** The node status registry: full states, pending changes, and an observer who follows by the changes alone. */
module StatusRegistry {
  import opened Common
  import opened Options

  type Status = map<Name, Json>

  type Statuses = map<Name, Status>

  datatype Registry = Registry(states: Statuses, pending: Statuses)

  function Of(all: Statuses, node: Name): Status { if node in all then all[node] else map[] }

  function Field(all: Statuses, node: Name, name: Name): Option<Json> {
    if name in Of(all, node) then Some(Of(all, node)[name]) else None
  }

  // The fields of a status that say something new.
  function News(known: Status, status: Status): Status {
    map name | name in status && !(name in known && known[name] == status[name]) :: status[name]
  }

  function Write(r: Registry, node: Name, status: Status): Registry {
    var news := News(Of(r.states, node), status);
    Registry(r.states[node := Of(r.states, node) + news],
             if news == map[] then r.pending else r.pending[node := Of(r.pending, node) + news])
  }

  function RemoveNode(r: Registry, node: Name): Registry { Registry(r.states - {node}, r.pending - {node}) }

  // A flush hands out the pending changes and forgets them.
  function Flush(r: Registry): Registry { r.(pending := map[]) }

  // Taking changes over, field by field.
  function Merge(all: Statuses, changes: Statuses): Statuses {
    map node | node in all.Keys + changes.Keys :: Of(all, node) + Of(changes, node)
  }

  datatype Action = WriteAction(node: Name, status: Status) | RemoveAction(node: Name) | FlushAction

  function Step(r: Registry, a: Action): Registry {
    match a
    case WriteAction(node, status) => Write(r, node, status)
    case RemoveAction(node) => RemoveNode(r, node)
    case FlushAction => Flush(r)
  }

  // An observer merges what a flush hands out, and drops a node it is told has been removed.
  function Observe(view: Statuses, r: Registry, a: Action): Statuses {
    match a
    case WriteAction(_, _) => view
    case RemoveAction(node) => view - {node}
    case FlushAction => Merge(view, r.pending)
  }

  // With the changes still pending, the observer has every field as the registry has it.
  ghost predicate UpToPending(view: Statuses, r: Registry) {
    forall node, name :: Field(Merge(view, r.pending), node, name) == Field(r.states, node, name)
  }

  ghost predicate SameFields(a: Statuses, b: Statuses) {
    forall node, name :: Field(a, node, name) == Field(b, node, name)
  }

  // A pending change is the field's present value.
  ghost predicate PendingIsCurrent(r: Registry) {
    forall node, name :: Field(r.pending, node, name).Some? ==>
      Field(r.pending, node, name) == Field(r.states, node, name)
  }

  lemma MergedField(view: Statuses, changes: Statuses, node: Name, name: Name)
    ensures Field(Merge(view, changes), node, name) ==
            if Field(changes, node, name).Some? then Field(changes, node, name) else Field(view, node, name)
  {
  }

  lemma WrittenField(r: Registry, node: Name, status: Status, n: Name, name: Name)
    ensures Field(Write(r, node, status).states, n, name) ==
            if n == node && name in status then Some(status[name]) else Field(r.states, n, name)
    ensures Field(Write(r, node, status).pending, n, name) ==
            if n == node && name in News(Of(r.states, node), status) then Some(status[name])
            else Field(r.pending, n, name)
  {
  }

  // A write stores every field it names and no other; it tells of those alone that were not stored with the same value,
  // and of nothing when there are none.
  lemma WriteTellsChanges(r: Registry, node: Name, status: Status)
    ensures var w := Write(r, node, status);
            (forall n, name :: Field(w.states, n, name) ==
                               if n == node && name in status then Some(status[name]) else Field(r.states, n, name))
            && (forall n, name :: Field(w.pending, n, name) ==
                                  if n == node && name in status && Field(r.states, n, name) != Some(status[name])
                                  then Some(status[name]) else Field(r.pending, n, name))
            && w.states.Keys == r.states.Keys + {node}
            && ((forall name :: name in status ==> Field(r.states, node, name) == Some(status[name])) ==>
                  w.pending == r.pending)
  {
    forall n, name
      ensures Field(Write(r, node, status).states, n, name) ==
              if n == node && name in status then Some(status[name]) else Field(r.states, n, name)
      ensures Field(Write(r, node, status).pending, n, name) ==
              if n == node && name in status && Field(r.states, n, name) != Some(status[name])
              then Some(status[name]) else Field(r.pending, n, name)
    {
      WrittenField(r, node, status, n, name);
    }
    if forall name :: name in status ==> Field(r.states, node, name) == Some(status[name]) {
      assert News(Of(r.states, node), status) == map[];
    }
  }

  // Removing a node forgets its status and changes, and no other's; a flush forgets the changes alone.
  lemma RemoveForgetsOnlyIt(r: Registry, node: Name)
    ensures node !in RemoveNode(r, node).states && node !in RemoveNode(r, node).pending
    ensures forall n :: n != node ==>
              Of(RemoveNode(r, node).states, n) == Of(r.states, n)
              && Of(RemoveNode(r, node).pending, n) == Of(r.pending, n)
  {
  }

  lemma FlushForgetsChanges(r: Registry)
    ensures Flush(r).states == r.states && Flush(r).pending == map[]
  {
  }

  lemma StepKeepsPendingCurrent(r: Registry, a: Action)
    requires PendingIsCurrent(r)
    ensures PendingIsCurrent(Step(r, a))
  {
    forall n, name | Field(Step(r, a).pending, n, name).Some?
      ensures Field(Step(r, a).pending, n, name) == Field(Step(r, a).states, n, name)
    {
      match a
      case WriteAction(node, status) =>
        WrittenField(r, node, status, n, name);
        if name in status && name !in News(Of(r.states, node), status) {
          UnchangedField(Of(r.states, node), status, name);
        }
      case RemoveAction(node) =>
        assert Field(r.pending, n, name).Some?;
      case FlushAction =>
    }
  }

  lemma UnchangedField(known: Status, status: Status, name: Name)
    requires name in status && name !in News(known, status)
    ensures name in known && known[name] == status[name]
  {
  }

  lemma StepKeepsUpToPending(view: Statuses, r: Registry, a: Action)
    requires PendingIsCurrent(r) && UpToPending(view, r)
    ensures UpToPending(Observe(view, r, a), Step(r, a))
  {
    var after, q := Observe(view, r, a), Step(r, a);
    forall n, name ensures Field(Merge(after, q.pending), n, name) == Field(q.states, n, name) {
      MergedField(view, r.pending, n, name);
      MergedField(after, q.pending, n, name);
      if a.WriteAction? {
        WrittenField(r, a.node, a.status, n, name);
      }
    }
  }

  ghost function Follow(view: Statuses, r: Registry, run: seq<Action>): (Statuses, Registry)
    decreases |run|
  {
    if run == [] then (view, r) else Follow(Observe(view, r, run[0]), Step(r, run[0]), run[1..])
  }

  const EMPTY: Registry := Registry(map[], map[])

  // The registry after a run of calls in any order.
  ghost function RunOf(r: Registry, run: seq<Action>): Registry
    decreases |run|
  {
    if run == [] then r else RunOf(Step(r, run[0]), run[1..])
  }

  lemma {:induction false} RunKeepsPendingCurrent(r: Registry, run: seq<Action>)
    requires PendingIsCurrent(r)
    ensures PendingIsCurrent(RunOf(r, run))
    decreases |run|
  {
    if run != [] {
      StepKeepsPendingCurrent(r, run[0]);
      RunKeepsPendingCurrent(Step(r, run[0]), run[1..]);
    }
  }

  lemma {:induction false} FollowingStaysComplete(view: Statuses, r: Registry, run: seq<Action>)
    requires PendingIsCurrent(r) && UpToPending(view, r)
    ensures Follow(view, r, run).1 == RunOf(r, run)
    ensures UpToPending(Follow(view, r, run).0, RunOf(r, run))
    decreases |run|
  {
    if run != [] {
      StepKeepsPendingCurrent(r, run[0]);
      StepKeepsUpToPending(view, r, run[0]);
      FollowingStaysComplete(Observe(view, r, run[0]), Step(r, run[0]), run[1..]);
    }
  }

  // A snapshot may be ahead of the changes still pending; they say nothing it does not.
  lemma SnapshotIsUpToPending(r: Registry)
    requires PendingIsCurrent(r)
    ensures UpToPending(r.states, r)
  {
    forall n, name ensures Field(Merge(r.states, r.pending), n, name) == Field(r.states, n, name) {
      MergedField(r.states, r.pending, n, name);
    }
  }

  // Whatever has been written, removed and flushed before a snapshot and after it: the snapshot, with everything
  // flushed later merged into it and removed nodes dropped, has exactly the fields of the registry as soon as the last
  // changes have been flushed.
  lemma SnapshotAndChangesAreComplete(before: seq<Action>, after: seq<Action>)
    ensures var snapshot := RunOf(EMPTY, before).states;
            var (view, r) := Follow(snapshot, RunOf(EMPTY, before), after + [FlushAction]);
            r == RunOf(EMPTY, before + after + [FlushAction]) && r.pending == map[]
            && SameFields(view, r.states)
  {
    var r := RunOf(EMPTY, before);
    var run := after + [FlushAction];
    RunKeepsPendingCurrent(EMPTY, before);
    SnapshotIsUpToPending(r);
    FollowingStaysComplete(r.states, r, run);
    RunsJoin(EMPTY, before, run);
    assert before + after + [FlushAction] == before + run;
    RunsJoin(r, after, [FlushAction]);
    var (view, q) := Follow(r.states, r, run);
    assert q.pending == map[];
    forall n, name ensures Field(view, n, name) == Field(q.states, n, name) {
      MergedField(view, q.pending, n, name);
    }
  }

  lemma {:induction false} RunsJoin(r: Registry, a: seq<Action>, b: seq<Action>)
    ensures RunOf(r, a + b) == RunOf(RunOf(r, a), b)
    decreases |a|
  {
    if a == [] {
      assert a + b == b;
    } else {
      RunsJoin(Step(r, a[0]), a[1..], b);
      assert (a + b)[1..] == a[1..] + b;
    }
  }

  // The registry's own changes do not tell of removals: an observer who is not told stays right exactly when it has
  // no field of the removed node.
  lemma UntoldRemoval(view: Statuses, r: Registry, node: Name)
    requires UpToPending(view, r)
    ensures UpToPending(view, RemoveNode(r, node)) <==> Of(view, node) == map[]
  {
    var q := RemoveNode(r, node);
    forall n, name
      ensures Field(Merge(view, q.pending), n, name) == Field(q.states, n, name)
              <==> n != node || Field(view, node, name).None?
    {
      MergedField(view, r.pending, n, name);
      MergedField(view, q.pending, n, name);
    }
    if Of(view, node) != map[] {
      var name :| name in Of(view, node);
      assert Field(view, node, name).Some?;
      assert Field(Merge(view, q.pending), node, name) != Field(q.states, node, name);
    }
  }

  // An observer who merges the changes and is told of no removal.
  ghost function FollowUntold(view: Statuses, r: Registry, run: seq<Action>): Statuses
    decreases |run|
  {
    if run == [] then view
    else FollowUntold(if run[0].RemoveAction? then view else Observe(view, r, run[0]), Step(r, run[0]), run[1..])
  }

  // A status written, handed out and removed with its node: the observer not told of the removal still shows it.
  lemma UntoldRemovalGoesStale(node: Name, name: Name, v: Json)
    ensures var run := [WriteAction(node, map[name := v]), FlushAction, RemoveAction(node)];
            RunOf(EMPTY, run) == EMPTY
            && SameFields(Follow(map[], EMPTY, run).0, EMPTY.states)
            && Field(FollowUntold(map[], EMPTY, run), node, name) == Some(v)
            && !SameFields(FollowUntold(map[], EMPTY, run), EMPTY.states)
  {
    var written := Write(EMPTY, node, map[name := v]);
    assert News(map[], map[name := v]) == map[name := v];
    MergedField(map[], written.pending, node, name);
    assert RemoveNode(Flush(written), node) == EMPTY;
    var run := [WriteAction(node, map[name := v]), FlushAction, RemoveAction(node)];
    var rest := run[1..];
    assert rest == [FlushAction, RemoveAction(node)] && rest[1..] == [RemoveAction(node)];
    var flushed, view := Flush(written), Merge(map[], written.pending);
    assert RunOf(EMPTY, run) == RunOf(written, rest) == RunOf(flushed, rest[1..]);
    assert RunOf(flushed, rest[1..]) == EMPTY;
    assert FollowUntold(map[], EMPTY, run) == FollowUntold(map[], written, rest);
    assert FollowUntold(map[], written, rest) == FollowUntold(view, flushed, rest[1..]) == view;
    FollowingStaysComplete(map[], EMPTY, run);
    assert Field(EMPTY.states, node, name) == None;
    forall n, k ensures Field(Follow(map[], EMPTY, run).0, n, k) == Field(EMPTY.states, n, k) {
      MergedField(Follow(map[], EMPTY, run).0, map[], n, k);
    }
  }

  class NodeStatusRegistry {
    var states: Statuses
    var pending: Statuses

    ghost function View(): Registry
      reads this
    {
      Registry(states, pending)
    }

    constructor ()
      ensures View() == EMPTY
    {
      states, pending := map[], map[];
    }

    method WriteStatus(node: Name, status: Status)
      modifies this
      ensures View() == Write(old(View()), node, status)
    {
      var state, changes, changed := TakeNews(Of(states, node), Of(pending, node), status);
      states := states[node := state];
      if changed {
        pending := pending[node := changes];
      }
    }

    method Remove(node: Name)
      modifies this
      ensures View() == RemoveNode(old(View()), node)
    {
      states, pending := states - {node}, pending - {node};
    }

    method FlushChanges() returns (changes: Statuses)
      modifies this
      ensures changes == old(pending) && View() == Flush(old(View()))
    {
      changes := pending;
      pending := map[];
    }
  }

  // Field by field: what is new goes to the state and to the changes, what is known is passed over.
  method TakeNews(known: Status, pending: Status, status: Status) returns (state: Status, changes: Status, changed: bool)
    ensures state == known + News(known, status)
    ensures changes == pending + News(known, status)
    ensures changed <==> News(known, status) != map[]
  {
    state, changes, changed := known, pending, false;
    ghost var taken: Status := map[];
    var rest := status.Keys;
    while rest != {}
      invariant rest <= status.Keys && taken == Part(known, status, status.Keys - rest)
      invariant state == known + taken && changes == pending + taken
      invariant changed <==> taken != map[]
      decreases rest
    {
      var name :| name in rest;
      assert name !in taken;
      if !(name in state && state[name] == status[name]) {
        state := state[name := status[name]];
        changes := changes[name := status[name]];
        changed := true;
        AddOne(known, taken, name, status[name]);
        AddOne(pending, taken, name, status[name]);
        taken := taken[name := status[name]];
      }
      PartGrows(known, status, status.Keys - rest, name);
      assert status.Keys - (rest - {name}) == status.Keys - rest + {name};
      rest := rest - {name};
    }
    assert status.Keys - rest == status.Keys;
  }

  // The news among some of a status's fields.
  ghost function Part(known: Status, status: Status, names: set<Name>): Status {
    map name | name in News(known, status) && name in names :: News(known, status)[name]
  }

  lemma AddOne(m: Status, taken: Status, name: Name, v: Json)
    ensures (m + taken)[name := v] == m + taken[name := v]
    ensures taken[name := v] != map[]
  {
    assert name in taken[name := v];
  }

  lemma PartGrows(known: Status, status: Status, done: set<Name>, name: Name)
    requires name in status && name !in done
    ensures Part(known, status, done + {name}) ==
            if name in known && known[name] == status[name] then Part(known, status, done)
            else Part(known, status, done)[name := status[name]]
  {
  }
}
