/** The timed output queue: frames by target time, the frame being shown, and what became of every frame offered. */
module OutputQueue {
  import opened Common

  datatype Frame = Frame(target: int, payload: nat)

  datatype Metrics = Metrics(pushed: nat, overflowDrops: nat, selectionDrops: nat, repeated: nat, missing: nat)

  datatype Queue = Queue(
    capacity: nat,
    earlyTolerance: int,
    frames: seq<Frame>,
    current: Option<Frame>,
    metrics: Metrics)

  datatype Selection = NewFrame | Repeat | Missing

  function Init(capacity: nat, earlyTolerance: int): Queue {
    Queue(capacity, earlyTolerance, [], None, Metrics(0, 0, 0, 0, 0))
  }

  // The first position whose frame is later than the given one.
  ghost function UpperBound(frames: seq<Frame>, target: int): (p: nat)
    ensures p <= |frames|
    ensures forall i :: 0 <= i < p ==> frames[i].target <= target
    ensures p < |frames| ==> target < frames[p].target
  {
    if frames == [] || target < frames[0].target then 0 else 1 + UpperBound(frames[1..], target)
  }

  // Only the newest frames a queue has room for.
  ghost function Trim(frames: seq<Frame>, capacity: nat): seq<Frame> {
    if |frames| > capacity then frames[|frames| - capacity..] else frames
  }

  ghost predicate Rejects(q: Queue, f: Frame) { q.current.Some? && q.current.value.target >= f.target }

  // The queue with the new frame in its place, before it is cut to capacity.
  ghost function Longer(q: Queue, f: Frame): seq<Frame> {
    Insert(q.frames, UpperBound(q.frames, f.target), f)
  }

  ghost function Push(q: Queue, f: Frame): Queue {
    var m := q.metrics;
    if Rejects(q, f) then q.(metrics := m.(selectionDrops := m.selectionDrops + 1))
    else
      var longer := Longer(q, f);
      var kept := Trim(longer, q.capacity);
      q.(frames := kept,
         metrics := m.(pushed := m.pushed + 1, overflowDrops := m.overflowDrops + |longer| - |kept|))
  }

  // How many of the oldest frames are due at a time.
  ghost function Due(q: Queue, time: int): (n: nat)
    ensures n <= |q.frames|
  {
    UpperBound(q.frames, time + q.earlyTolerance)
  }

  ghost function SelectionAt(q: Queue, time: int): Selection {
    if Due(q, time) > 0 then NewFrame else if q.current.Some? then Repeat else Missing
  }

  ghost function Select(q: Queue, time: int): Queue {
    var n, m := Due(q, time), q.metrics;
    if n > 0 then
      q.(current := Some(q.frames[n - 1]), frames := q.frames[n..],
         metrics := m.(selectionDrops := m.selectionDrops + n - 1))
    else if q.current.Some? then q.(metrics := m.(repeated := m.repeated + 1))
    else q.(metrics := m.(missing := m.missing + 1))
  }

  /** Whole runs. */

  datatype Action = PushAction(frame: Frame) | SelectAction(time: int)

  // Every frame offered, every frame dropped, and the frames shown as new, in order.
  datatype Ledger = Ledger(offered: multiset<Frame>, dropped: multiset<Frame>, shown: seq<Frame>)

  const NOTHING: Ledger := Ledger(multiset{}, multiset{}, [])

  ghost function Step(q: Queue, a: Action): Queue {
    match a
    case PushAction(f) => Push(q, f)
    case SelectAction(time) => Select(q, time)
  }

  ghost function Record(q: Queue, l: Ledger, a: Action): Ledger {
    match a
    case PushAction(f) =>
      var longer := Longer(q, f);
      var gone := if Rejects(q, f) then multiset{f} else multiset(longer) - multiset(Trim(longer, q.capacity));
      l.(offered := l.offered + multiset{f}, dropped := l.dropped + gone)
    case SelectAction(time) =>
      var n := Due(q, time);
      if n == 0 then l
      else l.(dropped := l.dropped + multiset(q.frames[..n - 1]), shown := l.shown + [q.frames[n - 1]])
  }

  ghost predicate Earlier(a: Frame, b: Frame) { a.target <= b.target }

  ghost predicate Before(a: Frame, b: Frame) { a.target < b.target }

  // Frames in the order of their targets, all later than the frame shown, no more than there is room for.
  ghost predicate Ordered(q: Queue) {
    && 0 < q.capacity && |q.frames| <= q.capacity
    && Pairwise(q.frames, Earlier)
    && (q.current.Some? ==> forall f :: f in q.frames ==> Before(q.current.value, f))
  }

  ghost predicate Accounted(q: Queue, l: Ledger) {
    && l.offered == l.dropped + multiset(l.shown) + multiset(q.frames)
    && q.metrics.overflowDrops + q.metrics.selectionDrops == |l.dropped|
  }

  ghost predicate Forward(q: Queue, l: Ledger) {
    && Pairwise(l.shown, Before)
    && q.current == if l.shown == [] then None else Some(l.shown[|l.shown| - 1])
  }

  ghost predicate Inv(q: Queue, l: Ledger) { Ordered(q) && Accounted(q, l) && Forward(q, l) }

  lemma LongerIsOrdered(q: Queue, f: Frame)
    requires Ordered(q)
    ensures Pairwise(Longer(q, f), Earlier) && |Longer(q, f)| == |q.frames| + 1
    ensures forall g :: g in Longer(q, f) <==> g == f || g in q.frames
    ensures multiset(Longer(q, f)) == multiset(q.frames) + multiset{f}
  {
    var p := UpperBound(q.frames, f.target);
    forall i | p <= i < |q.frames| ensures Earlier(f, q.frames[i]) {
      if i > p { assert Earlier(q.frames[p], q.frames[i]); }
    }
    InsertPairwise(q.frames, p, f, Earlier);
    assert q.frames == q.frames[..p] + q.frames[p..];
  }

  lemma TrimKeepsLatest(longer: seq<Frame>, capacity: nat)
    requires Pairwise(longer, Earlier)
    ensures var kept := Trim(longer, capacity);
            var dropped := longer[..|longer| - |kept|];
            longer == dropped + kept && Pairwise(kept, Earlier)
            && |kept| == (if |longer| < capacity then |longer| else capacity)
            && multiset(longer) == multiset(dropped) + multiset(kept)
            && forall d, k :: d in dropped && k in kept ==> d.target <= k.target
  {
    var kept := Trim(longer, capacity);
    var n := |longer| - |kept|;
    assert longer == longer[..n] + kept;
    assert forall i :: 0 <= i < |kept| ==> kept[i] == longer[n + i];
    forall i, j | 0 <= i < j < |kept| ensures Earlier(kept[i], kept[j]) {
      assert Earlier(longer[n + i], longer[n + j]);
    }
    forall d, k | d in longer[..n] && k in kept ensures d.target <= k.target {
      var i :| 0 <= i < n && longer[i] == d;
      var j :| 0 <= j < |kept| && kept[j] == k;
      assert Earlier(longer[i], longer[n + j]);
    }
  }

  // A full queue gives up its earliest frame, which may be the new one: it keeps the latest targets.
  lemma PushKeepsLatest(q: Queue, f: Frame)
    requires Ordered(q) && !Rejects(q, f)
    ensures var kept := Push(q, f).frames;
            |kept| == (if |q.frames| < q.capacity then |q.frames| + 1 else q.capacity)
            && (forall g :: g in kept ==> g == f || g in q.frames)
            && (forall g, k :: (g == f || g in q.frames) && g !in kept && k in kept ==> g.target <= k.target)
  {
    LongerIsOrdered(q, f);
    TrimKeepsLatest(Longer(q, f), q.capacity);
    var longer, kept := Longer(q, f), Push(q, f).frames;
    assert forall g :: g in longer ==> g in longer[..|longer| - |kept|] || g in kept;
  }

  lemma PushKeepsOrdered(q: Queue, f: Frame)
    requires Ordered(q)
    ensures Ordered(Push(q, f))
  {
    if !Rejects(q, f) {
      LongerIsOrdered(q, f);
      TrimKeepsLatest(Longer(q, f), q.capacity);
      PushKeepsLatest(q, f);
    }
  }

  lemma Conserved(offered: multiset<Frame>, dropped: multiset<Frame>, shown: multiset<Frame>, frames: multiset<Frame>,
                  longer: multiset<Frame>, gone: multiset<Frame>, kept: multiset<Frame>, f: Frame)
    requires offered == dropped + shown + frames
    requires longer == frames + multiset{f} && longer == gone + kept
    ensures longer - kept == gone
    ensures offered + multiset{f} == dropped + gone + shown + kept
  {
  }

  lemma PushKeepsAccounted(q: Queue, l: Ledger, f: Frame)
    requires Ordered(q) && Accounted(q, l)
    ensures Accounted(Push(q, f), Record(q, l, PushAction(f)))
  {
    if Rejects(q, f) {
      assert |l.dropped + multiset{f}| == |l.dropped| + 1;
    } else {
      LongerIsOrdered(q, f);
      TrimKeepsLatest(Longer(q, f), q.capacity);
      AcceptedIsAccounted(q, l, f, Longer(q, f), Trim(Longer(q, f), q.capacity));
    }
  }

  lemma AcceptedIsAccounted(q: Queue, l: Ledger, f: Frame, longer: seq<Frame>, kept: seq<Frame>)
    requires Accounted(q, l) && multiset(longer) == multiset(q.frames) + multiset{f} && |kept| <= |longer|
    requires multiset(longer) == multiset(longer[..|longer| - |kept|]) + multiset(kept)
    ensures l.offered + multiset{f} ==
            l.dropped + (multiset(longer) - multiset(kept)) + multiset(l.shown) + multiset(kept)
    ensures |l.dropped + (multiset(longer) - multiset(kept))| == |l.dropped| + |longer| - |kept|
  {
    var gone := longer[..|longer| - |kept|];
    Conserved(l.offered, l.dropped, multiset(l.shown), multiset(q.frames), multiset(longer), multiset(gone),
              multiset(kept), f);
  }

  lemma PushKeepsInv(q: Queue, l: Ledger, f: Frame)
    requires Inv(q, l)
    ensures Inv(Push(q, f), Record(q, l, PushAction(f)))
  {
    PushKeepsOrdered(q, f);
    PushKeepsAccounted(q, l, f);
    PushKeepsForward(q, l, f);
  }

  lemma PushKeepsForward(q: Queue, l: Ledger, f: Frame)
    requires Forward(q, l)
    ensures Forward(Push(q, f), Record(q, l, PushAction(f)))
  {
  }

  // A selection shows the latest frame that is due, and leaves only frames that are not.
  lemma SelectShowsLatestDue(q: Queue, time: int)
    requires Ordered(q)
    ensures var r := Select(q, time);
            var limit := time + q.earlyTolerance;
            (forall i :: 0 <= i < |r.frames| ==> r.frames[i].target > limit)
            && (Due(q, time) > 0 ==> r.current.value.target <= limit && r.current.value in q.frames)
            && (Due(q, time) == 0 ==> r.current == q.current && r.frames == q.frames)
  {
    var n := Due(q, time);
    forall i | n <= i < |q.frames| ensures q.frames[i].target > time + q.earlyTolerance {
      if i > n { assert Earlier(q.frames[n], q.frames[i]); }
    }
  }

  lemma SelectKeepsOrdered(q: Queue, time: int)
    requires Ordered(q)
    ensures Ordered(Select(q, time))
  {
    SelectShowsLatestDue(q, time);
    var n := Due(q, time);
    var left := q.frames[n..];
    assert forall f :: f in left ==> f in q.frames;
    if n > 0 {
      forall f | f in left ensures Before(q.frames[n - 1], f) {
        var i :| 0 <= i < |left| && left[i] == f;
        assert f.target > time + q.earlyTolerance;
      }
    }
    forall i, j | 0 <= i < j < |left| ensures Earlier(left[i], left[j]) {
      assert Earlier(q.frames[n + i], q.frames[n + j]);
    }
  }

  lemma SelectKeepsAccounted(q: Queue, l: Ledger, time: int)
    requires Accounted(q, l)
    ensures Accounted(Select(q, time), Record(q, l, SelectAction(time)))
  {
    var n, r, k := Due(q, time), Select(q, time), Record(q, l, SelectAction(time));
    if n == 0 {
      assert r.frames == q.frames && k == l;
    } else {
      var gone := multiset(q.frames[..n - 1]);
      assert r.frames == q.frames[n..];
      assert k == l.(dropped := l.dropped + gone, shown := l.shown + [q.frames[n - 1]]);
      Shown(q.frames, n, l.dropped, l.shown);
    }
  }

  // The frames before the one shown are dropped, those behind it stay.
  lemma Shown(frames: seq<Frame>, n: nat, dropped: multiset<Frame>, shown: seq<Frame>)
    requires 0 < n <= |frames|
    ensures dropped + multiset(shown) + multiset(frames) ==
            dropped + multiset(frames[..n - 1]) + multiset(shown + [frames[n - 1]]) + multiset(frames[n..])
    ensures |dropped + multiset(frames[..n - 1])| == |dropped| + (n - 1)
  {
    assert frames == frames[..n - 1] + [frames[n - 1]] + frames[n..];
  }

  lemma SelectKeepsForward(q: Queue, l: Ledger, time: int)
    requires Ordered(q) && Forward(q, l)
    ensures Forward(Select(q, time), Record(q, l, SelectAction(time)))
  {
    var n := Due(q, time);
    if n > 0 {
      var shown := l.shown + [q.frames[n - 1]];
      forall i, j | 0 <= i < j < |shown| ensures Before(shown[i], shown[j]) {
        if j < |l.shown| {
          assert Before(l.shown[i], l.shown[j]);
        } else if i < |l.shown| {
          assert Before(q.current.value, q.frames[n - 1]);
          if i < |l.shown| - 1 { assert Before(l.shown[i], l.shown[|l.shown| - 1]); }
        }
      }
    }
  }

  lemma StepKeepsInv(q: Queue, l: Ledger, a: Action)
    requires Inv(q, l)
    ensures Inv(Step(q, a), Record(q, l, a))
  {
    match a
    case PushAction(f) => PushKeepsInv(q, l, f);
    case SelectAction(time) =>
      SelectKeepsOrdered(q, time);
      SelectKeepsAccounted(q, l, time);
      SelectKeepsForward(q, l, time);
  }

  ghost predicate Reaches(capacity: nat, earlyTolerance: int, run: seq<Action>, q: Queue, l: Ledger)
    decreases |run|
  {
    if run == [] then q == Init(capacity, earlyTolerance) && l == NOTHING
    else
      exists before, past :: Reaches(capacity, earlyTolerance, run[..|run| - 1], before, past)
                             && LastStep(run, before, past, q, l)
  }

  ghost predicate LastStep(run: seq<Action>, before: Queue, past: Ledger, q: Queue, l: Ledger)
    requires run != []
  {
    q == Step(before, run[|run| - 1]) && l == Record(before, past, run[|run| - 1])
  }

  lemma {:induction false} RunsKeepInv(capacity: nat, earlyTolerance: int, run: seq<Action>, q: Queue, l: Ledger)
    requires 0 < capacity && Reaches(capacity, earlyTolerance, run, q, l)
    ensures Inv(q, l)
    decreases |run|
  {
    if run != [] {
      var before, past :| Reaches(capacity, earlyTolerance, run[..|run| - 1], before, past)
                          && LastStep(run, before, past, q, l);
      RunsKeepInv(capacity, earlyTolerance, run[..|run| - 1], before, past);
      StepKeepsInv(before, past, run[|run| - 1]);
    }
  }

  // Whatever times are asked for, the frames shown as new have strictly increasing targets.
  lemma EveryRunShowsForward(capacity: nat, earlyTolerance: int, run: seq<Action>, q: Queue, l: Ledger, i: nat, j: nat)
    requires 0 < capacity && Reaches(capacity, earlyTolerance, run, q, l) && i < j < |l.shown|
    ensures l.shown[i].target < l.shown[j].target
  {
    RunsKeepInv(capacity, earlyTolerance, run, q, l);
    assert Before(l.shown[i], l.shown[j]);
  }

  // Every frame offered was dropped, or shown once, or is still queued; the drop counters count the dropped ones.
  lemma EveryRunAccountsForFrames(capacity: nat, earlyTolerance: int, run: seq<Action>, q: Queue, l: Ledger)
    requires 0 < capacity && Reaches(capacity, earlyTolerance, run, q, l)
    ensures l.offered == l.dropped + multiset(l.shown) + multiset(q.frames)
    ensures |l.offered| == q.metrics.overflowDrops + q.metrics.selectionDrops + |l.shown| + |q.frames|
    ensures |q.frames| <= q.capacity
  {
    RunsKeepInv(capacity, earlyTolerance, run, q, l);
  }

  /** The queue as the object the source updates in place. */

  class TimedOutputQueue {
    const capacity: nat
    const earlyTolerance: int
    var frames: seq<Frame>
    var current: Option<Frame>
    var metrics: Metrics

    ghost function View(): Queue
      reads this
    {
      Queue(capacity, earlyTolerance, frames, current, metrics)
    }

    constructor (capacity: nat, earlyTolerance: int)
      requires 0 < capacity
      ensures View() == Init(capacity, earlyTolerance)
    {
      this.capacity, this.earlyTolerance := capacity, earlyTolerance;
      frames, current, metrics := [], None, Metrics(0, 0, 0, 0, 0);
    }

    method PushFrame(f: Frame)
      requires Ordered(View())
      modifies this
      ensures View() == Push(old(View()), f)
    {
      if current.Some? && !(current.value.target < f.target) {
        metrics := metrics.(selectionDrops := metrics.selectionDrops + 1);
        return;
      }
      var position := FindUpperBound(frames, f.target);
      frames := frames[..position] + [f] + frames[position..];
      metrics := metrics.(pushed := metrics.pushed + 1);
      var drops;
      frames, drops := DropOldest(frames, capacity);
      metrics := metrics.(overflowDrops := metrics.overflowDrops + drops);
    }

    method SelectFrame(time: int) returns (selection: Selection, frame: Option<Frame>)
      requires Ordered(View())
      modifies this
      ensures selection == SelectionAt(old(View()), time)
      ensures View() == Select(old(View()), time)
      ensures frame == current
    {
      var limit := time + earlyTolerance;
      var due := 0;
      while due < |frames| && frames[due].target <= limit
        invariant due <= |frames|
        invariant forall i :: 0 <= i < due ==> frames[i].target <= limit
      {
        due := due + 1;
      }
      UpperBoundIs(frames, limit, due);
      if due > 0 {
        metrics := metrics.(selectionDrops := metrics.selectionDrops + due - 1);
        current := Some(frames[due - 1]);
        frames := frames[due..];
        return NewFrame, current;
      }
      if current.Some? {
        metrics := metrics.(repeated := metrics.repeated + 1);
        return Repeat, current;
      }
      metrics := metrics.(missing := metrics.missing + 1);
      return Missing, None;
    }
  }

  lemma UpperBoundIs(frames: seq<Frame>, target: int, p: nat)
    requires p <= |frames|
    requires forall i :: 0 <= i < p ==> frames[i].target <= target
    requires p < |frames| ==> target < frames[p].target
    ensures UpperBound(frames, target) == p
  {
  }

  // Pop frames off the front until the rest fits.
  method DropOldest(longer: seq<Frame>, capacity: nat) returns (kept: seq<Frame>, drops: nat)
    ensures kept == Trim(longer, capacity) && drops == |longer| - |kept|
  {
    kept, drops := longer, 0;
    while |kept| > capacity
      invariant drops <= |longer| && kept == longer[drops..]
      invariant drops > 0 ==> |kept| >= capacity
    {
      kept, drops := kept[1..], drops + 1;
    }
  }

  // std::upper_bound: halve the range in which the first later frame lies.
  method FindUpperBound(frames: seq<Frame>, target: int) returns (p: nat)
    requires Pairwise(frames, Earlier)
    ensures p == UpperBound(frames, target)
  {
    var low, high := 0, |frames|;
    while low < high
      invariant low <= high <= |frames|
      invariant forall i :: 0 <= i < low ==> frames[i].target <= target
      invariant forall i :: high <= i < |frames| ==> target < frames[i].target
    {
      var middle := (low + high) / 2;
      if target < frames[middle].target {
        forall i | middle <= i < |frames| ensures target < frames[i].target {
          if i > middle { assert Earlier(frames[middle], frames[i]); }
        }
        high := middle;
      } else {
        forall i | 0 <= i <= middle ensures frames[i].target <= target {
          if i < middle { assert Earlier(frames[i], frames[middle]); }
        }
        low := middle + 1;
      }
    }
    p := low;
    UpperBoundIs(frames, target, p);
  }
}
