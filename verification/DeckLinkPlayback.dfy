/** The output's playback loop, as the object the source updates in place: preroll, completion and refill. */
module DeckLinkPlayback {
  import opened Common
  import opened PresentationTimeline
  import Q = OutputQueue
  import opened DeckLinkOutput

  datatype Phase = Prerolling | Running | Stopping

  // What the output makes of the frames it pulls from the readback stream, one after another; a frame of the wrong size
  // is passed over.
  ghost function CollectAll(o: Output, pulled: seq<Option<Q.Frame>>): Output
    decreases |pulled|
  {
    if pulled == [] then o
    else CollectAll(if pulled[0].Some? then Collect(o, pulled[0].value) else o, pulled[1..])
  }

  lemma {:induction false} CollectAllKeepsValid(o: Output, pulled: seq<Option<Q.Frame>>)
    requires Valid(o)
    ensures Valid(CollectAll(o, pulled)) && CollectAll(o, pulled).scheduled == o.scheduled
    ensures CollectAll(o, pulled).scheduledTarget == o.scheduledTarget
    decreases |pulled|
  {
    if pulled != [] {
      if pulled[0].Some? { CollectKeepsValid(o, pulled[0].value); }
      CollectAllKeepsValid(if pulled[0].Some? then Collect(o, pulled[0].value) else o, pulled[1..]);
    }
  }

  // A frame scheduled for the k-th of consecutive target times, k places after the next free sequence number.
  ghost predicate Placed(s: Scheduled, o: Output, target: int, k: int) {
    && s.target == target + o.frameFlicks * k
    && s.sequence == o.nextSequence + k
    && s.streamTime == o.nextStreamTime + o.frameTime * k
  }

  // From one state to a later one: so many frames joined behind those there were, for consecutive target times, each
  // starting where the one before it ends.
  ghost predicate Extends(o: Output, r: Output, target: int, n: nat) {
    && r.scheduledTarget == o.scheduledTarget && r.frameFlicks == o.frameFlicks && r.frameTime == o.frameTime
    && |r.scheduled| == |o.scheduled| + n && r.scheduled[..|o.scheduled|] == o.scheduled
    && r.nextSequence == o.nextSequence + n && r.nextStreamTime == o.nextStreamTime + o.frameTime * n
    && forall j :: |o.scheduled| <= j < |r.scheduled| ==> Placed(r.scheduled[j], o, target, j - |o.scheduled|)
  }

  // What one schedule call adds.
  lemma ScheduleExtends(o: Output, target: int, accepted: bool)
    ensures Extends(o, Schedule(o, target, accepted), target, if Schedules(o, target, accepted) then 1 else 0)
  {
  }

  lemma ExtendsFurther(o: Output, m: Output, r: Output, target: int, next: int, n: nat)
    requires next == target + o.frameFlicks && Extends(o, m, target, 1) && Extends(m, r, next, n)
    ensures Extends(o, r, target, n + 1)
  {
    assert r.scheduled[..|o.scheduled|] == r.scheduled[..|m.scheduled|][..|o.scheduled|];
    assert o.frameTime * (n + 1) == o.frameTime * n + o.frameTime;
    forall j | |o.scheduled| <= j < |r.scheduled| ensures Placed(r.scheduled[j], o, target, j - |o.scheduled|) {
      if j < |m.scheduled| {
        assert r.scheduled[j] == r.scheduled[..|m.scheduled|][j] == m.scheduled[j];
      } else {
        PlacedFurther(r.scheduled[j], o, m, target, j - |m.scheduled|);
      }
    }
  }

  lemma PlacedFurther(s: Scheduled, o: Output, m: Output, target: int, k: nat)
    requires Placed(s, m, target + o.frameFlicks, k)
    requires m.frameFlicks == o.frameFlicks && m.frameTime == o.frameTime
    requires m.nextSequence == o.nextSequence + 1 && m.nextStreamTime == o.nextStreamTime + o.frameTime
    ensures Placed(s, o, target, k + 1)
  {
    assert o.frameFlicks * (k + 1) == o.frameFlicks * k + o.frameFlicks;
    assert o.frameTime * (k + 1) == o.frameTime * k + o.frameTime;
  }

  // The mapped target lies more than half a program frame before the oldest queued frame.
  ghost predicate TooEarly(o: Output, target: int, programFrameDuration: int) {
    o.queue.frames != [] && target + programFrameDuration / 2 < o.queue.frames[0].target
  }

  // One try to schedule a frame for a target time: whether there was one to show, and whether the device accepted it.
  datatype Attempt = Attempt(output: Output, shown: bool, accepted: bool) {
    ghost predicate Ok() { shown && accepted }
  }

  type Attempts = (Output, int) -> Attempt

  // The device's answer depends on the number of the frame.
  ghost function Try(accepts: nat -> bool): Attempts {
    (o: Output, target: int) =>
      Attempt(Schedule(o, target, accepts(o.nextSequence)), BufferFor(o, target).Some?, accepts(o.nextSequence))
  }

  datatype Row = Row(output: Output, count: nat)

  // Tries at consecutive times until one fails, and how many succeeded.
  ghost function Repeat(o: Output, target: int, step: int, count: nat, attempt: Attempts): Row
    decreases count
  {
    if count == 0 then Row(o, 0)
    else if !attempt(o, target).Ok() then Row(attempt(o, target).output, 0)
    else Behind(1, Repeat(attempt(o, target).output, target + step, step, count - 1, attempt))
  }

  ghost function Behind(n: nat, row: Row): Row { row.(count := n + row.count) }

  ghost function ScheduleRow(o: Output, target: int, count: nat, accepts: nat -> bool): Row {
    Repeat(o, target, o.frameFlicks, count, Try(accepts))
  }

  ghost function Success(a: Attempt): nat { if a.Ok() then 1 else 0 }

  ghost predicate AcceptsAll(accepts: nat -> bool, first: nat, count: nat) {
    forall k :: first <= k < first + count ==> accepts(k)
  }

  // How far a row goes: while the device accepts, and nowhere without a frame to show.
  ghost predicate StopsAt(shown: bool, first: nat, count: nat, accepts: nat -> bool, n: nat) {
    && n <= count && AcceptsAll(accepts, first, n)
    && (n < count ==> (n == 0 && !shown) || !accepts(first + n))
    && (0 < n ==> shown)
  }

  lemma StopsOneLater(first: nat, count: nat, accepts: nat -> bool, n: nat)
    requires accepts(first) && StopsAt(true, first + 1, count, accepts, n)
    ensures StopsAt(true, first, count + 1, accepts, n + 1)
  {
    assert first + 1 + n == first + (n + 1);
  }

  // The device answers by the number of the frame; a success takes the number and leaves a frame to show from then on.
  ghost predicate Advances(attempt: Attempts, accepts: nat -> bool, o: Output, target: int) {
    var a := attempt(o, target);
    && a.accepted == accepts(o.nextSequence)
    && (a.Ok() ==> a.output.nextSequence == o.nextSequence + 1 && forall t :: attempt(a.output, t).shown)
  }

  lemma {:induction false} RepeatStops(o: Output, target: int, step: int, count: nat, attempt: Attempts,
                                       accepts: nat -> bool)
    requires forall s, t :: Advances(attempt, accepts, s, t)
    ensures StopsAt(attempt(o, target).shown, o.nextSequence, count, accepts,
                    Repeat(o, target, step, count, attempt).count)
    decreases count
  {
    assert Advances(attempt, accepts, o, target);
    if count > 0 && attempt(o, target).Ok() {
      var m, next := attempt(o, target).output, target + step;
      RepeatStops(m, next, step, count - 1, attempt, accepts);
      StopsOneLater(o.nextSequence, count - 1, accepts, Repeat(m, next, step, count - 1, attempt).count);
    }
  }

  lemma {:induction false} RepeatExtends(o: Output, target: int, step: int, count: nat, attempt: Attempts)
    requires step == o.frameFlicks && forall s, t :: Extends(s, attempt(s, t).output, t, Success(attempt(s, t)))
    ensures var row := Repeat(o, target, step, count, attempt); Extends(o, row.output, target, row.count)
    decreases count
  {
    assert Extends(o, attempt(o, target).output, target, Success(attempt(o, target)));
    if count == 0 {
      NotExtended(o, target);
    } else if attempt(o, target).Ok() {
      var m, next := attempt(o, target).output, target + step;
      RepeatExtends(m, next, step, count - 1, attempt);
      var rest := Repeat(m, next, step, count - 1, attempt);
      ExtendsFurther(o, m, rest.output, target, next, rest.count);
    }
  }

  lemma NotExtended(o: Output, target: int)
    ensures Extends(o, o, target, 0)
  {
  }

  ghost predicate KeepsValid(o: Output, a: Attempt) {
    Valid(o) && |o.scheduled| < o.scheduledTarget ==>
      && Valid(a.output) && a.output.scheduledTarget == o.scheduledTarget
      && |a.output.scheduled| == |o.scheduled| + Success(a)
  }

  lemma {:induction false} RepeatKeepsValid(o: Output, target: int, step: int, count: nat, attempt: Attempts)
    requires Valid(o) && |o.scheduled| + count <= o.scheduledTarget
    requires forall s, t :: KeepsValid(s, attempt(s, t))
    ensures Valid(Repeat(o, target, step, count, attempt).output)
    decreases count
  {
    assert KeepsValid(o, attempt(o, target));
    if count > 0 && attempt(o, target).Ok() {
      RepeatKeepsValid(attempt(o, target).output, target + step, step, count - 1, attempt);
    }
  }

  // One more frame of a row, or the end of it.
  lemma RowMoves(done: nat, o: Output, target: int, step: int, count: nat, attempt: Attempts, next: int, left: nat)
    requires count == left + 1 && next == target + step
    ensures Behind(done, Repeat(o, target, step, count, attempt)) ==
            if attempt(o, target).Ok()
            then Behind(done + 1, Repeat(attempt(o, target).output, next, step, left, attempt))
            else Row(attempt(o, target).output, done)
  {
  }

  // What there is to know about a row of frames: how long it is and what it adds.
  lemma RowIsScheduled(o: Output, target: int, count: nat, accepts: nat -> bool, row: Row)
    requires Valid(o) && |o.scheduled| + count <= o.scheduledTarget
    requires row == ScheduleRow(o, target, count, accepts)
    ensures StopsAt(BufferFor(o, target).Some?, o.nextSequence, count, accepts, row.count)
    ensures Extends(o, row.output, target, row.count) && Valid(row.output)
  {
    var attempt := Try(accepts);
    forall s, t ensures Advances(attempt, accepts, s, t) {
      TryAdvances(s, t, accepts);
    }
    forall s, t ensures Extends(s, attempt(s, t).output, t, Success(attempt(s, t))) {
      ScheduleExtends(s, t, accepts(s.nextSequence));
    }
    forall s, t ensures KeepsValid(s, attempt(s, t)) {
      TryKeepsValid(s, t, accepts);
    }
    RepeatStops(o, target, o.frameFlicks, count, attempt, accepts);
    RepeatExtends(o, target, o.frameFlicks, count, attempt);
    RepeatKeepsValid(o, target, o.frameFlicks, count, attempt);
  }

  lemma LastBufferShows(o: Output, target: int)
    requires o.lastBuffer.Some?
    ensures BufferFor(o, target).Some?
  {
  }

  lemma TryAdvances(o: Output, target: int, accepts: nat -> bool)
    ensures Advances(Try(accepts), accepts, o, target)
  {
    var a := Try(accepts)(o, target);
    if a.Ok() {
      forall t ensures Try(accepts)(a.output, t).shown {
        LastBufferShows(a.output, t);
      }
    }
  }

  lemma TryKeepsValid(o: Output, target: int, accepts: nat -> bool)
    ensures KeepsValid(o, Try(accepts)(o, target))
  {
    if Valid(o) && |o.scheduled| < o.scheduledTarget {
      ScheduleKeepsValid(o, target, accepts(o.nextSequence));
      ScheduleExtends(o, target, accepts(o.nextSequence));
    }
  }

  /** The two calls, as functions of the output. */

  datatype Outcome = Outcome(output: Output, full: bool)

  ghost predicate EnoughQueued(o: Output) { |o.queue.frames| >= o.scheduledTarget + PROGRAM_QUEUE_RESERVE }

  ghost function Fill(o: Output, target: int, count: nat, accepts: nat -> bool): Outcome {
    var row := ScheduleRow(o, target, count, accepts);
    Outcome(row.output, row.count == count)
  }

  // Preroll: scheduled from the oldest frame on, once there are enough.
  ghost function Prerolled(o: Output, pulled: seq<Option<Q.Frame>>, accepts: nat -> bool): Outcome {
    var c := CollectAll(o, pulled);
    if !EnoughQueued(c) then Outcome(c, false) else Fill(c, c.queue.frames[0].target, c.scheduledTarget, accepts)
  }

  // The time the frame to schedule next maps to, and after an observation for the oldest queued frame.
  ghost function Mapped(history: seq<int>, presentation: Option<int>): Option<int> {
    match presentation
    case None => None
    case Some(time) => Target(history, time)
  }

  ghost function Corrected(o: Output, history: seq<int>, presentation: Option<int>, programFrameDuration: int)
    : seq<int>
  {
    var mapped := Mapped(history, presentation);
    if mapped.Some? && TooEarly(o, mapped.value, programFrameDuration)
    then history + [presentation.value - o.queue.frames[0].target] else history
  }

  ghost function RefillTarget(o: Output, history: seq<int>, presentation: Option<int>, programFrameDuration: int)
    : Option<int>
  {
    Mapped(Corrected(o, history, presentation, programFrameDuration), presentation)
  }

  // A completion whose start time is known tells the latency of its frame.
  ghost function Observed(history: seq<int>, start: Option<int>, target: int): seq<int> {
    match start
    case None => history
    case Some(time) => history + [time - target]
  }

  ghost function RefillCount(o: Output): nat {
    if o.scheduledTarget > |o.scheduled| then o.scheduledTarget - |o.scheduled| else 0
  }

  // Refill: what is missing to the target, from the target time on, if there is one.
  ghost function Refill(c: Output, target: Option<int>, accepts: nat -> bool): Outcome {
    if target.None? then Outcome(c, false) else Fill(c, target.value, RefillCount(c), accepts)
  }

  // A row is complete exactly when the device accepts every frame and there is one to show.
  lemma FillFills(o: Output, target: int, count: nat, accepts: nat -> bool, outcome: Outcome)
    requires Valid(o) && |o.scheduled| + count <= o.scheduledTarget && outcome == Fill(o, target, count, accepts)
    ensures Valid(outcome.output) && outcome.output.scheduledTarget == o.scheduledTarget
    ensures outcome.full <==> AcceptsAll(accepts, o.nextSequence, count) && (count > 0 ==> BufferFor(o, target).Some?)
    ensures outcome.full ==> Extends(o, outcome.output, target, count)
    ensures outcome.full <==> |outcome.output.scheduled| == |o.scheduled| + count
  {
    RowIsScheduled(o, target, count, accepts, ScheduleRow(o, target, count, accepts));
  }

  // A preroll is full exactly when enough was queued, the device accepts every frame, and there is one to show; its
  // frames follow the oldest queued one without a gap.
  lemma PrerollFills(o: Output, pulled: seq<Option<Q.Frame>>, accepts: nat -> bool, c: Output, outcome: Outcome)
    requires Valid(o) && o.scheduled == []
    requires c == CollectAll(o, pulled) && outcome == Prerolled(o, pulled, accepts)
    ensures Valid(outcome.output) && outcome.output.scheduledTarget == o.scheduledTarget
    ensures outcome.full <==> EnoughQueued(c) && AcceptsAll(accepts, c.nextSequence, o.scheduledTarget)
                              && (o.scheduledTarget > 0 ==> BufferFor(c, c.queue.frames[0].target).Some?)
    ensures outcome.full ==> |outcome.output.scheduled| == o.scheduledTarget
                             && Extends(c, outcome.output, c.queue.frames[0].target, o.scheduledTarget)
  {
    CollectAllKeepsValid(o, pulled);
    if EnoughQueued(c) {
      FillFills(c, c.queue.frames[0].target, c.scheduledTarget, accepts, outcome);
    }
  }

  // A refill is full exactly when there is a time to schedule for, the device accepts every missing frame, and there
  // is one to show.
  lemma RefillFills(c: Output, target: Option<int>, accepts: nat -> bool, outcome: Outcome)
    requires Valid(c) && outcome == Refill(c, target, accepts)
    ensures Valid(outcome.output) && outcome.output.scheduledTarget == c.scheduledTarget
    ensures outcome.full <==> target.Some? && AcceptsAll(accepts, c.nextSequence, RefillCount(c))
                              && (RefillCount(c) > 0 ==> BufferFor(c, target.value).Some?)
    ensures outcome.full ==> |outcome.output.scheduled| == c.scheduledTarget
                             && Extends(c, outcome.output, target.value, RefillCount(c))
  {
    if target.Some? {
      FillFills(c, target.value, RefillCount(c), accepts, outcome);
    }
  }

  /** The calls as steps of the output, each possible in its turn. */

  // The last pull finds no frame.
  ghost function Pulls(pulled: seq<Option<Q.Frame>>): seq<OutputStep>
    decreases |pulled|
  {
    if pulled == [] then [Passing]
    else [if pulled[0].Some? then Collecting(pulled[0].value) else Passing] + Pulls(pulled[1..])
  }

  lemma {:induction false} CollectAllPlays(o: Output, pulled: seq<Option<Q.Frame>>)
    requires |o.scheduled| < o.scheduledTarget
    ensures Plays(o, Pulls(pulled), CollectAll(o, pulled))
    decreases |pulled|
  {
    if pulled == [] {
      assert Plays(o, [], o);
    } else {
      CollectAllPlays(if pulled[0].Some? then Collect(o, pulled[0].value) else o, pulled[1..]);
      assert Pulls(pulled)[1..] == Pulls(pulled[1..]);
    }
  }

  ghost function Tries(o: Output, target: int, step: int, count: nat, attempt: Attempts, accepts: nat -> bool)
    : seq<OutputStep>
    decreases count
  {
    if count == 0 then []
    else
      [Scheduling(target, accepts(o.nextSequence))]
      + if attempt(o, target).Ok()
        then Tries(attempt(o, target).output, target + step, step, count - 1, attempt, accepts)
        else []
  }

  ghost function RowSteps(o: Output, target: int, count: nat, accepts: nat -> bool): seq<OutputStep> {
    Tries(o, target, o.frameFlicks, count, Try(accepts), accepts)
  }

  type Playing = (Output, seq<OutputStep>, Output) -> bool

  // A try comes first in a play, if there is room for it.
  ghost predicate ComesFirst(plays: Playing, attempt: Attempts, accepts: nat -> bool, o: Output, target: int,
                             more: seq<OutputStep>, r: Output)
  {
    |o.scheduled| < o.scheduledTarget && plays(attempt(o, target).output, more, r) ==>
      plays(o, [Scheduling(target, accepts(o.nextSequence))] + more, r)
  }

  ghost predicate TakesRoom(o: Output, a: Attempt) {
    a.output.scheduledTarget == o.scheduledTarget && |a.output.scheduled| == |o.scheduled| + Success(a)
  }

  lemma {:induction false} RepeatPlays(o: Output, target: int, step: int, count: nat, attempt: Attempts,
                                       accepts: nat -> bool, plays: Playing)
    requires |o.scheduled| + count <= o.scheduledTarget && forall s, t :: TakesRoom(s, attempt(s, t))
    requires forall s :: plays(s, [], s)
    requires forall s, t, more, r :: ComesFirst(plays, attempt, accepts, s, t, more, r)
    ensures plays(o, Tries(o, target, step, count, attempt, accepts), Repeat(o, target, step, count, attempt).output)
    decreases count
  {
    if count > 0 {
      var m, next, left := attempt(o, target).output, target + step, count - 1;
      var more, r := Tries(m, next, step, left, attempt, accepts), Repeat(m, next, step, left, attempt).output;
      assert TakesRoom(o, attempt(o, target));
      if attempt(o, target).Ok() {
        RepeatPlays(m, next, step, left, attempt, accepts, plays);
        assert ComesFirst(plays, attempt, accepts, o, target, more, r);
      } else {
        assert ComesFirst(plays, attempt, accepts, o, target, [], m);
      }
    }
  }

  lemma TryTakesRoom(o: Output, target: int, accepts: nat -> bool)
    ensures TakesRoom(o, Try(accepts)(o, target))
  {
    ScheduleExtends(o, target, accepts(o.nextSequence));
  }

  lemma TryComesFirst(o: Output, target: int, accepts: nat -> bool, more: seq<OutputStep>, r: Output)
    ensures ComesFirst(Plays, Try(accepts), accepts, o, target, more, r)
  {
    var step := Scheduling(target, accepts(o.nextSequence));
    assert ([step] + more)[1..] == more;
  }

  lemma RowPlays(o: Output, target: int, count: nat, accepts: nat -> bool)
    requires |o.scheduled| + count <= o.scheduledTarget
    ensures Plays(o, RowSteps(o, target, count, accepts), ScheduleRow(o, target, count, accepts).output)
  {
    forall s, t ensures TakesRoom(s, Try(accepts)(s, t)) {
      TryTakesRoom(s, t, accepts);
    }
    forall s, t, more, r ensures ComesFirst(Plays, Try(accepts), accepts, s, t, more, r) {
      TryComesFirst(s, t, accepts, more, r);
    }
    RepeatPlays(o, target, o.frameFlicks, count, Try(accepts), accepts, Plays);
  }

  datatype Call =
    | Pump(pulled: seq<Option<Q.Frame>>, accepts: nat -> bool)
    | Completion(position: nat, pulled: seq<Option<Q.Frame>>, target: Option<int>, accepts: nat -> bool)

  // Preroll is pumped before anything is scheduled; a completion is of a scheduled frame.
  ghost predicate Proper(o: Output, call: Call) {
    if call.Pump? then o.scheduled == [] else call.position < |o.scheduled|
  }

  ghost function CallResult(o: Output, call: Call): Output
    requires Proper(o, call)
  {
    match call
    case Pump(pulled, accepts) => Prerolled(o, pulled, accepts).output
    case Completion(k, pulled, target, accepts) => Refill(CollectAll(Complete(o, k), pulled), target, accepts).output
  }

  ghost function CallSteps(o: Output, call: Call): seq<OutputStep>
    requires Proper(o, call)
  {
    match call
    case Pump(pulled, accepts) =>
      var c := CollectAll(o, pulled);
      Pulls(pulled)
      + if EnoughQueued(c) then RowSteps(c, c.queue.frames[0].target, c.scheduledTarget, accepts) else []
    case Completion(k, pulled, target, accepts) =>
      var c := CollectAll(Complete(o, k), pulled);
      [Completing(k)] + Pulls(pulled)
      + if target.Some? then RowSteps(c, target.value, RefillCount(c), accepts) else []
  }

  lemma PumpPlays(o: Output, pulled: seq<Option<Q.Frame>>, accepts: nat -> bool)
    requires Valid(o) && o.scheduled == [] && 0 < o.scheduledTarget
    ensures Plays(o, CallSteps(o, Pump(pulled, accepts)), CallResult(o, Pump(pulled, accepts)))
  {
    var c := CollectAll(o, pulled);
    CollectAllKeepsValid(o, pulled);
    CollectAllPlays(o, pulled);
    if EnoughQueued(c) {
      var first := c.queue.frames[0].target;
      RowPlays(c, first, c.scheduledTarget, accepts);
      PlaysOn(o, Pulls(pulled), c, RowSteps(c, first, c.scheduledTarget, accepts),
              ScheduleRow(c, first, c.scheduledTarget, accepts).output);
    } else {
      assert Pulls(pulled) + [] == Pulls(pulled);
    }
  }

  lemma CompletionPlays(o: Output, call: Call)
    requires Valid(o) && call.Completion? && Proper(o, call)
    ensures Plays(o, CallSteps(o, call), CallResult(o, call))
  {
    var m, pulled := Complete(o, call.position), call.pulled;
    var c := CollectAll(m, pulled);
    CompleteKeepsValid(o, call.position);
    CollectAllKeepsValid(m, pulled);
    CollectAllPlays(m, pulled);
    var all := [Completing(call.position)] + Pulls(pulled);
    assert all[1..] == Pulls(pulled);
    assert Plays(o, all, c);
    if call.target.Some? {
      RowPlays(c, call.target.value, RefillCount(c), call.accepts);
      PlaysOn(o, all, c, RowSteps(c, call.target.value, RefillCount(c), call.accepts), CallResult(o, call));
    } else {
      assert all + [] == all;
    }
  }

  lemma CallKeepsValid(o: Output, call: Call)
    requires Valid(o) && Proper(o, call)
    ensures Valid(CallResult(o, call)) && CallResult(o, call).scheduledTarget == o.scheduledTarget
  {
    match call
    case Pump(pulled, accepts) =>
      PrerollFills(o, pulled, accepts, CollectAll(o, pulled), Prerolled(o, pulled, accepts));
    case Completion(k, pulled, target, accepts) =>
      CompleteKeepsValid(o, k);
      CollectAllKeepsValid(Complete(o, k), pulled);
      var c := CollectAll(Complete(o, k), pulled);
      RefillFills(c, target, accepts, Refill(c, target, accepts));
  }

  // A playback is any number of proper calls, one after another.
  ghost predicate Playback(o: Output, calls: seq<Call>)
    decreases |calls|
  {
    calls == [] || (Proper(o, calls[0]) && Playback(CallResult(o, calls[0]), calls[1..]))
  }

  ghost function PlaybackResult(o: Output, calls: seq<Call>): Output
    requires Playback(o, calls)
    decreases |calls|
  {
    if calls == [] then o else PlaybackResult(CallResult(o, calls[0]), calls[1..])
  }

  ghost function PlaybackSteps(o: Output, calls: seq<Call>): seq<OutputStep>
    requires Playback(o, calls)
    decreases |calls|
  {
    if calls == [] then [] else CallSteps(o, calls[0]) + PlaybackSteps(CallResult(o, calls[0]), calls[1..])
  }

  lemma {:induction false} PlaybackPlays(o: Output, calls: seq<Call>)
    requires Valid(o) && 0 < o.scheduledTarget && Playback(o, calls)
    ensures Plays(o, PlaybackSteps(o, calls), PlaybackResult(o, calls)) && Valid(PlaybackResult(o, calls))
    decreases |calls|
  {
    if calls != [] {
      var m := CallResult(o, calls[0]);
      CallKeepsValid(o, calls[0]);
      if calls[0].Pump? {
        PumpPlays(o, calls[0].pulled, calls[0].accepts);
      } else {
        CompletionPlays(o, calls[0]);
      }
      PlaybackPlays(m, calls[1..]);
      PlaysOn(o, CallSteps(o, calls[0]), m, PlaybackSteps(m, calls[1..]), PlaybackResult(o, calls));
    }
  }

  lemma {:induction false} PlaysInPart(o: Output, part: seq<OutputStep>, steps: seq<OutputStep>, r: Output)
    returns (m: Output)
    requires Plays(o, steps, r) && part <= steps
    ensures Plays(o, part, m) && (part == steps ==> m == r)
    decreases |part|
  {
    if part == [] {
      m := o;
    } else {
      assert part[1..] <= steps[1..];
      m := PlaysInPart(Take(o, steps[0]), part[1..], steps[1..], r);
    }
  }

  // At every moment of every playback, with the render thread, the worker and the device acting in between: the frames
  // in the hands of output and device leave the pipeline its slots; and when all calls are through, the output is
  // where the calls, taken one by one, lead.
  lemma EveryPlaybackLeavesHeadroom(bufferFrames: nat, initialSlots: nat, earlyTolerance: int, frameTime: int,
                                    frameFlicks: int, init: Pipeline, calls: seq<Call>, run: seq<PipelineAction>,
                                    p: Pipeline)
    requires 0 < bufferFrames
    requires initialSlots <= GetReadbackSlotCount(bufferFrames, GetOutputQueueCapacity(bufferFrames))
    requires init == PipelineInit(bufferFrames, initialSlots, earlyTolerance, frameTime, frameFlicks)
    requires Playback(init.output, calls) && Runs(init, run, p)
    requires OwnSteps(init, run) <= PlaybackSteps(init.output, calls)
    ensures OwnSteps(init, run) == PlaybackSteps(init.output, calls) ==> p.output == PlaybackResult(init.output, calls)
    ensures p.stream.activeFrames <= p.stream.maxSlots - READBACK_PIPELINE_HEADROOM
    ensures |p.output.scheduled| < p.output.scheduledTarget ==>
              p.stream.activeFrames + 1 <=
              p.stream.maxSlots - READBACK_PIPELINE_HEADROOM + (if p.completing.Some? then 1 else 0)
    ensures p.stream.activeFrames == |HeldBy(p)|
  {
    PipelineInitHolds(bufferFrames, initialSlots, earlyTolerance, frameTime, frameFlicks);
    PlaybackPlays(init.output, calls);
    var m := PlaysInPart(init.output, OwnSteps(init, run), PlaybackSteps(init.output, calls),
                         PlaybackResult(init.output, calls));
    RunsKeepPipelineInv(init, run, p, m);
    PipelineLeavesHeadroom(p);
  }

  class DeckLinkPlayback {
    const queue: Q.TimedOutputQueue
    const timeline: PresentationTimeline
    const scheduledTarget: nat
    const frameTime: int
    const frameFlicks: int
    const programFrameDuration: int
    var scheduledFrames: seq<Scheduled>
    var lastBuffer: Option<nat>
    var nextStreamTime: int
    var nextSequence: nat
    var phase: Phase
    var stopRequested: bool

    ghost function View(): Output
      reads this, queue
    {
      Output(queue.View(), scheduledFrames, lastBuffer, scheduledTarget, frameTime, frameFlicks, nextStreamTime,
             nextSequence)
    }

    constructor (bufferFrames: nat, earlyTolerance: int, frameTime: int, frameFlicks: int, programFrameDuration: int)
      ensures View() == Init(bufferFrames, earlyTolerance, frameTime, frameFlicks) && fresh(queue)
      ensures timeline.Valid() && timeline.history == [] && fresh(timeline) && fresh(timeline.observations)
      ensures phase == Prerolling && !stopRequested
    {
      queue := new Q.TimedOutputQueue(GetOutputQueueCapacity(bufferFrames), earlyTolerance);
      timeline := new PresentationTimeline();
      scheduledTarget, this.frameTime, this.frameFlicks := bufferFrames, frameTime, frameFlicks;
      this.programFrameDuration := programFrameDuration;
      scheduledFrames, lastBuffer, nextStreamTime, nextSequence := [], None, 0, 0;
      phase, stopRequested := Prerolling, false;
    }

    method RequestFailure()
      modifies this`stopRequested, this`phase
      ensures stopRequested && phase == if old(stopRequested) then old(phase) else Stopping
    {
      if !stopRequested {
        stopRequested, phase := true, Stopping;
      }
    }

    method CollectCompletedReadbacks(pulled: seq<Option<Q.Frame>>)
      requires Valid(View())
      modifies queue
      ensures View() == CollectAll(old(View()), pulled) && Valid(View())
    {
      ghost var all := CollectAll(View(), pulled);
      for k := 0 to |pulled|
        invariant Valid(View()) && all == CollectAll(View(), pulled[k..])
      {
        assert pulled[k..][0] == pulled[k] && pulled[k..][1..] == pulled[k + 1..];
        if pulled[k].None? {
          continue;
        }
        CollectKeepsValid(View(), pulled[k].value);
        queue.PushFrame(pulled[k].value);
      }
      assert pulled[|pulled|..] == [];
    }

    method ScheduleProgramFrame(target: int, accepted: bool) returns (scheduled: bool)
      requires Q.Ordered(queue.View())
      modifies this`scheduledFrames, this`lastBuffer, this`nextStreamTime, this`nextSequence, queue
      ensures scheduled == Schedules(old(View()), target, accepted)
      ensures View() == Schedule(old(View()), target, accepted)
    {
      var selection, frame := queue.SelectFrame(target);
      if frame.Some? {
        lastBuffer := Some(frame.value.payload);
      }
      if lastBuffer.None? || !accepted {
        return false;
      }
      scheduledFrames := scheduledFrames + [Scheduled(lastBuffer.value, nextSequence, frameFlicks * nextSequence,
                                                      nextStreamTime, target)];
      nextStreamTime := nextStreamTime + frameTime;
      nextSequence := nextSequence + 1;
      return true;
    }

    // Schedule frames for consecutive target times until one cannot be.
    method ScheduleFrames(first: int, count: nat, accepts: nat -> bool) returns (scheduled: nat)
      requires Valid(View()) && |scheduledFrames| + count <= scheduledTarget
      modifies this`scheduledFrames, this`lastBuffer, this`nextStreamTime, this`nextSequence, queue
      ensures Row(View(), scheduled) == ScheduleRow(old(View()), first, count, accepts) && Valid(View())
    {
      scheduled := 0;
      var target := first;
      ghost var o, left, row, attempt := View(), count, ScheduleRow(View(), first, count, accepts), Try(accepts);
      RowIsScheduled(o, first, count, accepts, row);
      while scheduled < count
        invariant scheduled <= count && left == count - scheduled && View() == o && Q.Ordered(o.queue)
        invariant row == Behind(scheduled, Repeat(o, target, frameFlicks, left, attempt))
      {
        ghost var a, less := attempt(o, target), left - 1;
        var next := target + frameFlicks;
        RowMoves(scheduled, o, target, frameFlicks, left, attempt, next, less);
        Q.SelectKeepsOrdered(queue.View(), target);
        var ok := ScheduleProgramFrame(target, accepts(nextSequence));
        if !ok {
          return;
        }
        scheduled, target := scheduled + 1, next;
        o, left := a.output, less;
      }
    }

    // Start playback once the queue holds a full preroll and one frame in reserve.
    method PumpPreroll(pulled: seq<Option<Q.Frame>>, accepts: nat -> bool, playbackStarts: bool)
      returns (started: bool)
      requires Valid(View()) && (phase == Prerolling && !stopRequested ==> scheduledFrames == [])
      modifies this`scheduledFrames, this`lastBuffer, this`nextStreamTime, this`nextSequence, this`phase,
               this`stopRequested, queue
      ensures Valid(View())
      ensures old(phase) != Prerolling || old(stopRequested) ==>
                !started && View() == old(View()) && phase == old(phase) && stopRequested == old(stopRequested)
      ensures old(phase) == Prerolling && !old(stopRequested) ==>
                View() == Prerolled(old(View()), pulled, accepts).output
                && (started <==> Prerolled(old(View()), pulled, accepts).full && playbackStarts)
                && (started ==> phase == Running && !stopRequested && |scheduledFrames| == scheduledTarget)
                && (!started ==> if EnoughQueued(CollectAll(old(View()), pulled))
                                 then phase == Stopping && stopRequested
                                 else phase == Prerolling && !stopRequested)
    {
      started := false;
      if phase != Prerolling || stopRequested {
        return;
      }
      PrerollFills(View(), pulled, accepts, CollectAll(View(), pulled), Prerolled(View(), pulled, accepts));
      CollectAllKeepsValid(View(), pulled);
      CollectCompletedReadbacks(pulled);
      if |queue.frames| < scheduledTarget + PROGRAM_QUEUE_RESERVE {
        return;
      }
      var first := queue.frames[0].target;
      FillFills(View(), first, scheduledTarget, accepts, Fill(View(), first, scheduledTarget, accepts));
      var scheduled := ScheduleFrames(first, scheduledTarget, accepts);
      if |scheduledFrames| == scheduledTarget {
        phase := Running;
        if playbackStarts {
          return true;
        }
        phase := Prerolling;
      }
      RequestFailure();
    }

    // The time the next frame's presentation maps to, or maps to after an observation for the oldest queued frame when
    // that time is too early for the queue.
    method ChooseTarget(presentation: Option<int>) returns (target: Option<int>)
      requires timeline.Valid()
      modifies timeline, timeline.observations
      ensures timeline.Valid()
      ensures timeline.history ==
              Corrected(old(View()), old(timeline.history), presentation, programFrameDuration)
      ensures target == RefillTarget(old(View()), old(timeline.history), presentation, programFrameDuration)
    {
      if presentation.None? {
        return None;
      }
      target := timeline.MapPresentationToProgramTarget(presentation.value);
      if target.None? {
        return;
      }
      if queue.frames != [] && target.value + programFrameDuration / 2 < queue.frames[0].target {
        ghost var before := timeline.history;
        assert Corrected(View(), before, presentation, programFrameDuration) ==
               before + [presentation.value - queue.frames[0].target];
        var _ := timeline.ObserveLatency(presentation.value, queue.frames[0].target);
        target := timeline.MapPresentationToProgramTarget(presentation.value);
      }
    }

    // Fill the list up to its target from a time, if there is one.
    method RefillSchedule(target: Option<int>, accepts: nat -> bool) returns (ok: bool)
      requires Valid(View())
      modifies this`scheduledFrames, this`lastBuffer, this`nextStreamTime, this`nextSequence, queue
      ensures Valid(View()) && Outcome(View(), ok) == Refill(old(View()), target, accepts)
      ensures ok ==> |scheduledFrames| == scheduledTarget
    {
      RefillFills(View(), target, accepts, Refill(View(), target, accepts));
      if target.None? {
        return false;
      }
      var refill := if scheduledTarget > |scheduledFrames| then scheduledTarget - |scheduledFrames| else 0;
      var scheduled := ScheduleFrames(target.value, refill, accepts);
      return scheduled == refill;
    }

    method ObserveCompletion(start: Option<int>, target: int)
      requires timeline.Valid()
      modifies timeline, timeline.observations
      ensures timeline.Valid() && timeline.history == Observed(old(timeline.history), start, target)
    {
      ghost var before := timeline.history;
      if start.Some? {
        assert Observed(before, start, target) == before + [start.value - target];
        var _ := timeline.ObserveLatency(start.value, target);
      }
    }

    // A frame the device finished is taken off its list, and the list filled up again to the target. It fails when the
    // frame is not on the list, when there is no time to schedule for, and when the refill is not full.
    method ScheduledFrameCompleted(position: Option<nat>, start: Option<int>, pulled: seq<Option<Q.Frame>>,
                                   presentation: Option<int>, accepts: nat -> bool)
      returns (ok: bool)
      requires Valid(View()) && timeline.Valid()
      requires phase == Running && position.Some? ==> position.value < |scheduledFrames|
      modifies this`scheduledFrames, this`lastBuffer, this`nextStreamTime, this`nextSequence, this`phase,
               this`stopRequested, queue, timeline, timeline.observations
      ensures Valid(View()) && timeline.Valid()
      ensures old(phase) != Running ==> ok && View() == old(View()) && timeline.history == old(timeline.history)
      ensures old(phase) == Running && position.None? ==>
                !ok && View() == old(View()) && timeline.history == old(timeline.history)
      ensures old(phase) == Running && position.Some? ==>
                var completed := old(scheduledFrames)[position.value];
                var c := CollectAll(Complete(old(View()), position.value), pulled);
                var history := Observed(old(timeline.history), start, completed.target);
                Outcome(View(), ok) ==
                Refill(c, RefillTarget(c, history, presentation, programFrameDuration), accepts)
                && timeline.history == Corrected(c, history, presentation, programFrameDuration)
                && (ok ==> |scheduledFrames| == scheduledTarget)
      ensures ok ==> phase == old(phase) && stopRequested == old(stopRequested)
      ensures !ok ==> stopRequested && phase == if old(stopRequested) then old(phase) else Stopping
    {
      if phase != Running {
        return true;
      }
      if position.None? {
        RequestFailure();
        return false;
      }
      CompleteKeepsValid(View(), position.value);
      var completed := scheduledFrames[position.value];
      ghost var c := CollectAll(Complete(View(), position.value), pulled);
      ghost var history := Observed(timeline.history, start, completed.target);
      scheduledFrames := scheduledFrames[..position.value] + scheduledFrames[position.value + 1..];
      assert View() == Complete(old(View()), position.value);
      ObserveCompletion(start, completed.target);
      CollectCompletedReadbacks(pulled);
      assert View() == c && timeline.history == history;
      var target := ChooseTarget(presentation);
      ok := RefillSchedule(target, accepts);
      assert Outcome(View(), ok) == Refill(c, target, accepts);
      if !ok {
        RequestFailure();
      }
    }
  }
}
