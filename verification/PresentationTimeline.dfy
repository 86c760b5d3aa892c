/** The latency between a frame's target in program time and its presentation: the mean of the last observations. */
module PresentationTimeline {
  import opened Common
  import opened MediaClock

  const LATENCY_OBSERVATION_COUNT: nat := 16

  ghost function Total(s: seq<int>): int {
    if s == [] then 0 else Total(s[..|s| - 1]) + s[|s| - 1]
  }

  ghost function Recent(history: seq<int>): seq<int> {
    if |history| <= LATENCY_OBSERVATION_COUNT then history else history[|history| - LATENCY_OBSERVATION_COUNT..]
  }

  ghost function Latency(history: seq<int>): Option<int> {
    if history == [] then None else Some(TruncatingDiv(Total(Recent(history)), |Recent(history)|))
  }

  // The program time shown at a presentation time.
  ghost function Target(history: seq<int>, presentation: int): Option<int> {
    match Latency(history)
    case None => None
    case Some(latency) => Some(presentation - latency)
  }

  lemma {:induction false} TotalFromFirst(s: seq<int>)
    requires s != []
    ensures Total(s) == s[0] + Total(s[1..])
  {
    if |s| > 1 {
      var init := s[..|s| - 1];
      TotalFromFirst(init);
      assert init[1..] == s[1..][..|s| - 2];
    }
  }

  lemma {:induction false} TotalBetween(s: seq<int>, low: int, high: int)
    requires forall x :: x in s ==> low <= x <= high
    ensures low * |s| <= Total(s) <= high * |s|
  {
    if s != [] {
      var init := s[..|s| - 1];
      assert forall x :: x in init ==> x in s;
      TotalBetween(init, low, high);
      assert s[|s| - 1] in s;
      assert low * |s| == low * |init| + low && high * |s| == high * |init| + high;
    }
  }

  // What one more observation does to the total of the recent ones.
  lemma TotalFollows(history: seq<int>, observation: int)
    ensures Total(Recent(history + [observation])) ==
            Total(Recent(history)) + observation - Dropped(history)
  {
    var more := history + [observation];
    if |history| < LATENCY_OBSERVATION_COUNT {
      assert more[..|more| - 1] == history;
    } else {
      var recent, next := Recent(history), Recent(more);
      TotalFromFirst(recent);
      assert next[..|next| - 1] == recent[1..];
    }
  }

  // The observation that the next one pushes out.
  ghost function Dropped(history: seq<int>): int {
    if |history| < LATENCY_OBSERVATION_COUNT then 0 else Recent(history)[0]
  }

  // The quotient lies next to the exact one, on the side of zero.
  lemma TruncatedIsNext(a: int, m: int)
    requires m > 0
    ensures a >= 0 ==> var q := TruncatingDiv(a, m); q >= 0 && q * m <= a < q * m + m
    ensures a < 0 ==> var q := TruncatingDiv(a, m); q <= 0 && q * m - m < a <= q * m
  {
    if a >= 0 {
      QuotientIsNext(a, m);
    } else {
      QuotientIsNext(-a, m);
      var q := (-a) / m;
      assert (-q) * m == -(q * m);
    }
  }

  lemma QuotientIsNext(a: int, m: int)
    requires m > 0 && a >= 0
    ensures a / m >= 0 && (a / m) * m <= a < (a / m) * m + m
  {
    assert a == m * (a / m) + a % m;
    assert a / m >= 0;
  }

  lemma KeepsOrder(x: int, y: int, n: int)
    requires x <= y && n > 0
    ensures x * n <= y * n
    ensures x < y ==> x * n < y * n
  {
    assert y * n - x * n == (y - x) * n;
  }

  lemma Commutes(q: int, m: int, n: int)
    ensures (q * m) * n == (q * n) * m
  {
  }

  lemma QuotientsInOrder(p: int, q: int, m: int, n: int)
    requires m > 0 && n > 0 && (p * m) * n < (q * m) * n
    ensures p < q
  {
    if p >= q {
      KeepsOrder(q, p, m);
      KeepsOrder(q * m, p * m, n);
    }
  }

  lemma FloorsInOrder(p: int, a: int, m: int, q: int, b: int, n: int)
    requires m > 0 && n > 0 && a * n <= b * m && p * m <= a && b < q * n + n
    ensures p <= q
  {
    var above := q + 1;
    assert above * n == q * n + n;
    KeepsOrder(p * m, a, n);
    KeepsOrder(b, above * n, m);
    Commutes(above, n, m);
    QuotientsInOrder(p, above, m, n);
  }

  lemma CeilingsInOrder(p: int, a: int, m: int, q: int, b: int, n: int)
    requires m > 0 && n > 0 && a * n <= b * m && p * m - m < a && b <= q * n
    ensures p <= q
  {
    var below := p - 1;
    assert below * m == p * m - m;
    KeepsOrder(below * m, a, n);
    KeepsOrder(b, q * n, m);
    Commutes(q, n, m);
    QuotientsInOrder(below, q, m, n);
  }

  lemma SignsInOrder(a: int, m: int, b: int, n: int)
    requires m > 0 && n > 0 && a * n <= b * m && a >= 0
    ensures b >= 0
  {
    KeepsOrder(0, a, n);
    if b < 0 { KeepsOrder(b, 0, m); }
  }

  // A smaller quotient is not truncated to more.
  lemma TruncationIsMonotone(a: int, m: int, b: int, n: int)
    requires m > 0 && n > 0 && a * n <= b * m
    ensures TruncatingDiv(a, m) <= TruncatingDiv(b, n)
  {
    TruncatedIsNext(a, m);
    TruncatedIsNext(b, n);
    if a >= 0 {
      SignsInOrder(a, m, b, n);
      FloorsInOrder(TruncatingDiv(a, m), a, m, TruncatingDiv(b, n), b, n);
    } else if b < 0 {
      CeilingsInOrder(TruncatingDiv(a, m), a, m, TruncatingDiv(b, n), b, n);
    }
  }

  // The latency lies within any bounds of the recent observations, whatever was observed before them.
  lemma LatencyBetween(history: seq<int>, low: int, high: int)
    requires history != [] && forall x :: x in Recent(history) ==> low <= x <= high
    ensures low <= Latency(history).value <= high
  {
    var n, total := |Recent(history)|, Total(Recent(history));
    TotalBetween(Recent(history), low, high);
    WholeQuotient(low, n);
    WholeQuotient(high, n);
    KeepsOrder(low * n, total, n);
    KeepsOrder(total, high * n, n);
    TruncationIsMonotone(low * n, n, total, n);
    TruncationIsMonotone(total, n, high * n, n);
  }

  lemma WholeQuotient(q: int, n: int)
    requires n > 0
    ensures TruncatingDiv(q * n, n) == q
  {
    var a := q * n;
    TruncatedIsNext(a, n);
    var p := TruncatingDiv(a, n);
    if a >= 0 {
      assert (p + 1) * n == p * n + n;
      if p < q { KeepsOrder(p + 1, q, n); }
      if q < p { KeepsOrder(q, p, n); }
    } else {
      assert (p - 1) * n == p * n - n;
      if q < p { KeepsOrder(q, p - 1, n); }
      if p < q { KeepsOrder(p, q, n); }
    }
  }

  // An observation made at the start has no weight after as many others.
  lemma StartupRollsOut(history: seq<int>, later: seq<int>, latency: int)
    requires |later| == LATENCY_OBSERVATION_COUNT && forall x :: x in later ==> x == latency
    ensures Latency(history + later) == Some(latency)
  {
    assert Recent(history + later) == later;
    LatencyBetween(history + later, latency, latency);
  }

  // While there are few observations, one for an older time of the program brings the target closer to it and never
  // past it.
  lemma CorrectionApproaches(history: seq<int>, presentation: int, oldest: int)
    requires 0 < |history| < LATENCY_OBSERVATION_COUNT && Target(history, presentation).value < oldest
    ensures var corrected := Target(history + [presentation - oldest], presentation).value;
            Target(history, presentation).value <= corrected <= oldest
  {
    var total, n, o := Total(history), |history|, presentation - oldest;
    TotalFollows(history, o);
    MeanApproaches(total, n, o, total + o, n + 1);
  }

  // A mean that one smaller number joins comes down, and not below the number.
  lemma MeanApproaches(total: int, n: int, o: int, more: int, k: int)
    requires n > 0 && k == n + 1 && more == total + o && o < TruncatingDiv(total, n)
    ensures o <= TruncatingDiv(more, k) <= TruncatingDiv(total, n)
  {
    SmallerThanAll(total, n, o, TruncatingDiv(total, n) - 1);
    MeanComesDown(total, n, o, more, k);
    MeanStaysAbove(total, n, o, more, k);
  }

  lemma SmallerThanAll(total: int, n: int, o: int, below: int)
    requires n > 0 && below == TruncatingDiv(total, n) - 1 && o <= below
    ensures o * n <= total
  {
    TruncatedIsNext(total, n);
    KeepsOrder(o, below, n);
    assert below * n == TruncatingDiv(total, n) * n - n;
  }

  lemma MeanComesDown(total: int, n: int, o: int, more: int, k: int)
    requires n > 0 && k == n + 1 && more == total + o && o * n <= total
    ensures TruncatingDiv(more, k) <= TruncatingDiv(total, n)
  {
    assert total * k == total * n + total && more * n == total * n + o * n;
    TruncationIsMonotone(more, k, total, n);
  }

  lemma MeanStaysAbove(total: int, n: int, o: int, more: int, k: int)
    requires n > 0 && k == n + 1 && more == total + o && o * n <= total
    ensures o <= TruncatingDiv(more, k)
  {
    assert o * k == o * n + o;
    WholeQuotient(o, k);
    KeepsOrder(o * k, more, k);
    TruncationIsMonotone(o * k, k, more, k);
  }

  // With as many as are kept, the target moves by what the observation that goes was more than the one that comes:
  // forward exactly for a smaller one than the one that goes, as far as the truncated mean shows it.
  lemma FullCorrectionFollowsDropped(history: seq<int>, presentation: int, oldest: int)
    requires |history| >= LATENCY_OBSERVATION_COUNT
    ensures var before, after := Target(history, presentation).value,
                                 Target(history + [presentation - oldest], presentation).value;
            var gone := history[|history| - LATENCY_OBSERVATION_COUNT];
            (presentation - oldest <= gone ==> before <= after) && (presentation - oldest >= gone ==> after <= before)
  {
    var o, total, n := presentation - oldest, Total(Recent(history)), LATENCY_OBSERVATION_COUNT;
    TotalFollows(history, o);
    var next := total + o - Dropped(history);
    if next <= total {
      KeepsOrder(next, total, n);
      TruncationIsMonotone(next, n, total, n);
    }
    if next >= total {
      KeepsOrder(total, next, n);
      TruncationIsMonotone(total, n, next, n);
    }
  }

  // So a correction can take the target further from a frame that it was too early for.
  lemma CorrectionCanGoBack()
    returns (history: seq<int>, presentation: int, oldest: int)
    ensures history != [] && Target(history, presentation).value < oldest
    ensures Target(history + [presentation - oldest], presentation).value < Target(history, presentation).value
  {
    history, presentation, oldest := [0] + seq(15, i => 160), 0, -80;
    var late := seq(15, i => 160);
    TotalBetween(late, 160, 160);
    TotalFromFirst(history);
    assert history[1..] == late;
    TotalFollows(history, 80);
  }

  ghost predicate IsRecent(history: seq<int>, i: nat) {
    i < |history| <= i + LATENCY_OBSERVATION_COUNT
  }

  ghost predicate Holds(ring: seq<int>, history: seq<int>, i: nat)
    requires |ring| == LATENCY_OBSERVATION_COUNT
  {
    i < |history| && ring[Place(i)] == history[i]
  }

  // The recent observations in a ring, each at its number modulo the number of places.
  ghost predicate InRing(ring: seq<int>, history: seq<int>) {
    |ring| == LATENCY_OBSERVATION_COUNT && forall i: nat :: IsRecent(history, i) ==> Holds(ring, history, i)
  }

  function Place(i: nat): (p: nat)
    ensures p < LATENCY_OBSERVATION_COUNT
  {
    i % LATENCY_OBSERVATION_COUNT
  }

  // Numbers less than a round apart have their own places, a round apart the same one.
  lemma PlacesDiffer(i: nat, j: nat)
    requires i < j <= i + LATENCY_OBSERVATION_COUNT
    ensures Place(i) == Place(j) <==> j == i + LATENCY_OBSERVATION_COUNT
  {
  }

  lemma NextPlace(i: nat)
    ensures Place(i + 1) == (Place(i) + 1) % LATENCY_OBSERVATION_COUNT
  {
  }

  // The next place holds the observation to drop, and takes the new one.
  lemma RingFollows(ring: seq<int>, history: seq<int>, observation: int)
    requires InRing(ring, history)
    ensures |history| >= LATENCY_OBSERVATION_COUNT ==> ring[Place(|history|)] == Dropped(history)
    ensures InRing(ring[Place(|history|) := observation], history + [observation])
  {
    var n, more := |history|, history + [observation];
    if n >= LATENCY_OBSERVATION_COUNT {
      PlacesDiffer(n - LATENCY_OBSERVATION_COUNT, n);
      assert IsRecent(history, n - LATENCY_OBSERVATION_COUNT);
      assert Holds(ring, history, n - LATENCY_OBSERVATION_COUNT);
    }
    var next := ring[Place(n) := observation];
    forall i: nat | IsRecent(more, i) ensures Holds(next, more, i) {
      if i < n {
        assert IsRecent(history, i) && Holds(ring, history, i);
        PlacesDiffer(i, n);
      }
    }
  }

  class PresentationTimeline {
    const observations: array<int>
    var count: nat
    var next: nat
    var sum: int
    var latency: Option<int>
    ghost var history: seq<int>

    ghost predicate Valid()
      reads this, observations
    {
      && observations.Length == LATENCY_OBSERVATION_COUNT && InRing(observations[..], history)
      && count == |Recent(history)| && next == Place(|history|)
      && sum == Total(Recent(history)) && latency == Latency(history)
    }

    constructor ()
      ensures Valid() && fresh(observations) && history == []
    {
      observations := new int[LATENCY_OBSERVATION_COUNT];
      count, next, sum, latency, history := 0, 0, 0, None, [];
    }

    // One more observation, in the place of the oldest one once all places are taken.
    method ObserveLatency(presentation: int, target: int) returns (mean: int)
      requires Valid()
      modifies this`count, this`next, this`sum, this`latency, this`history, observations
      ensures Valid() && history == old(history) + [presentation - target]
      ensures Latency(history) == Some(mean)
    {
      var observation := presentation - target;
      ghost var ring, more := observations[..], history + [observation];
      TotalFollows(history, observation);
      RingFollows(ring, history, observation);
      NextPlace(|history|);
      if count == LATENCY_OBSERVATION_COUNT {
        sum := sum - observations[next];
      } else {
        count := count + 1;
      }
      observations[next] := observation;
      assert observations[..] == ring[next := observation];
      next := (next + 1) % LATENCY_OBSERVATION_COUNT;
      sum := sum + observation;
      assert sum == Total(Recent(more)) && count == |Recent(more)|;
      mean := TruncatingDiv(sum, count);
      latency, history := Some(mean), more;
    }

    method MapPresentationToProgramTarget(presentation: int) returns (target: Option<int>)
      requires Valid()
      ensures target == Target(history, presentation)
    {
      if latency.None? {
        return None;
      }
      return Some(presentation - latency.value);
    }
  }
}
