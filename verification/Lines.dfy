/** Lines: clipping a segment to a surface, over reals, and the integer walk from one end to the other. */
module Lines {
  import opened Common
  import opened Options
  import opened Pixels
  import opened Raster

  /** Clipping. */

  // The part of a segment still considered, as shares of the way from its first end to its second.
  datatype Window = Window(first: real, last: real)

  predicate InWindow(w: Window, t: real) { w.first <= t <= w.last }

  // Keep the part where p times the share is at most q.
  function ClipBoundary(w: Window, p: real, q: real): Option<Window> {
    if p == 0.0 then (if q >= 0.0 then Some(w) else None)
    else
      var ratio := q / p;
      if p < 0.0 then
        if ratio > w.last then None else Some(w.(first := if ratio > w.first then ratio else w.first))
      else
        if ratio < w.first then None else Some(w.(last := if ratio < w.last then ratio else w.last))
  }

  function ClipNext(w: Option<Window>, p: real, q: real): Option<Window> {
    if w.None? then None else ClipBoundary(w.value, p, q)
  }

  function Visible(dimensions: Vec, from: Vec, to: Vec): Option<Window> {
    var x0, y0 := from.x as real, from.y as real;
    var dx, dy := to.x as real - x0, to.y as real - y0;
    var left := ClipBoundary(Window(0.0, 1.0), -dx, x0);
    var right := ClipNext(left, dx, (dimensions.x - 1) as real - x0);
    var top := ClipNext(right, -dy, y0);
    ClipNext(top, dy, (dimensions.y - 1) as real - y0)
  }

  // A coordinate at a share of the way from one value to another.
  function Along(from: int, to: int, t: real): real { Between(from as real, to as real, t) }

  function PointAt(from: Vec, to: Vec, t: real): Vec {
    Vec(RoundHalfAway(Along(from.x, to.x, t)), RoundHalfAway(Along(from.y, to.y, t)))
  }

  function ClipLine(dimensions: Vec, from: Vec, to: Vec): Option<(Vec, Vec)> {
    if dimensions.x <= 0 || dimensions.y <= 0 then None
    else
      var w := Visible(dimensions, from, to);
      if w.None? then None else Some((PointAt(from, to, w.value.first), PointAt(from, to, w.value.last)))
  }

  // The point of the segment at a share of its way is on the surface, its edges included.
  ghost predicate OnSurface(dimensions: Vec, from: Vec, to: Vec, t: real) {
    && 0.0 <= Along(from.x, to.x, t) <= (dimensions.x - 1) as real
    && 0.0 <= Along(from.y, to.y, t) <= (dimensions.y - 1) as real
  }

  lemma RatioSolves(p: real, q: real)
    requires p != 0.0
    ensures Times(p, q / p) == q
  {
  }

  lemma TimesOrder(p: real, s: real, t: real)
    ensures p > 0.0 ==> (s <= t <==> Times(p, s) <= Times(p, t))
    ensures p < 0.0 ==> (s <= t <==> Times(p, t) <= Times(p, s))
  {
    TimesDifference(p, s, t);
    if s < t { StrictProduct(Abs(p), t - s); TimesAbs(p, t - s); }
    if t < s { StrictProduct(Abs(p), s - t); TimesAbs(p, s - t); TimesDifference(p, t, s); }
  }

  function Abs(x: real): real { if x < 0.0 then -x else x }

  lemma TimesAbs(p: real, s: real)
    ensures Times(p, s) == if p < 0.0 then -Times(Abs(p), s) else Times(Abs(p), s)
  {
  }

  lemma StrictProduct(a: real, b: real)
    requires a >= 0.0 && b > 0.0
    ensures a > 0.0 ==> Times(a, b) > 0.0
    ensures a == 0.0 ==> Times(a, b) == 0.0
  {
  }

  lemma TimesDifference(p: real, s: real, t: real)
    ensures Times(p, t) - Times(p, s) == Times(p, t - s)
  {
  }

  // A boundary keeps exactly the shares that satisfy it.
  lemma ClipBoundaryIsExact(w: Window, p: real, q: real, t: real)
    requires w.first <= w.last
    ensures ClipBoundary(w, p, q).Some? ==> ClipBoundary(w, p, q).value.first <= ClipBoundary(w, p, q).value.last
    ensures (InWindow(w, t) && Times(p, t) <= q)
            <==> ClipBoundary(w, p, q).Some? && InWindow(ClipBoundary(w, p, q).value, t)
  {
    if p == 0.0 {
      assert Times(p, t) == 0.0;
    } else {
      RatioSolves(p, q);
      TimesOrder(p, q / p, t);
      TimesOrder(p, t, q / p);
    }
  }

  lemma ClipNextIsExact(w: Option<Window>, p: real, q: real, t: real)
    requires w.Some? ==> w.value.first <= w.value.last
    ensures ClipNext(w, p, q).Some? ==> ClipNext(w, p, q).value.first <= ClipNext(w, p, q).value.last
    ensures (w.Some? && InWindow(w.value, t) && Times(p, t) <= q)
            <==> ClipNext(w, p, q).Some? && InWindow(ClipNext(w, p, q).value, t)
  {
    if w.Some? {
      ClipBoundaryIsExact(w.value, p, q, t);
    }
  }

  lemma BoundsAsTimes(from: int, to: int, most: int, t: real)
    ensures var d := to as real - from as real;
            0.0 <= Along(from, to, t) <= most as real
            <==> Times(-d, t) <= from as real && Times(d, t) <= most as real - from as real
  {
    var d := to as real - from as real;
    TimesAbs(d, t);
    TimesAbs(-d, t);
    assert Times(-d, t) == -Times(d, t);
  }

  // The visible part of a segment is exactly its points on the surface.
  lemma VisibleIsExact(dimensions: Vec, from: Vec, to: Vec, t: real)
    ensures var w := Visible(dimensions, from, to);
            (w.Some? ==> w.value.first <= w.value.last)
            && (0.0 <= t <= 1.0 && OnSurface(dimensions, from, to, t) <==> w.Some? && InWindow(w.value, t))
  {
    var x0, y0 := from.x as real, from.y as real;
    var dx, dy := to.x as real - x0, to.y as real - y0;
    BoundsAsTimes(from.x, to.x, dimensions.x - 1, t);
    BoundsAsTimes(from.y, to.y, dimensions.y - 1, t);
    TwoBoundaries(Some(Window(0.0, 1.0)), -dx, x0, dx, (dimensions.x - 1) as real - x0, t);
    TwoBoundaries(ClipTwice(Some(Window(0.0, 1.0)), -dx, x0, dx, (dimensions.x - 1) as real - x0),
                  -dy, y0, dy, (dimensions.y - 1) as real - y0, t);
  }

  function ClipTwice(w: Option<Window>, p: real, q: real, r: real, s: real): Option<Window> {
    ClipNext(ClipNext(w, p, q), r, s)
  }

  lemma TwoBoundaries(w: Option<Window>, p: real, q: real, r: real, s: real, t: real)
    requires w.Some? ==> w.value.first <= w.value.last
    ensures ClipTwice(w, p, q, r, s).Some? ==>
              ClipTwice(w, p, q, r, s).value.first <= ClipTwice(w, p, q, r, s).value.last
    ensures (w.Some? && InWindow(w.value, t) && Times(p, t) <= q && Times(r, t) <= s)
            <==> ClipTwice(w, p, q, r, s).Some? && InWindow(ClipTwice(w, p, q, r, s).value, t)
  {
    ClipNextIsExact(w, p, q, t);
    ClipNextIsExact(ClipNext(w, p, q), r, s, t);
  }

  // Clipping succeeds exactly when some point of the segment is on the surface, and leaves both ends on the surface.
  lemma ClipLineLeavesSurface(dimensions: Vec, from: Vec, to: Vec)
    requires 0 < dimensions.x && 0 < dimensions.y
    ensures ClipLine(dimensions, from, to).Some? <==>
            exists t :: 0.0 <= t <= 1.0 && OnSurface(dimensions, from, to, t)
    ensures ClipLine(dimensions, from, to).Some? ==>
              InSurface(dimensions, ClipLine(dimensions, from, to).value.0)
              && InSurface(dimensions, ClipLine(dimensions, from, to).value.1)
  {
    var w := Visible(dimensions, from, to);
    if w.Some? {
      VisibleIsExact(dimensions, from, to, w.value.first);
      VisibleIsExact(dimensions, from, to, w.value.last);
      RoundedOnSurface(dimensions, from, to, w.value.first);
      RoundedOnSurface(dimensions, from, to, w.value.last);
      assert OnSurface(dimensions, from, to, w.value.first);
    } else {
      forall t | 0.0 <= t <= 1.0 ensures !OnSurface(dimensions, from, to, t) {
        VisibleIsExact(dimensions, from, to, t);
      }
    }
  }

  lemma RoundedOnSurface(dimensions: Vec, from: Vec, to: Vec, t: real)
    requires OnSurface(dimensions, from, to, t)
    ensures InSurface(dimensions, PointAt(from, to, t))
  {
    RoundingKeepsBounds(Along(from.x, to.x, t), 0);
    RoundingKeepsBounds(Along(from.x, to.x, t), dimensions.x - 1);
    RoundingKeepsBounds(Along(from.y, to.y, t), 0);
    RoundingKeepsBounds(Along(from.y, to.y, t), dimensions.y - 1);
  }

  // A segment with both ends on the surface is left as it is.
  lemma ClipLineKeepsVisible(dimensions: Vec, from: Vec, to: Vec)
    requires InSurface(dimensions, from) && InSurface(dimensions, to)
    ensures ClipLine(dimensions, from, to) == Some((from, to))
  {
    AlongEnds(from.x, to.x);
    AlongEnds(from.y, to.y);
    VisibleIsExact(dimensions, from, to, 0.0);
    VisibleIsExact(dimensions, from, to, 1.0);
    var w := Visible(dimensions, from, to).value;
    VisibleIsExact(dimensions, from, to, w.first);
    VisibleIsExact(dimensions, from, to, w.last);
    assert w.first == 0.0 && w.last == 1.0;
    RoundingFixesWhole(from.x);
    RoundingFixesWhole(from.y);
    RoundingFixesWhole(to.x);
    RoundingFixesWhole(to.y);
  }

  lemma AlongEnds(from: int, to: int)
    ensures Along(from, to, 0.0) == from as real && Along(from, to, 1.0) == to as real
  {
  }

  /** The walk. */

  // The integer nearest to a quotient, halves up.
  function Nearest(n: nat, d: nat): nat
    requires 0 < d
  {
    (2 * n + d) / (2 * d)
  }

  function Distance(a: int, b: int): nat { if a <= b then b - a else a - b }

  function Direction(from: int, to: int): int { if from < to then 1 else -1 }

  // A line of this many columns and rows takes one step along its longer side at a time.
  function Steps(columns: nat, rows: nat): nat { if columns >= rows then columns else rows }

  // Columns and rows gone after so many steps: along the longer side one each, along the other nearest to the
  // straight line.
  function Gone(columns: nat, rows: nat, k: nat): (nat, nat) {
    if columns >= rows then (k, if columns == 0 then 0 else Nearest(k * rows, columns))
    else (Nearest(k * columns, rows), k)
  }

  function LinePoint(from: Vec, to: Vec, k: nat): Vec {
    var (i, j) := Gone(Distance(from.x, to.x), Distance(from.y, to.y), k);
    Vec(from.x + Direction(from.x, to.x) * i, from.y + Direction(from.y, to.y) * j)
  }

  // The error term the walk keeps.
  function ErrorAt(columns: nat, rows: nat, gone: (nat, nat)): int {
    columns - rows - gone.0 * rows + gone.1 * columns
  }

  // The state of the walk after so many iterations.
  ghost predicate Walking(from: Vec, to: Vec, at: Vec, error: int, k: nat) {
    var columns, rows := Distance(from.x, to.x), Distance(from.y, to.y);
    at == LinePoint(from, to, k) && error == ErrorAt(columns, rows, Gone(columns, rows, k))
  }

  lemma NearestBounds(n: nat, d: nat)
    requires 0 < d
    ensures 2 * (Nearest(n, d) * d) <= 2 * n + d < 2 * (Nearest(n, d) * d) + 2 * d
  {
    var q, r := (2 * n + d) / (2 * d), (2 * n + d) % (2 * d);
    assert 2 * n + d == q * (2 * d) + r;
    assert q * (2 * d) == 2 * (q * d);
  }

  lemma NearestIs(n: nat, d: nat, j: nat)
    requires 0 < d && 2 * (j * d) <= 2 * n + d < 2 * (j * d) + 2 * d
    ensures Nearest(n, d) == j
  {
    assert j * (2 * d) == 2 * (j * d);
    QuotientOfMultiple(j, 2 * d, 2 * n + d - 2 * (j * d));
  }

  // Whether the walk steps to the side is whether the nearest point does; along the longer side it always steps.
  lemma NearestSteps(n: nat, short: nat, long: nat, j: nat)
    requires 0 < long && short <= long && j == Nearest(n, long)
    ensures var twice := 2 * (long - short - n + j * long);
            twice + short >= 0 && Nearest(n + short, long) == if twice <= long then j + 1 else j
  {
    NearestBounds(n, long);
    var twice := 2 * (long - short - n + j * long);
    assert (j + 1) * long == j * long + long;
    NearestIs(n + short, long, if twice <= long then j + 1 else j);
  }

  // One iteration of the walk, by its error term.
  lemma WalkStep(columns: nat, rows: nat, k: nat)
    requires k < Steps(columns, rows)
    ensures var (i, j) := Gone(columns, rows, k);
            var twice := 2 * ErrorAt(columns, rows, (i, j));
            Gone(columns, rows, k + 1) == (if twice + rows >= 0 then i + 1 else i, if twice <= columns then j + 1 else j)
  {
    assert (k + 1) * rows == k * rows + rows && (k + 1) * columns == k * columns + columns;
    if columns >= rows {
      NearestSteps(k * rows, rows, columns, Nearest(k * rows, columns));
    } else {
      NearestSteps(k * columns, columns, rows, Nearest(k * columns, rows));
    }
  }

  // What one iteration does to the place and the error term.
  lemma WalkAdvances(from: Vec, to: Vec, k: nat)
    requires k < Steps(Distance(from.x, to.x), Distance(from.y, to.y))
    ensures var columns, rows := Distance(from.x, to.x), Distance(from.y, to.y);
            var p, error := LinePoint(from, to, k), ErrorAt(columns, rows, Gone(columns, rows, k));
            var across, down := error * 2 >= -(rows as int), error * 2 <= columns;
            LinePoint(from, to, k + 1) == Vec(if across then p.x + Direction(from.x, to.x) else p.x,
                                              if down then p.y + Direction(from.y, to.y) else p.y)
            && ErrorAt(columns, rows, Gone(columns, rows, k + 1)) ==
               error - (if across then rows else 0) + (if down then columns else 0)
  {
    var columns, rows := Distance(from.x, to.x), Distance(from.y, to.y);
    WalkStep(columns, rows, k);
    StepTogether(columns, rows, Gone(columns, rows, k));
    var (i, j) := Gone(columns, rows, k);
    assert Direction(from.x, to.x) * (i + 1) == Direction(from.x, to.x) * i + Direction(from.x, to.x);
    assert Direction(from.y, to.y) * (j + 1) == Direction(from.y, to.y) * j + Direction(from.y, to.y);
  }

  // What one more column or row does to the error term.
  lemma StepTogether(columns: nat, rows: nat, gone: (nat, nat))
    ensures ErrorAt(columns, rows, (gone.0 + 1, gone.1)) == ErrorAt(columns, rows, gone) - rows
    ensures ErrorAt(columns, rows, (gone.0, gone.1 + 1)) == ErrorAt(columns, rows, gone) + columns
    ensures ErrorAt(columns, rows, (gone.0 + 1, gone.1 + 1)) == ErrorAt(columns, rows, gone) + columns - rows
  {
  }

  lemma WalkStarts(columns: nat, rows: nat)
    ensures Gone(columns, rows, 0) == (0, 0)
  {
    if columns > 0 { NearestIs(0, columns, 0); }
    if rows > 0 { NearestIs(0, rows, 0); }
  }

  // The walk ends at the other end after as many steps as the longer side, and not before.
  lemma WalkEnds(columns: nat, rows: nat, k: nat)
    requires k <= Steps(columns, rows)
    ensures Gone(columns, rows, k).0 <= columns && Gone(columns, rows, k).1 <= rows
    ensures Gone(columns, rows, k) == (columns, rows) <==> k == Steps(columns, rows)
  {
    if columns >= rows {
      if columns > 0 {
        SideWithin(k, columns, rows);
        NearestIs(columns * rows, columns, rows);
      }
    } else {
      SideWithin(k, rows, columns);
      NearestIs(rows * columns, rows, columns);
    }
  }

  lemma SideWithin(k: nat, long: nat, short: nat)
    requires k <= long && 0 < long
    ensures Nearest(k * short, long) <= short
    ensures short * long == long * short
  {
    NearestBounds(k * short, long);
    ProductOrder(k, long, short);
    var j := Nearest(k * short, long);
    Multiples(long, short, j);
    assert short * long == long * short;
  }

  // Every point of the walk lies in the box of the two ends; it starts at one, and is at the other exactly after
  // as many steps as the longer side of the box.
  lemma LineStaysInBox(from: Vec, to: Vec, k: nat)
    requires k <= Steps(Distance(from.x, to.x), Distance(from.y, to.y))
    ensures var p := LinePoint(from, to, k);
            Min(from.x, to.x) <= p.x <= Max(from.x, to.x) && Min(from.y, to.y) <= p.y <= Max(from.y, to.y)
    ensures LinePoint(from, to, 0) == from
    ensures LinePoint(from, to, k) == to <==> k == Steps(Distance(from.x, to.x), Distance(from.y, to.y))
  {
    WalkStarts(Distance(from.x, to.x), Distance(from.y, to.y));
    WalkEnds(Distance(from.x, to.x), Distance(from.y, to.y), k);
  }

  // The point along the shorter side is never more than half a pixel from the straight line.
  lemma LineIsNearest(from: Vec, to: Vec, k: nat)
    requires k <= Steps(Distance(from.x, to.x), Distance(from.y, to.y))
    ensures var columns, rows := Distance(from.x, to.x), Distance(from.y, to.y);
            var (i, j) := Gone(columns, rows, k);
            if columns >= rows then i == k && Near(2 * (j * columns), 2 * (k * rows), columns)
            else j == k && Near(2 * (i * rows), 2 * (k * columns), rows)
  {
    var columns, rows := Distance(from.x, to.x), Distance(from.y, to.y);
    if columns >= rows {
      if columns > 0 { NearestBounds(k * rows, columns); }
    } else {
      NearestBounds(k * columns, rows);
    }
  }
}
