/** Frame rates and their exact duration in flicks, 1/705600000 of a second. */
module FrameRate {
  import opened Common

  const FLICKS_PER_SECOND: nat := 705600000
  const UINT32_LIMIT: nat := 0x1_0000_0000
  const UINT64_LIMIT: nat := 0x1_0000_0000_0000_0000
  const INT64_MAX: nat := 0x7FFF_FFFF_FFFF_FFFF

  // Both components are stored in 32 unsigned bits.
  datatype Rate = Rate(numerator: nat, denominator: nat) {
    predicate Fits() { numerator < UINT32_LIMIT && denominator < UINT32_LIMIT }
  }

  function GetFrameDuration(rate: Rate): Option<nat>
    requires rate.Fits()
  {
    if rate.numerator == 0 || rate.denominator == 0 then None
    else
      var scaled := FLICKS_PER_SECOND * rate.denominator % UINT64_LIMIT;
      if scaled % rate.numerator != 0 then None
      else
        var duration := scaled / rate.numerator;
        if duration == 0 || duration > INT64_MAX then None else Some(duration)
  }

  // A rate has a duration exactly when it divides the second's flicks: the product never wraps and the range
  // tests never fire.
  lemma DurationIsExact(rate: Rate)
    requires rate.Fits()
    ensures GetFrameDuration(rate).Some? <==>
            rate.numerator > 0 && rate.denominator > 0
            && FLICKS_PER_SECOND * rate.denominator % rate.numerator == 0
    ensures GetFrameDuration(rate).Some? ==>
              GetFrameDuration(rate).value > 0
              && GetFrameDuration(rate).value * rate.numerator == FLICKS_PER_SECOND * rate.denominator
  {
    var n := rate.numerator;
    if n > 0 && rate.denominator > 0 {
      var scaled := FLICKS_PER_SECOND * rate.denominator;
      assert scaled < INT64_MAX;
      if scaled % n == 0 {
        ExactQuotient(scaled, n);
      }
    }
  }

  lemma ExactQuotient(a: nat, n: nat)
    requires 0 < n && 0 < a && a % n == 0
    ensures 0 < a / n <= a && a / n * n == a
  {
    var q := a / n;
    assert a == q * n;
    ProductSteps(n, 0, q);
    ProductSteps(n, q, 0);
    ProductAtLeast(q, n);
  }

  lemma ProductSteps(d: nat, p: nat, q: nat)
    ensures p < q ==> p * d + d <= q * d
  {
    if p < q {
      ProductAtLeast(d, q - p);
      assert q * d == p * d + d * (q - p);
    }
  }

  lemma ProductAtLeast(d: nat, k: nat)
    requires k > 0
    ensures d <= d * k
  {
    assert d * k == d + d * (k - 1);
  }

  function Gcd(a: nat, b: nat): (r: nat)
    ensures a > 0 || b > 0 ==> r > 0
    decreases b
  {
    if b == 0 then a else Gcd(b, a % b)
  }

  function Canonicalize(rate: Rate): (r: Rate)
    requires rate.Fits() && GetFrameDuration(rate).Some?
    ensures r.Fits()
  {
    var divisor := Gcd(rate.numerator, rate.denominator);
    QuotientFits(rate.numerator, divisor);
    QuotientFits(rate.denominator, divisor);
    Rate(rate.numerator / divisor, rate.denominator / divisor)
  }

  lemma QuotientFits(a: nat, d: nat)
    requires d > 0
    ensures 0 <= a / d <= a
  {
    ProductAtLeast(a / d, d);
  }

  lemma {:induction false} GcdDivides(a: nat, b: nat) returns (x: nat, y: nat)
    requires a > 0 || b > 0
    ensures a == Gcd(a, b) * x && b == Gcd(a, b) * y
    decreases b
  {
    if b == 0 {
      x, y := 1, 0;
    } else {
      var g := Gcd(b, a % b);
      var p, q := GcdDivides(b, a % b);
      x, y := p * (a / b) + q, p;
      MultipleOfDivisor(a, b, a / b, a % b, g, p, q);
    }
  }

  lemma MultipleOfDivisor(a: nat, b: nat, n: nat, r: nat, g: nat, p: nat, q: nat)
    requires a == b * n + r && b == g * p && r == g * q
    ensures a == g * (p * n + q)
  {
    assert g * p * n == g * (p * n);
    assert g * (p * n + q) == g * (p * n) + g * q;
  }

  lemma {:induction false} GcdScales(a: nat, b: nat, k: nat)
    requires k > 0
    ensures Gcd(k * a, k * b) == k * Gcd(a, b)
    decreases b
  {
    if b > 0 {
      ScaledRemainder(a, b, k);
      assert k * b > 0;
      GcdScales(b, a % b, k);
    }
  }

  lemma ScaledRemainder(a: nat, b: nat, k: nat)
    requires b > 0 && k > 0
    ensures k * b > 0
    ensures k * a % (k * b) == k * (a % b)
  {
    var q, r := a / b, a % b;
    assert k * r < k * b;
    calc {
      k * a;
      { assert a == q * b + r; }
      k * (q * b + r);
      q * (k * b) + k * r;
    }
    RemainderIs(k * a, k * b, q, k * r);
  }

  lemma RemainderIs(a: nat, d: nat, q: nat, r: nat)
    requires d > 0 && a == q * d + r && r < d
    ensures a % d == r
  {
    var p, s := a / d, a % d;
    assert a == p * d + s;
    ProductSteps(d, p, q);
    ProductSteps(d, q, p);
  }

  // Canonical form: the same duration, in lowest terms.
  lemma CanonicalKeepsDuration(rate: Rate)
    requires rate.Fits() && GetFrameDuration(rate).Some?
    ensures GetFrameDuration(Canonicalize(rate)) == GetFrameDuration(rate)
    ensures Gcd(Canonicalize(rate).numerator, Canonicalize(rate).denominator) == 1
  {
    var n, d := rate.numerator, rate.denominator;
    var g := Gcd(n, d);
    var x, y := GcdDivides(n, d);
    Quotient(n, g, x);
    Quotient(d, g, y);
    DurationIsExact(rate);
    LowestTerms(n, d, g, x, y);
    ReducedDuration(GetFrameDuration(rate).value, g, x, y);
    SameDuration(Rate(x, y), GetFrameDuration(rate).value);
  }

  lemma LowestTerms(n: nat, d: nat, g: nat, x: nat, y: nat)
    requires n > 0 && g == Gcd(n, d) && n == g * x && d == g * y
    ensures Gcd(x, y) == 1
  {
    GcdScales(x, y, g);
    CancelUnit(g, Gcd(x, y));
  }

  lemma ReducedDuration(t: nat, g: nat, x: nat, y: nat)
    requires g > 0 && g * x > 0 && g * y > 0
    requires t * (g * x) == FLICKS_PER_SECOND * (g * y)
    ensures t * x == FLICKS_PER_SECOND * y && x > 0 && y > 0
  {
    var f := FLICKS_PER_SECOND;
    assert g * (t * x) == t * (g * x);
    assert g * (f * y) == f * (g * y);
    Cancel(g, t * x, f * y);
    assert g * 0 == 0;
  }

  // A rate whose numerator, times t, is the flicks of its denominator lasts t.
  lemma SameDuration(rate: Rate, t: nat)
    requires rate.Fits() && rate.numerator > 0 && rate.denominator > 0
    requires t * rate.numerator == FLICKS_PER_SECOND * rate.denominator
    ensures GetFrameDuration(rate) == Some(t)
  {
    DurationIsExact(rate);
    RemainderIs(FLICKS_PER_SECOND * rate.denominator, rate.numerator, t, 0);
    var u := GetFrameDuration(rate).value;
    assert rate.numerator * u == rate.numerator * t;
    Cancel(rate.numerator, u, t);
  }

  lemma Quotient(a: nat, g: nat, x: nat)
    requires g > 0 && a == g * x
    ensures a / g == x
  {
    RemainderIs(a, g, x, 0);
    Cancel(g, a / g, x);
  }

  lemma Cancel(g: nat, a: nat, b: nat)
    requires g > 0 && g * a == g * b
    ensures a == b
  {
    ProductSteps(g, a, b);
    ProductSteps(g, b, a);
    assert a * g == g * a && b * g == g * b;
  }

  lemma CancelUnit(g: nat, u: nat)
    requires g > 0 && g == g * u
    ensures u == 1
  {
    Cancel(g, u, 1);
  }

  // Two rates have the same canonical form exactly when their frames last equally long, so comparing canonical
  // rates is comparing durations.
  lemma CanonicalIsUnique(a: Rate, b: Rate)
    requires a.Fits() && GetFrameDuration(a).Some?
    requires b.Fits() && GetFrameDuration(b).Some?
    ensures Canonicalize(a) == Canonicalize(b) <==> GetFrameDuration(a) == GetFrameDuration(b)
  {
    CanonicalKeepsDuration(a);
    CanonicalKeepsDuration(b);
    if GetFrameDuration(a) == GetFrameDuration(b) {
      var p, q := Canonicalize(a), Canonicalize(b);
      DurationIsExact(p);
      DurationIsExact(q);
      var t := GetFrameDuration(p).value;
      CrossProduct(t, p, q);
      LowestTermsAgree(p.numerator, p.denominator, q.numerator, q.denominator);
    }
  }

  lemma CrossProduct(t: nat, p: Rate, q: Rate)
    requires t > 0
    requires t * p.numerator == FLICKS_PER_SECOND * p.denominator
    requires t * q.numerator == FLICKS_PER_SECOND * q.denominator
    ensures p.numerator * q.denominator == q.numerator * p.denominator
  {
    var n, d, m, e := p.numerator, p.denominator, q.numerator, q.denominator;
    var f := FLICKS_PER_SECOND;
    calc {
      f * (n * e);
      n * (f * e);
      n * (t * m);
      m * (t * n);
      m * (f * d);
      f * (m * d);
    }
    Cancel(f, n * e, m * d);
  }

  lemma LowestTermsAgree(n: nat, d: nat, m: nat, e: nat)
    requires n > 0 && d > 0 && m > 0 && e > 0
    requires Gcd(n, d) == 1 && Gcd(m, e) == 1 && n * e == m * d
    ensures n == m && d == e
  {
    GcdScales(n, d, m);
    GcdScales(m, e, n);
    assert m * n == n * m;
    Cancel(n, d, e);
  }

  lemma CanonicalIsIdempotent(rate: Rate)
    requires rate.Fits() && GetFrameDuration(rate).Some?
    ensures GetFrameDuration(Canonicalize(rate)).Some?
    ensures Canonicalize(Canonicalize(rate)) == Canonicalize(rate)
  {
    CanonicalKeepsDuration(rate);
    CanonicalIsUnique(rate, Canonicalize(rate));
  }
}
