/** What each kind of option accepts and stores. */
module OptionRules {
  import opened Common
  import opened FrameRate
  import opened Options

  // A number within its bounds stays; one outside goes to the bound it passed.
  ghost predicate MovedInto(x: real, least: Option<real>, most: Option<real>, y: real) {
    && (least.Some? ==> least.value <= y) && (most.Some? ==> y <= most.value)
    && (y == x || (x < y && least == Some(y)) || (y < x && most == Some(y)))
  }

  ghost predicate InOrder(least: Option<real>, most: Option<real>) {
    least.Some? && most.Some? ==> least.value <= most.value
  }

  lemma NumberRule(v: Json, least: Option<real>, most: Option<real>)
    ensures NormalizeNumber(v, least, most).Accepted? <==> (v.Int? || v.Float?) && InOrder(least, most)
    ensures NormalizeNumber(v, least, most).Accepted? ==>
              var r, x := NormalizeNumber(v, least, most), if v.Int? then v.number as real else v.value;
              r.json.Float? && MovedInto(x, least, most, r.json.value) && (r.corrected <==> r.json.value != x)
  {
  }

  // An integer has a whole number's range of 32 bits where no bound is given.
  lemma IntegerRule(v: Json, low: Option<int>, high: Option<int>, lower: int, upper: int)
    requires lower == (if low.Some? then low.value else -2147483648)
    requires upper == (if high.Some? then high.value else 2147483647)
    ensures NormalizeInteger(v, low, high).Accepted? <==> (v.Int? || v.Float?) && lower <= upper
    ensures NormalizeInteger(v, low, high) == NormalizeInteger(v, Some(lower), Some(upper))
  {
  }

  // A pair is two numbers, each moved into its own bounds in its own place.
  lemma PairRule(v: Json, from: Option<Point>, to: Option<Point>)
    requires NormalizePair(v, from, to).Accepted?
    ensures var r := NormalizePair(v, from, to);
            v.Array? && |v.items| == 2 && IsNumber(v.items[0]) && IsNumber(v.items[1])
            && r.json.Array? && |r.json.items| == 2 && r.json.items[0].Float? && r.json.items[1].Float?
            && var x, y := r.json.items[0].value, r.json.items[1].value;
               MovedInto(AsReal(v.items[0]), if from.Some? then Some(from.value.0) else None,
                         if to.Some? then Some(to.value.0) else None, x)
               && MovedInto(AsReal(v.items[1]), if from.Some? then Some(from.value.1) else None,
                            if to.Some? then Some(to.value.1) else None, y)
               && (r.corrected <==> x != AsReal(v.items[0]) || y != AsReal(v.items[1]))
  {
    NumberRule(v.items[0], First(from), First(to));
    NumberRule(v.items[1], Second(from), Second(to));
    assert Couple(NormalizeNumber(v.items[0], First(from), First(to)).json,
                  NormalizeNumber(v.items[1], Second(from), Second(to)).json) == NormalizePair(v, from, to).json;
  }

  lemma PairAcceptedExactly(v: Json, from: Option<Point>, to: Option<Point>)
    ensures NormalizePair(v, from, to).Accepted?
            <==> v.Array? && |v.items| == 2 && IsNumber(v.items[0]) && IsNumber(v.items[1])
                 && (from.Some? && to.Some? ==> from.value.0 <= to.value.0 && from.value.1 <= to.value.1)
  {
    if v.Array? && |v.items| == 2 {
      NumberRule(v.items[0], First(from), First(to));
      NumberRule(v.items[1], Second(from), Second(to));
    }
  }

  lemma RoundsToNearest(x: real)
    ensures -0.5 <= RoundHalfAway(x) as real - x <= 0.5
  {
  }

  // The whole number nearest to a number within whole bounds, and the bound for one outside.
  ghost predicate NearestIn(x: real, low: Option<int>, high: Option<int>, n: int) {
    if low.Some? && x < low.value as real then n == low.value
    else if high.Some? && x > high.value as real then n == high.value
    else -0.5 <= n as real - x <= 0.5
  }

  ghost predicate IsWholePair(x: Json, y: Json, low: Option<int>, high: Option<int>, r: Outcome, m: int, n: int)
    requires IsNumber(x) && IsNumber(y) && r.Accepted?
  {
    && r.json == Array([Float(m as real), Float(n as real)])
    && NearestIn(AsReal(x), low, high, m) && NearestIn(AsReal(y), low, high, n)
    && (r.corrected <==> m as real != AsReal(x) || n as real != AsReal(y))
  }

  // A pair of whole numbers: the whole numbers next to what a pair in the same bounds would be.
  lemma WholePairRule(v: Json, low: Option<int>, high: Option<int>)
    requires NormalizeWholePair(v, low, high).Accepted?
    ensures v.Array? && |v.items| == 2 && IsNumber(v.items[0]) && IsNumber(v.items[1])
    ensures exists m, n :: IsWholePair(v.items[0], v.items[1], low, high, NormalizeWholePair(v, low, high), m, n)
  {
    PairRule(v, WholePoint(low), WholePoint(high));
    PairAcceptedExactly(v, WholePoint(low), WholePoint(high));
    var pair := NormalizePair(v, WholePoint(low), WholePoint(high));
    var x, y := pair.json.items[0].value, pair.json.items[1].value;
    var m, n := RoundHalfAway(x), RoundHalfAway(y);
    RoundIsNearestIn(AsReal(v.items[0]), low, high, x);
    RoundIsNearestIn(AsReal(v.items[1]), low, high, y);
    assert IsWholePair(v.items[0], v.items[1], low, high, NormalizeWholePair(v, low, high), m, n);
  }

  lemma RoundIsNearestIn(x: real, low: Option<int>, high: Option<int>, y: real)
    requires low.Some? && high.Some? ==> low.value <= high.value
    requires MovedInto(x, if low.Some? then Some(low.value as real) else None,
                       if high.Some? then Some(high.value as real) else None, y)
    ensures NearestIn(x, low, high, RoundHalfAway(y))
    ensures RoundHalfAway(y) as real == x <==> y == x && RoundHalfAway(y) as real == y
  {
    RoundsToNearest(y);
    if low.Some? {
      RoundingKeepsBounds(y, low.value);
      RoundingFixesWhole(low.value);
    }
    if high.Some? {
      RoundingKeepsBounds(y, high.value);
      RoundingFixesWhole(high.value);
    }
  }

  // An area is a position and a size, each a pair in its own place.
  lemma AreaRule(v: Json)
    ensures NormalizeArea(v).Accepted?
            <==> v.Object? && v.fields.Keys == {POS, SIZE}
                 && NormalizePair(v.fields[POS], None, None).Accepted?
                 && NormalizePair(v.fields[SIZE], None, None).Accepted?
    ensures NormalizeArea(v).Accepted? ==>
              NormalizeArea(v).json == Object(map[POS := NormalizePair(v.fields[POS], None, None).json,
                                                  SIZE := NormalizePair(v.fields[SIZE], None, None).json])
              && !NormalizeArea(v).corrected
  {
    if v.Object? && v.fields.Keys == {POS, SIZE} {
      UnboundedPairIsKept(v.fields[POS]);
      UnboundedPairIsKept(v.fields[SIZE]);
    }
  }

  lemma UnboundedPairIsKept(v: Json)
    ensures NormalizePair(v, None, None).Accepted? ==>
              !NormalizePair(v, None, None).corrected && |v.items| == 2
              && NormalizePair(v, None, None).json == Array([Float(AsReal(v.items[0])), Float(AsReal(v.items[1]))])
  {
    if NormalizePair(v, None, None).Accepted? {
      PairRule(v, None, None);
    }
  }

  // A framebuffer size is a width and a height, each an integer in its own place.
  lemma FramebufferSizeRule(v: Json, minimum: int, maximum: int)
    requires minimum <= maximum
    ensures NormalizeFramebufferSize(v, minimum, maximum).Accepted?
            <==> v.Array? && |v.items| == 2 && IsNumber(v.items[0]) && IsNumber(v.items[1])
    ensures NormalizeFramebufferSize(v, minimum, maximum).Accepted? ==>
              var r := NormalizeFramebufferSize(v, minimum, maximum);
              r.json.Array? && |r.json.items| == 2 && r.json.items[0].Int? && r.json.items[1].Int?
              && var w, h := r.json.items[0].number, r.json.items[1].number;
                 TruncatedInto(AsReal(v.items[0]), minimum, maximum, w)
                 && TruncatedInto(AsReal(v.items[1]), minimum, maximum, h)
                 && (r.corrected <==> w as real != AsReal(v.items[0]) || h as real != AsReal(v.items[1]))
  {
    if v.Array? && |v.items| == 2 && IsNumber(v.items[0]) && IsNumber(v.items[1]) {
      IntegerIsTruncated(v.items[0], minimum, maximum);
      IntegerIsTruncated(v.items[1], minimum, maximum);
      assert Couple(NormalizeInteger(v.items[0], Some(minimum), Some(maximum)).json,
                    NormalizeInteger(v.items[1], Some(minimum), Some(maximum)).json)
          == NormalizeFramebufferSize(v, minimum, maximum).json;
    }
  }

  // The number without its fraction, or the bound it passed.
  ghost predicate TruncatedInto(x: real, low: int, high: int, n: int) {
    && low <= n <= high
    && (low as real <= x <= high as real ==>
          if x >= 0.0 then n as real <= x < n as real + 1.0 else n as real - 1.0 < x <= n as real)
    && (x < low as real ==> n == low) && (x > high as real ==> n == high)
  }

  // Flags, texts and choices are stored as they are.
  lemma PlainRules(v: Json, names: set<string>)
    ensures Normalize(Toggle, v) == if v.Bool? then Accepted(v, false) else Invalid
    ensures Normalize(Words, v) == if v.Text? then Accepted(v, false) else Invalid
    ensures Normalize(Choice(names), v) == if v.Text? && v.text in names then Accepted(v, false) else Invalid
  {
  }

  // A rate is an object of two positive 32-bit numbers and nothing else, whose frames last a whole number of flicks.
  lemma RateIsRead(v: Json, rate: Rate)
    ensures ReadRate(v) == Some(rate)
            <==> v == Object(map[NUMERATOR := Int(rate.numerator), DENOMINATOR := Int(rate.denominator)])
                 && 0 < rate.numerator < 0x1_0000_0000 && 0 < rate.denominator < 0x1_0000_0000
                 && (FLICKS_PER_SECOND * rate.denominator) % rate.numerator == 0
  {
    if 0 < rate.numerator < 0x1_0000_0000 && 0 < rate.denominator < 0x1_0000_0000 {
      DurationIsExact(rate);
    }
    if ReadRate(v) == Some(rate) {
      assert v.fields == map[NUMERATOR := Int(rate.numerator), DENOMINATOR := Int(rate.denominator)];
    }
  }

  // The names every node has come first: a name is any text and a position any two numbers, whatever the node type
  // says of them. Where these refuse a value, the node type's rule decides, and without one nothing is accepted.
  lemma CommonNamesComeFirst(schema: Schema, key: Name, v: Json)
    ensures key == NAME && v.Text? ==> NormalizeOption(schema, key, v) == Accepted(v, false)
    ensures key == NODE_VISUAL_POSITION && v.Array? && |v.items| == 2
            && IsNumber(v.items[0]) && IsNumber(v.items[1]) ==>
              NormalizeOption(schema, key, v) ==
              Accepted(Array([Float(AsReal(v.items[0])), Float(AsReal(v.items[1]))]), false)
    ensures (key == NAME ==> !v.Text?)
            && (key == NODE_VISUAL_POSITION ==>
                  !v.Array? || |v.items| != 2 || !IsNumber(v.items[0]) || !IsNumber(v.items[1])) ==>
              NormalizeOption(schema, key, v) == if key in schema then Normalize(schema[key], v) else Invalid
  {
    PairAcceptedExactly(v, None, None);
    UnboundedPairIsKept(v);
  }
}
