/** Node options as JSON values, their normalisation, and the transactional update of a node's options. */
module Options {
  import opened Common
  import opened FrameRate

  datatype Json =
    | Null
    | Bool(flag: bool)
    | Int(number: int)
    | Float(value: real)
    | Text(text: string)
    | Array(items: seq<Json>)
    | Object(fields: map<Name, Json>)

  const INT_MIN: int := -0x8000_0000
  const INT_MAX: int := 0x7FFF_FFFF

  // Option names, and the names inside option values, that the code mentions.
  const NAME: Name := 0
  const NODE_VISUAL_POSITION: Name := 1
  const NUMERATOR: Name := 2
  const DENOMINATOR: Name := 3
  const POS: Name := 4
  const SIZE: Name := 5

  type Point = (real, real)

  // What a node type accepts for one of its options.
  datatype Kind =
    | Number(least: Option<real>, most: Option<real>)
    | Integer(low: Option<int>, high: Option<int>)
    | Toggle
    | Words
    | Choice(names: set<string>)
    | Pair(from: Option<Point>, to: Option<Point>)
    | WholePair(lowest: Option<int>, highest: Option<int>)
    | Area
    | FramebufferSize(minimum: int, maximum: int)
    | FrameRateOption

  datatype Outcome = Invalid | Accepted(json: Json, corrected: bool)

  type Schema = map<Name, Kind>
  type Settings = map<Name, Json>

  predicate IsNumber(v: Json) { v.Int? || v.Float? }

  function AsReal(v: Json): real
    requires IsNumber(v)
  {
    if v.Int? then v.number as real else v.value
  }

  function Clamp(x: real, low: real, high: real): real {
    if x < low then low else if x > high then high else x
  }

  // Conversion from floating point to an integer type drops the fraction.
  function Truncate(x: real): int {
    if x >= 0.0 then x.Floor else -((-x).Floor)
  }

  // std::round: to the nearest integer, halves away from zero.
  function RoundHalfAway(x: real): int {
    if x >= 0.0 then (x + 0.5).Floor else -((-x + 0.5).Floor)
  }

  function NormalizeNumber(v: Json, least: Option<real>, most: Option<real>): Outcome {
    if !IsNumber(v) || (least.Some? && most.Some? && least.value > most.value) then Invalid
    else
      var input := AsReal(v);
      var atLeast := if least.Some? && input < least.value then least.value else input;
      var normalized := if most.Some? && atLeast > most.value then most.value else atLeast;
      Accepted(Float(normalized), input != normalized)
  }

  function NormalizeInteger(v: Json, low: Option<int>, high: Option<int>): Outcome {
    var lower := if low.Some? then low.value else INT_MIN;
    var upper := if high.Some? then high.value else INT_MAX;
    if !IsNumber(v) || lower > upper then Invalid
    else
      var input := AsReal(v);
      var normalized := Truncate(Clamp(input, lower as real, upper as real));
      Accepted(Int(normalized), input != normalized as real)
  }

  function Combine(x: Outcome, y: Outcome, pack: (Json, Json) -> Json): Outcome {
    if x.Invalid? || y.Invalid? then Invalid else Accepted(pack(x.json, y.json), x.corrected || y.corrected)
  }

  function Couple(x: Json, y: Json): Json { Array([x, y]) }

  function Box(pos: Json, size: Json): Json { Object(map[POS := pos, SIZE := size]) }

  function First(p: Option<Point>): Option<real> { if p.Some? then Some(p.value.0) else None }

  function Second(p: Option<Point>): Option<real> { if p.Some? then Some(p.value.1) else None }

  function NormalizePair(v: Json, from: Option<Point>, to: Option<Point>): Outcome {
    if !(v.Array? && |v.items| == 2) then Invalid
    else Combine(NormalizeNumber(v.items[0], First(from), First(to)),
                 NormalizeNumber(v.items[1], Second(from), Second(to)), Couple)
  }

  function WholePoint(bound: Option<int>): Option<Point> {
    if bound.Some? then Some((bound.value as real, bound.value as real)) else None
  }

  // Test-pattern resolutions and screen positions: a pair that is then rounded to whole pixels.
  function NormalizeWholePair(v: Json, lowest: Option<int>, highest: Option<int>): (r: Outcome) {
    var pair := NormalizePair(v, WholePoint(lowest), WholePoint(highest));
    if pair.Invalid? then Invalid
    else
      var x, y := pair.json.items[0].value, pair.json.items[1].value;
      var roundedX, roundedY := RoundHalfAway(x) as real, RoundHalfAway(y) as real;
      Accepted(Couple(Float(roundedX), Float(roundedY)), pair.corrected || x != roundedX || y != roundedY)
  }

  function NormalizeArea(v: Json): Outcome {
    if !(v.Object? && v.fields.Keys == {POS, SIZE}) then Invalid
    else Combine(NormalizePair(v.fields[POS], None, None), NormalizePair(v.fields[SIZE], None, None), Box)
  }

  function NormalizeFramebufferSize(v: Json, minimum: int, maximum: int): Outcome {
    if !(v.Array? && |v.items| == 2) then Invalid
    else Combine(NormalizeInteger(v.items[0], Some(minimum), Some(maximum)),
                 NormalizeInteger(v.items[1], Some(minimum), Some(maximum)), Couple)
  }

  function ReadPositiveUint32(v: Json): Option<nat> {
    if v.Int? && 0 < v.number < UINT32_LIMIT then Some(v.number) else None
  }

  function RateJson(rate: Rate): Json {
    Object(map[NUMERATOR := Int(rate.numerator), DENOMINATOR := Int(rate.denominator)])
  }

  function ReadRate(v: Json): (r: Option<Rate>)
    ensures r.Some? ==> r.value.Fits() && GetFrameDuration(r.value).Some?
  {
    if !(v.Object? && v.fields.Keys == {NUMERATOR, DENOMINATOR}) then None
    else
      var numerator := ReadPositiveUint32(v.fields[NUMERATOR]);
      var denominator := ReadPositiveUint32(v.fields[DENOMINATOR]);
      if numerator.None? || denominator.None? then None
      else
        var rate := Rate(numerator.value, denominator.value);
        if GetFrameDuration(rate).None? then None else Some(rate)
  }

  function NormalizeFrameRate(v: Json): Outcome {
    var rate := ReadRate(v);
    if rate.None? then Invalid
    else
      var normalized := Canonicalize(rate.value);
      Accepted(RateJson(normalized), normalized != rate.value)
  }

  function Normalize(kind: Kind, v: Json): Outcome {
    match kind
    case Number(least, most) => NormalizeNumber(v, least, most)
    case Integer(low, high) => NormalizeInteger(v, low, high)
    case Toggle => if v.Bool? then Accepted(v, false) else Invalid
    case Words => if v.Text? then Accepted(v, false) else Invalid
    case Choice(names) => if v.Text? && v.text in names then Accepted(v, false) else Invalid
    case Pair(from, to) => NormalizePair(v, from, to)
    case WholePair(lowest, highest) => NormalizeWholePair(v, lowest, highest)
    case Area => NormalizeArea(v)
    case FramebufferSize(minimum, maximum) => NormalizeFramebufferSize(v, minimum, maximum)
    case FrameRateOption => NormalizeFrameRate(v)
  }

  function NormalizeCommonOption(key: Name, v: Json): Outcome {
    if key == NODE_VISUAL_POSITION then Normalize(Pair(None, None), v)
    else if key == NAME then Normalize(Words, v)
    else Invalid
  }

  // A name every node understands is tried first, then the node type's own options.
  function NormalizeOption(schema: Schema, key: Name, v: Json): Outcome {
    var common := NormalizeCommonOption(key, v);
    if common.Accepted? then common
    else if key in schema then Normalize(schema[key], v)
    else Invalid
  }

  /** Normalisation is idempotent. */

  // A value is canonical when normalising it accepts it without changing it.
  predicate Canonical(r: Outcome, v: Json) { r == Accepted(v, false) }

  lemma NumberIdempotent(v: Json, least: Option<real>, most: Option<real>)
    requires NormalizeNumber(v, least, most).Accepted?
    ensures Canonical(NormalizeNumber(NormalizeNumber(v, least, most).json, least, most),
                      NormalizeNumber(v, least, most).json)
  {
  }

  lemma TruncationKeepsBounds(x: real, low: int, high: int)
    requires low as real <= x <= high as real
    ensures low <= Truncate(x) <= high
  {
    if x >= 0.0 {
      assert x.Floor as real <= x;
    } else {
      assert (-x).Floor as real <= -x;
    }
  }

  lemma TruncationFixesWhole(n: int)
    ensures Truncate(n as real) == n
  {
    if n < 0 {
      assert -(n as real) == (-n) as real;
    }
  }

  // A number is kept when it is within the bounds, and otherwise moved to the bound it passes; it counts as corrected
  // exactly when it moved.
  lemma NumberIsClamped(v: Json, least: Option<real>, most: Option<real>)
    requires NormalizeNumber(v, least, most).Accepted?
    ensures var r := NormalizeNumber(v, least, most);
            r.json.Float? && (least.Some? ==> least.value <= r.json.value) && (most.Some? ==> r.json.value <= most.value)
            && (r.corrected <==> (least.Some? && AsReal(v) < least.value) || (most.Some? && most.value < AsReal(v)))
            && (!r.corrected ==> r.json.value == AsReal(v))
            && (r.corrected ==> Some(r.json.value) == least || Some(r.json.value) == most)
  {
  }

  // An integer option within the bounds loses its fraction only; it is in the bounds in any case.
  lemma IntegerIsTruncated(v: Json, low: int, high: int)
    requires NormalizeInteger(v, Some(low), Some(high)).Accepted?
    ensures var r, x := NormalizeInteger(v, Some(low), Some(high)), AsReal(v);
            r.json.Int? && low <= r.json.number <= high
            && (low as real <= x <= high as real ==>
                  if x >= 0.0 then r.json.number as real <= x < r.json.number as real + 1.0
                  else r.json.number as real - 1.0 < x <= r.json.number as real)
            && (x < low as real ==> r.json.number == low) && (high as real < x ==> r.json.number == high)
            && (r.corrected <==> x != r.json.number as real)
  {
    TruncationKeepsBounds(Clamp(AsReal(v), low as real, high as real), low, high);
    TruncationFixesWhole(low);
    TruncationFixesWhole(high);
  }

  // A frame rate option keeps the duration of a frame.
  lemma FrameRateOptionKeepsDuration(v: Json)
    requires NormalizeFrameRate(v).Accepted?
    ensures ReadRate(v).Some? && ReadRate(NormalizeFrameRate(v).json).Some?
    ensures GetFrameDuration(ReadRate(NormalizeFrameRate(v).json).value) == GetFrameDuration(ReadRate(v).value)
  {
    var rate := ReadRate(v).value;
    CanonicalKeepsDuration(rate);
    DurationIsExact(Canonicalize(rate));
    assert ReadRate(RateJson(Canonicalize(rate))) == Some(Canonicalize(rate));
  }

  lemma IntegerIdempotent(v: Json, low: Option<int>, high: Option<int>)
    requires NormalizeInteger(v, low, high).Accepted?
    ensures Canonical(NormalizeInteger(NormalizeInteger(v, low, high).json, low, high),
                      NormalizeInteger(v, low, high).json)
  {
    var lower := if low.Some? then low.value else INT_MIN;
    var upper := if high.Some? then high.value else INT_MAX;
    var clamped := Clamp(AsReal(v), lower as real, upper as real);
    TruncationKeepsBounds(clamped, lower, upper);
    TruncationFixesWhole(Truncate(clamped));
    WholeIsCanonical(Truncate(clamped), low, high, lower, upper);
  }

  lemma WholeIsCanonical(n: int, low: Option<int>, high: Option<int>, lower: int, upper: int)
    requires lower == if low.Some? then low.value else INT_MIN
    requires upper == if high.Some? then high.value else INT_MAX
    requires lower <= n <= upper && Truncate(n as real) == n
    ensures Canonical(NormalizeInteger(Int(n), low, high), Int(n))
  {
    assert Clamp(n as real, lower as real, upper as real) == n as real;
  }

  lemma PairIdempotent(v: Json, from: Option<Point>, to: Option<Point>)
    requires NormalizePair(v, from, to).Accepted?
    ensures Canonical(NormalizePair(NormalizePair(v, from, to).json, from, to), NormalizePair(v, from, to).json)
  {
    NumberIdempotent(v.items[0], First(from), First(to));
    NumberIdempotent(v.items[1], Second(from), Second(to));
  }

  lemma RoundingFixesWhole(n: int)
    ensures RoundHalfAway(n as real) == n
  {
  }

  lemma RoundingKeepsBounds(x: real, n: int)
    ensures x <= n as real ==> RoundHalfAway(x) <= n
    ensures x >= n as real ==> RoundHalfAway(x) >= n
  {
  }

  lemma WholeNumberIdempotent(v: Json, lowest: Option<int>, highest: Option<int>, x: real)
    requires NormalizeNumber(v, First(WholePoint(lowest)), First(WholePoint(highest))).Accepted?
    requires NormalizeNumber(v, First(WholePoint(lowest)), First(WholePoint(highest))).json == Float(x)
    ensures Canonical(NormalizeNumber(Float(RoundHalfAway(x) as real), First(WholePoint(lowest)),
                                      First(WholePoint(highest))), Float(RoundHalfAway(x) as real))
  {
    if lowest.Some? { RoundingKeepsBounds(x, lowest.value); }
    if highest.Some? { RoundingKeepsBounds(x, highest.value); }
  }

  lemma WholePairIdempotent(v: Json, lowest: Option<int>, highest: Option<int>)
    requires NormalizeWholePair(v, lowest, highest).Accepted?
    ensures Canonical(NormalizeWholePair(NormalizeWholePair(v, lowest, highest).json, lowest, highest),
                      NormalizeWholePair(v, lowest, highest).json)
  {
    var pair := NormalizePair(v, WholePoint(lowest), WholePoint(highest)).json;
    var x, y := pair.items[0].value, pair.items[1].value;
    WholeNumberIdempotent(v.items[0], lowest, highest, x);
    WholeNumberIdempotent(v.items[1], lowest, highest, y);
    RoundingFixesWhole(RoundHalfAway(x));
    RoundingFixesWhole(RoundHalfAway(y));
  }

  lemma AreaIdempotent(v: Json)
    requires NormalizeArea(v).Accepted?
    ensures Canonical(NormalizeArea(NormalizeArea(v).json), NormalizeArea(v).json)
  {
    PairIdempotent(v.fields[POS], None, None);
    PairIdempotent(v.fields[SIZE], None, None);
  }

  lemma FramebufferSizeIdempotent(v: Json, minimum: int, maximum: int)
    requires NormalizeFramebufferSize(v, minimum, maximum).Accepted?
    ensures Canonical(NormalizeFramebufferSize(NormalizeFramebufferSize(v, minimum, maximum).json, minimum, maximum),
                      NormalizeFramebufferSize(v, minimum, maximum).json)
  {
    IntegerIdempotent(v.items[0], Some(minimum), Some(maximum));
    IntegerIdempotent(v.items[1], Some(minimum), Some(maximum));
  }

  lemma FrameRateIdempotent(v: Json)
    requires NormalizeFrameRate(v).Accepted?
    ensures Canonical(NormalizeFrameRate(NormalizeFrameRate(v).json), NormalizeFrameRate(v).json)
  {
    var rate := ReadRate(v).value;
    var c := Canonicalize(rate);
    CanonicalIsIdempotent(rate);
    DurationIsExact(c);
    assert ReadRate(RateJson(c)) == Some(c);
  }

  lemma NormalizeIdempotent(kind: Kind, v: Json)
    requires Normalize(kind, v).Accepted?
    ensures Canonical(Normalize(kind, Normalize(kind, v).json), Normalize(kind, v).json)
  {
    match kind
    case Number(least, most) => NumberIdempotent(v, least, most);
    case Integer(low, high) => IntegerIdempotent(v, low, high);
    case Toggle =>
    case Words =>
    case Choice(_) =>
    case Pair(from, to) => PairIdempotent(v, from, to);
    case WholePair(lowest, highest) => WholePairIdempotent(v, lowest, highest);
    case Area => AreaIdempotent(v);
    case FramebufferSize(minimum, maximum) => FramebufferSizeIdempotent(v, minimum, maximum);
    case FrameRateOption => FrameRateIdempotent(v);
  }

  // What one option's normalisation stores, normalising again leaves alone: also when the node type gives one of
  // the common names a meaning of its own.
  lemma NormalizeOptionIdempotent(schema: Schema, key: Name, v: Json)
    requires NormalizeOption(schema, key, v).Accepted?
    ensures Canonical(NormalizeOption(schema, key, NormalizeOption(schema, key, v).json),
                      NormalizeOption(schema, key, v).json)
  {
    var w := NormalizeOption(schema, key, v).json;
    if NormalizeCommonOption(key, v).Accepted? {
      CommonIdempotent(key, v);
    } else {
      NormalizeIdempotent(schema[key], v);
      CommonDecidesAlike(schema[key], key, v);
    }
  }

  lemma CommonIdempotent(key: Name, v: Json)
    requires NormalizeCommonOption(key, v).Accepted?
    ensures Canonical(NormalizeCommonOption(key, NormalizeCommonOption(key, v).json),
                      NormalizeCommonOption(key, v).json)
  {
    if key == NODE_VISUAL_POSITION {
      PairIdempotent(v, None, None);
    }
  }

  // A value the common rule refuses, it still refuses once the node type's own rule has normalised it.
  lemma CommonDecidesAlike(kind: Kind, key: Name, v: Json)
    requires NormalizeCommonOption(key, v).Invalid? && Normalize(kind, v).Accepted?
    ensures NormalizeCommonOption(key, Normalize(kind, v).json).Invalid?
  {
  }

  /** A node's options change all together or not at all. */

  datatype Error =
    NoError | InternalError | InvalidType | DuplicateId | InvalidOptions | NotFound | CircularConnection

  // How a node type normalises an option of a given name.
  type Rule = (Name, Json) -> Outcome

  function RuleOf(schema: Schema): Rule { (key: Name, v: Json) => NormalizeOption(schema, key, v) }

  ghost predicate Acceptable(rule: Rule, options: Json) {
    options.Object? && forall k :: k in options.fields ==> rule(k, options.fields[k]).Accepted?
  }

  ghost function Normalized(rule: Rule, options: Json): Settings
    requires Acceptable(rule, options)
  {
    map k | k in options.fields :: rule(k, options.fields[k]).json
  }

  ghost function Updated(rule: Rule, state: Settings, options: Json): Settings {
    if Acceptable(rule, options) then state + Normalized(rule, options) else state
  }

  ghost predicate Corrects(rule: Rule, options: Json)
    requires Acceptable(rule, options)
  {
    exists k :: k in options.fields && rule(k, options.fields[k]).corrected
  }

  method SetOptions(rule: Rule, state: Settings, options: Json)
    returns (error: Error, corrected: bool, updated: Settings)
    ensures error == if Acceptable(rule, options) then NoError else InvalidOptions
    ensures updated == Updated(rule, state, options)
    ensures corrected <==> error.NoError? && Corrects(rule, options)
  {
    error, corrected, updated := InvalidOptions, false, state;
    if !options.Object? {
      return;
    }
    var normalized, anyCorrected := state, false;
    ghost var done: set<Name> := {};
    var rest := options.fields.Keys;
    while rest != {}
      invariant done !! rest && done + rest == options.fields.Keys
      invariant forall k :: k in done ==> rule(k, options.fields[k]).Accepted?
      invariant normalized.Keys == state.Keys + done
      invariant forall k :: k in normalized ==>
        normalized[k] == if k in done then rule(k, options.fields[k]).json else state[k]
      invariant anyCorrected <==> exists k :: k in done && rule(k, options.fields[k]).corrected
      decreases rest
    {
      var key :| key in rest;
      var outcome := rule(key, options.fields[key]);
      if outcome.Invalid? {
        return;
      }
      anyCorrected := anyCorrected || outcome.corrected;
      normalized := normalized[key := outcome.json];
      rest, done := rest - {key}, done + {key};
    }
    assert done == options.fields.Keys;
    error, corrected, updated := NoError, anyCorrected, normalized;
  }

  // Every stored option is the normal form of itself.
  ghost predicate AllCanonical(rule: Rule, state: Settings) {
    forall k :: k in state ==> Canonical(rule(k, state[k]), state[k])
  }

  lemma UpdatedStaysCanonical(schema: Schema, state: Settings, options: Json)
    requires AllCanonical(RuleOf(schema), state)
    ensures AllCanonical(RuleOf(schema), Updated(RuleOf(schema), state, options))
    ensures state.Keys <= Updated(RuleOf(schema), state, options).Keys
  {
    var rule := RuleOf(schema);
    if Acceptable(rule, options) {
      forall k | k in options.fields
        ensures Canonical(rule(k, Normalized(rule, options)[k]), Normalized(rule, options)[k])
      {
        NormalizeOptionIdempotent(schema, k, options.fields[k]);
      }
    }
  }

  // Writing canonical options over any state whose names they cover stores exactly those options.
  lemma CanonicalOptionsReload(rule: Rule, base: Settings, saved: Settings)
    requires AllCanonical(rule, saved) && base.Keys <= saved.Keys
    ensures Acceptable(rule, Object(saved)) && !Corrects(rule, Object(saved))
    ensures Updated(rule, base, Object(saved)) == saved
  {
    var options := Object(saved);
    assert forall k :: k in saved ==> rule(k, options.fields[k]) == Accepted(saved[k], false);
    assert Normalized(rule, options) == saved;
    assert base + saved == saved;
  }

  /** The options of the application settings node. */

  const FRAME_RATE: Name := 6
  const DEFAULT_FRAMEBUFFER_SIZE: Name := 7
  const DECKLINK_OUTPUT_BUFFER_FRAMES: Name := 8
  const NDI_OUTPUT_BUFFER_FRAMES: Name := 9
  const SCREEN_OUTPUT_BUFFER_FRAMES: Name := 10
  const MIN_DIMENSION: int := 256
  const MAX_DIMENSION: int := 4096
  const MIN_BUFFER_FRAMES: int := 1
  const MAX_BUFFER_FRAMES: int := 8

  const SETTINGS_SCHEMA: Schema := map[
    FRAME_RATE := FrameRateOption,
    DEFAULT_FRAMEBUFFER_SIZE := FramebufferSize(MIN_DIMENSION, MAX_DIMENSION),
    DECKLINK_OUTPUT_BUFFER_FRAMES := Integer(Some(MIN_BUFFER_FRAMES), Some(MAX_BUFFER_FRAMES)),
    NDI_OUTPUT_BUFFER_FRAMES := Integer(Some(MIN_BUFFER_FRAMES), Some(MAX_BUFFER_FRAMES)),
    SCREEN_OUTPUT_BUFFER_FRAMES := Integer(Some(MIN_BUFFER_FRAMES), Some(MAX_BUFFER_FRAMES))]

  const SETTINGS_DEFAULTS: Settings := map[
    FRAME_RATE := RateJson(Rate(60, 1)),
    DEFAULT_FRAMEBUFFER_SIZE := Array([Float(1920.0), Float(1080.0)]),
    DECKLINK_OUTPUT_BUFFER_FRAMES := Int(4),
    NDI_OUTPUT_BUFFER_FRAMES := Int(4),
    SCREEN_OUTPUT_BUFFER_FRAMES := Int(2)]

  predicate BufferFrames(v: Json) { v.Int? && MIN_BUFFER_FRAMES <= v.number <= MAX_BUFFER_FRAMES }

  predicate Dimension(v: Json) { v.Int? && MIN_DIMENSION <= v.number <= MAX_DIMENSION }

  // What a frame reads from the settings: an exact rate in lowest terms, a size and buffer counts in range.
  predicate Usable(state: Settings) {
    && SETTINGS_DEFAULTS.Keys <= state.Keys
    && ReadRate(state[FRAME_RATE]).Some?
    && Canonicalize(ReadRate(state[FRAME_RATE]).value) == ReadRate(state[FRAME_RATE]).value
    && state[DEFAULT_FRAMEBUFFER_SIZE].Array? && |state[DEFAULT_FRAMEBUFFER_SIZE].items| == 2
    && Dimension(state[DEFAULT_FRAMEBUFFER_SIZE].items[0]) && Dimension(state[DEFAULT_FRAMEBUFFER_SIZE].items[1])
    && BufferFrames(state[DECKLINK_OUTPUT_BUFFER_FRAMES])
    && BufferFrames(state[NDI_OUTPUT_BUFFER_FRAMES])
    && BufferFrames(state[SCREEN_OUTPUT_BUFFER_FRAMES])
  }

  lemma CanonicalBufferFrames(v: Json)
    requires Canonical(NormalizeInteger(v, Some(MIN_BUFFER_FRAMES), Some(MAX_BUFFER_FRAMES)), v)
    ensures BufferFrames(v)
  {
    TruncationKeepsBounds(Clamp(AsReal(v), MIN_BUFFER_FRAMES as real, MAX_BUFFER_FRAMES as real),
                          MIN_BUFFER_FRAMES, MAX_BUFFER_FRAMES);
  }

  lemma CanonicalDimension(v: Json, w: Json)
    requires NormalizeInteger(v, Some(MIN_DIMENSION), Some(MAX_DIMENSION)) ==
             Accepted(w, NormalizeInteger(v, Some(MIN_DIMENSION), Some(MAX_DIMENSION)).Accepted?
                         && NormalizeInteger(v, Some(MIN_DIMENSION), Some(MAX_DIMENSION)).corrected)
    ensures Dimension(w)
  {
    TruncationKeepsBounds(Clamp(AsReal(v), MIN_DIMENSION as real, MAX_DIMENSION as real),
                          MIN_DIMENSION, MAX_DIMENSION);
  }

  lemma CanonicalFramebufferSize(v: Json)
    requires Canonical(NormalizeFramebufferSize(v, MIN_DIMENSION, MAX_DIMENSION), v)
    ensures v.Array? && |v.items| == 2 && Dimension(v.items[0]) && Dimension(v.items[1])
  {
    var x := NormalizeInteger(v.items[0], Some(MIN_DIMENSION), Some(MAX_DIMENSION));
    var y := NormalizeInteger(v.items[1], Some(MIN_DIMENSION), Some(MAX_DIMENSION));
    CanonicalDimension(v.items[0], x.json);
    CanonicalDimension(v.items[1], y.json);
    assert Couple(x.json, y.json).items[0] == x.json && Couple(x.json, y.json).items[1] == y.json;
  }

  lemma CanonicalFrameRate(v: Json)
    requires Canonical(NormalizeFrameRate(v), v)
    ensures ReadRate(v).Some? && Canonicalize(ReadRate(v).value) == ReadRate(v).value
  {
  }

  lemma CanonicalSettingsAreUsable(state: Settings)
    requires AllCanonical(RuleOf(SETTINGS_SCHEMA), state) && SETTINGS_DEFAULTS.Keys <= state.Keys
    ensures Usable(state)
  {
    CanonicalFrameRate(state[FRAME_RATE]);
    CanonicalFramebufferSize(state[DEFAULT_FRAMEBUFFER_SIZE]);
    CanonicalBufferFrames(state[DECKLINK_OUTPUT_BUFFER_FRAMES]);
    CanonicalBufferFrames(state[NDI_OUTPUT_BUFFER_FRAMES]);
    CanonicalBufferFrames(state[SCREEN_OUTPUT_BUFFER_FRAMES]);
  }

  // The default settings are accepted as they are, so the settings node can be created.
  lemma DefaultSettingsAccepted()
    ensures Acceptable(RuleOf(SETTINGS_SCHEMA), Object(SETTINGS_DEFAULTS))
    ensures !Corrects(RuleOf(SETTINGS_SCHEMA), Object(SETTINGS_DEFAULTS))
  {
    var rate := Rate(60, 1);
    assert Gcd(60, 1) == Gcd(1, 0) == 1;
    assert ReadRate(RateJson(rate)) == Some(rate);
    assert NormalizeFrameRate(RateJson(rate)) == Accepted(RateJson(rate), false);
    assert NormalizeInteger(Float(1920.0), Some(256), Some(4096)) == Accepted(Int(1920), false);
    assert NormalizeInteger(Float(1080.0), Some(256), Some(4096)) == Accepted(Int(1080), false);
  }
}
