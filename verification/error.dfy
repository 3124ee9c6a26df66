/**
 * The error-source configuration of lib/error.py. An `Error` is built from one
 * configuration dictionary: its `type` must be bias, noise or drift, it needs a
 * level (a grid `source`, or a constant `value`), bias needs a `timing` and
 * noise a `timescale`, and a gridded level needs a `variable` and a `factor`.
 * The constructor raises at the first check that fails, in a fixed order; here
 * it is a function returning either the validated source or the error it raises.
 */
module ErrorSources {
  import opened Results

  /**
   * A configuration value. The YAML loader can also yield booleans, null,
   * dates, lists and mappings; the model keeps only strings and numbers. Any
   * other `type` value is rejected just as a number is.
   */
  datatype Field = Text(text: string) | Number(number: real)

  /** The configuration dictionary `d`. */
  type Config = map<string, Field>

  datatype Kind = Bias | Noise | Drift

  /** The error level: one constant, or a grid read from a netCDF file. */
  datatype Level =
    | Constant(value: Field)
    | Gridded(source: Field, variable: Field, factor: Field)

  /**
   * A validated `Error`. `timing` exists only on a bias and `timescale` only on
   * a noise: reading either on another kind raises AttributeError in Python.
   */
  datatype ErrorSource = ErrorSource(kind: Kind, level: Level, timing: Option<Field>, timescale: Option<Field>)

  /** What the constructor raises, in the order it checks for it. */
  datatype ConfigError =
    | MissingType                                  // KeyError on d['type']
    | UnexpectedType(found: Field)                 // type not bias, noise or drift
    | NoLevel                                      // neither source nor value
    | MissingKindKeyword(keyword: string, kind: Kind)
    | MissingVariable
    | MissingFactor

  /** Every key the constructor reads. */
  const KnownKeys: set<string> := {"type", "source", "value", "variable", "factor", "timing", "timescale"}

  function KindName(k: Kind): string {
    match k
    case Bias => "bias"
    case Noise => "noise"
    case Drift => "drift"
  }

  /** The kind a `type` entry names, if it is one of the three accepted strings. */
  function KindOf(f: Field): (r: Option<Kind>)
    ensures r.Some? <==> exists k: Kind :: f == Text(KindName(k))
    ensures r.Some? ==> f == Text(KindName(r.value))
  {
    if f == Text("bias") then assert f == Text(KindName(Bias)); Some(Bias)
    else if f == Text("noise") then assert f == Text(KindName(Noise)); Some(Noise)
    else if f == Text("drift") then assert f == Text(KindName(Drift)); Some(Drift)
    else None
  }

  /** The extra keywords a kind needs: `timing` for a bias, `timescale` for a noise. */
  function Required(k: Kind): seq<string> {
    match k
    case Bias => ["timing"]
    case Noise => ["timescale"]
    case Drift => []
  }

  /** The first of `keys` missing from `d`, as the `for kwd in required` loop finds it. */
  function FirstMissing(d: Config, keys: seq<string>): (r: Option<string>)
    ensures r.None? <==> forall i :: 0 <= i < |keys| ==> keys[i] in d
    ensures r.Some? ==> r.value !in d && exists i :: 0 <= i < |keys| && keys[i] == r.value && forall j :: 0 <= j < i ==> keys[j] in d
    decreases |keys|
  {
    if |keys| == 0 then None
    else if keys[0] !in d then Some(keys[0])
    else
      var r := FirstMissing(d, keys[1..]);
      assert forall i :: 1 <= i < |keys| ==> keys[i] == keys[1..][i - 1];
      r
  }

  /** `__check_keys`: a level keyword first, then the kind's extra keywords. */
  function CheckKeys(d: Config, kind: Kind): (r: Option<ConfigError>)
    ensures r.None? <==> ("source" in d || "value" in d) && forall kwd :: kwd in Required(kind) ==> kwd in d
    ensures r == Some(NoLevel) <==> "source" !in d && "value" !in d
    ensures r.Some? && r.value != NoLevel ==>
      r.value.MissingKindKeyword? && r.value.kind == kind && r.value.keyword in Required(kind) && r.value.keyword !in d
  {
    if "source" !in d && "value" !in d then Some(NoLevel)
    else
      match FirstMissing(d, Required(kind))
      case Some(kwd) => Some(MissingKindKeyword(kwd, kind))
      case None => None
  }

  /**
   * The level branch of the constructor. The final `else` of the Python code is
   * unreachable once `__check_keys` has passed, which the precondition records.
   */
  function ReadLevel(d: Config): (r: Result<Level, ConfigError>)
    requires "source" in d || "value" in d
    ensures r.Success? && "source" in d ==>
      "variable" in d && "factor" in d && r.value == Gridded(d["source"], d["variable"], d["factor"])
    ensures r.Success? && "source" !in d ==> r.value == Constant(d["value"])
    ensures r.Failure? <==> "source" in d && ("variable" !in d || "factor" !in d)
    ensures r.Failure? ==> r.error == if "variable" !in d then MissingVariable else MissingFactor
  {
    if "source" in d then
      if "variable" !in d then Failure(MissingVariable)
      else if "factor" !in d then Failure(MissingFactor)
      else Success(Gridded(d["source"], d["variable"], d["factor"]))
    else
      Success(Constant(d["value"]))
  }

  /** A configuration the constructor accepts, stated without reference to the order of the checks. */
  ghost predicate WellFormed(d: Config) {
    && "type" in d
    && (exists k: Kind :: d["type"] == Text(KindName(k)))
    && ("source" in d || "value" in d)
    && (d["type"] == Text("bias") ==> "timing" in d)
    && (d["type"] == Text("noise") ==> "timescale" in d)
    && ("source" in d ==> "variable" in d && "factor" in d)
  }

  /** `Error.__init__`: the validated source, or the first error raised. */
  function Parse(d: Config): (r: Result<ErrorSource, ConfigError>)
    ensures r.Success? <==> WellFormed(d)
    ensures r == Failure(MissingType) <==> "type" !in d
    ensures r.Failure? && r.error.UnexpectedType? <==> "type" in d && KindOf(d["type"]).None?
    ensures r.Failure? && r.error.UnexpectedType? ==> r.error.found == d["type"]
    ensures r == Failure(NoLevel) <==> "type" in d && KindOf(d["type"]).Some? && "source" !in d && "value" !in d
    ensures r.Success? ==> Text(KindName(r.value.kind)) == d["type"]
    ensures r.Success? ==>
      (r.value.timing.Some? <==> r.value.kind == Bias) && (r.value.timescale.Some? <==> r.value.kind == Noise)
  {
    if "type" !in d then Failure(MissingType)
    else
      match KindOf(d["type"])
      case None => Failure(UnexpectedType(d["type"]))
      case Some(kind) =>
        match CheckKeys(d, kind)
        case Some(e) => Failure(e)
        case None =>
          var level :- ReadLevel(d);
          Success(ErrorSource(
            kind,
            level,
            if kind == Bias then Some(d["timing"]) else None,
            if kind == Noise then Some(d["timescale"]) else None))
  }

  /**
   * `Error.value(x, y)`: the constant when the level is unique, otherwise the
   * grid interpolated at the position. `interpolate` stands for the bilinear
   * interpolation over the loaded grid.
   */
  function Value(e: ErrorSource, lon: real, lat: real, interpolate: (real, real) -> real): (r: Field)
    ensures e.level.Constant? ==> r == e.level.value
    ensures e.level.Gridded? ==> r.Number? && r.number == interpolate(lon, lat)
  {
    match e.level
    case Constant(v) => v
    case Gridded(_, _, _) => Number(interpolate(lon, lat))
  }

  // ---------------------------------------------------------------------------
  // Properties of the validator

  /** The fields present on a validated source match its kind. */
  predicate Consistent(e: ErrorSource) {
    (e.timing.Some? <==> e.kind == Bias) && (e.timescale.Some? <==> e.kind == Noise)
  }

  /** The smallest configuration describing a validated source. */
  function Encode(e: ErrorSource): (d: Config)
    ensures d.Keys <= KnownKeys
    ensures "type" in d && d["type"] == Text(KindName(e.kind))
  {
    var base := map["type" := Text(KindName(e.kind))];
    var withLevel :=
      match e.level
      case Constant(v) => base["value" := v]
      case Gridded(src, v, f) => base["source" := src]["variable" := v]["factor" := f];
    var withTiming := if e.timing.Some? then withLevel["timing" := e.timing.value] else withLevel;
    if e.timescale.Some? then withTiming["timescale" := e.timescale.value] else withTiming
  }

  lemma KindRoundTrip(k: Kind)
    ensures KindOf(Text(KindName(k))) == Some(k)
  {
  }

  /** Every consistent source is accepted back from its own configuration. */
  lemma ParseEncode(e: ErrorSource)
    requires Consistent(e)
    ensures Parse(Encode(e)) == Success(e)
  {
    KindRoundTrip(e.kind);
  }

  /**
   * Conversely, an accepted configuration contains the configuration of what
   * it was accepted as: every key the source needs, with the value it was read from.
   */
  lemma EncodeParse(d: Config)
    requires Parse(d).Success?
    ensures Consistent(Parse(d).value)
    ensures forall k :: k in Encode(Parse(d).value) ==> k in d && d[k] == Encode(Parse(d).value)[k]
  {
  }

  /** Keys the constructor never reads do not change its outcome. */
  lemma IgnoresUnknownKeys(d: Config, k: string, v: Field)
    requires k !in KnownKeys
    ensures Parse(d[k := v]) == Parse(d)
  {
    var d' := d[k := v];
    assert forall key :: key in KnownKeys ==> (key in d' <==> key in d) && (key in d ==> d'[key] == d[key]);
    KnownKeysAgree(d, d');
  }

  /** Two configurations that agree on every known key are parsed alike. */
  lemma KnownKeysAgree(d: Config, d': Config)
    requires forall key :: key in KnownKeys ==> (key in d' <==> key in d) && (key in d ==> d'[key] == d[key])
    ensures Parse(d') == Parse(d)
  {
    assert "type" in d <==> "type" in d';
    assert "source" in d <==> "source" in d';
    assert "value" in d <==> "value" in d';
    assert "variable" in d <==> "variable" in d';
    assert "factor" in d <==> "factor" in d';
    assert "timing" in d <==> "timing" in d';
    assert "timescale" in d <==> "timescale" in d';
  }

  /** When a source is given, a `value` beside it is never read. */
  lemma SourceShadowsValue(d: Config)
    requires "source" in d
    ensures Parse(d - {"value"}) == Parse(d)
    ensures Parse(d).Success? ==> Parse(d).value.level.Gridded?
  {
    var d' := d - {"value"};
    assert "source" in d';
  }

  /** A missing or unexpected type is reported whatever else the configuration holds. */
  lemma TypeCheckedFirst(d: Config, extra: Config)
    requires "type" !in d || KindOf(d["type"]).None?
    requires "type" !in extra
    ensures Parse(d + extra) == Parse(d)
    ensures Parse(d).Failure? && (Parse(d).error.MissingType? || Parse(d).error.UnexpectedType?)
  {
    var d' := d + extra;
    assert "type" in d' <==> "type" in d;
    assert "type" in d ==> d'["type"] == d["type"];
  }

  /**
   * The kind keyword is checked before the grid keywords: a bias without
   * `timing` reports that, even when its grid `variable` and `factor` are missing too.
   */
  lemma KindKeywordBeforeGridKeys(d: Config, kind: Kind)
    requires "type" in d && d["type"] == Text(KindName(kind)) && ("source" in d || "value" in d)
    requires |Required(kind)| > 0 && Required(kind)[0] !in d
    ensures Parse(d) == Failure(MissingKindKeyword(Required(kind)[0], kind))
  {
    KindRoundTrip(kind);
  }

  /** A grid `variable` is asked for before its `factor`. */
  lemma VariableBeforeFactor(d: Config)
    requires WellFormed(d[ "variable" := Text("v")][ "factor" := Text("f")]) && "source" in d
    requires "variable" !in d
    ensures Parse(d) == Failure(MissingVariable)
  {
    var full := d["variable" := Text("v")]["factor" := Text("f")];
    assert "type" in d && d["type"] == full["type"];
    var kind :| d["type"] == Text(KindName(kind));
    KindRoundTrip(kind);
    assert "timing" in full ==> "timing" in d;
    assert "timescale" in full ==> "timescale" in d;
  }

  /** A validated bias keeps its timing and a validated noise its timescale. */
  lemma StoresKindParameters(d: Config)
    requires Parse(d).Success?
    ensures Parse(d).value.kind == Bias ==> "timing" in d && Parse(d).value.timing == Some(d["timing"])
    ensures Parse(d).value.kind == Noise ==> "timescale" in d && Parse(d).value.timescale == Some(d["timescale"])
    ensures Parse(d).value.kind == Drift ==> Parse(d).value.timing.None? && Parse(d).value.timescale.None?
  {
  }

  /** With a constant level, `value` returns the configured constant at every position. */
  lemma ConstantEverywhere(d: Config, lon: real, lat: real, interpolate: (real, real) -> real)
    requires Parse(d).Success? && "source" !in d
    ensures "value" in d && Value(Parse(d).value, lon, lat, interpolate) == d["value"]
  {
  }
}
