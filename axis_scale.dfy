/**
 * The value-axis scale rules of the vislib y axis, as its test suite
 * src/plugins/vis_types/vislib/public/vislib/lib/axis/y_axis.test.js states
 * them: the axis configuration, the checks on user-given and computed
 * extents, the log-scale domain, the choice of d3 scale by name, and the
 * shape of the y scale's domain and range.
 *
 * Numbers are exact reals: there is no NaN, so "not a number" only arises
 * from text that does not parse.
 */
module AxisScale {
  import opened Wrappers

  datatype ConfigValue = Flag(flag: bool) | Text(text: string) | Number(number: real)

  datatype AxisError =
    | NotANumber(text: string)
    | MinEqualsMax
    | MinGreaterThanMax
    | LogScaleValues
    | NotAScale(name: string)

  /** The axis configuration, changed in place with `set`. */
  class AxisConfig {
    var values: map<string, ConfigValue>

    constructor(values: map<string, ConfigValue>)
      ensures this.values == values
    {
      this.values := values;
    }

    function Get(path: string): (v: Option<ConfigValue>)
      reads this
      ensures v.Some? <==> path in values
      ensures v.Some? ==> v.value == values[path]
    {
      if path in values then Some(values[path]) else None
    }

    /** `axisConfig.set(path, value)`. */
    method Set(path: string, v: ConfigValue)
      modifies this
      ensures values == old(values)[path := v]
    {
      values := values[path := v];
    }

    /** `scale.mode` is `percentage`. */
    predicate IsPercentage()
      reads this
    {
      Get("scale.mode") == Some(Text("percentage"))
    }

    /** The user sets the y extents (`scale.setYExtents`). */
    predicate IsUserDefined()
      reads this
    {
      Get("scale.setYExtents") == Some(Flag(true))
    }
  }

  // ---------------------------------------------------------------------
  // Extents
  // ---------------------------------------------------------------------

  /** Axis extents must form a proper interval. */
  function ValidateAxisExtents(min: real, max: real): (r: Result<(), AxisError>)
    ensures r.Ok? <==> min < max
    ensures min == max ==> r == Err(MinEqualsMax)
    ensures min > max ==> r == Err(MinGreaterThanMax)
  {
    if min == max then Err(MinEqualsMax)
    else if min > max then Err(MinGreaterThanMax)
    else Ok(())
  }

  lemma AxisExtentsOfTests()
    ensures ValidateAxisExtents(12.0, 12.0).Err?
    ensures ValidateAxisExtents(30.0, 10.0).Err?
  {
  }

  /**
   * A user-given extent: a number, or text to be read as one by the axis's
   * number parser, which is a parameter.
   */
  datatype Extent = Num(value: real) | Str(text: string)

  function ParseExtent(e: Extent, parseNumber: string -> Option<real>): Option<real>
  {
    match e
    case Num(v) => Some(v)
    case Str(t) => parseNumber(t)
  }

  /** `domain[i]` is text that does not parse, and every extent before it parses. */
  predicate FirstUnparsed(domain: seq<Extent>, i: nat, parseNumber: string -> Option<real>)
    requires i < |domain|
  {
    && domain[i].Str?
    && parseNumber(domain[i].text).None?
    && forall j :: 0 <= j < i ==> ParseExtent(domain[j], parseNumber).Some?
  }

  /**
   * Reads the user-given extents as numbers, failing on the first one that
   * is not a number; in percentage mode with user extents on, each one is a
   * percentage and becomes a fraction.
   */
  function ValidateUserExtents(config: AxisConfig, domain: seq<Extent>, parseNumber: string -> Option<real>)
    : (r: Result<seq<real>, AxisError>)
    reads config
    ensures r.Ok? <==> forall i :: 0 <= i < |domain| ==> ParseExtent(domain[i], parseNumber).Some?
    ensures r.Ok? ==> |r.value| == |domain|
    ensures r.Ok? && config.IsPercentage() && config.IsUserDefined() ==>
      forall i :: 0 <= i < |domain| ==> r.value[i] * 100.0 == ParseExtent(domain[i], parseNumber).value
    ensures r.Ok? && !(config.IsPercentage() && config.IsUserDefined()) ==>
      forall i :: 0 <= i < |domain| ==> r.value[i] == ParseExtent(domain[i], parseNumber).value
    ensures r.Err? ==> exists i :: 0 <= i < |domain| && FirstUnparsed(domain, i, parseNumber) && r.error == NotANumber(domain[i].text)
    decreases |domain|
  {
    if domain == [] then Ok([])
    else
      match ParseExtent(domain[0], parseNumber)
      case None => Err(NotANumber(domain[0].text))
      case Some(v) =>
        var scaled := if config.IsPercentage() && config.IsUserDefined() then v / 100.0 else v;
        match ValidateUserExtents(config, domain[1..], parseNumber)
        case Err(e) =>
          assert forall i :: 0 <= i < |domain[1..]| && FirstUnparsed(domain[1..], i, parseNumber) ==>
            domain[1..][i] == domain[i + 1] && FirstUnparsed(domain, i + 1, parseNumber);
          Err(e)
        case Ok(rest) => Ok([scaled] + rest)
  }

  /** Text that does not parse is rejected, wherever it stands. */
  lemma {:induction false} NonNumericExtentRejected(config: AxisConfig, domain: seq<Extent>, i: nat,
                                                    parseNumber: string -> Option<real>)
    requires i < |domain| && domain[i].Str? && parseNumber(domain[i].text).None?
    ensures ValidateUserExtents(config, domain, parseNumber).Err?
  {
    assert ParseExtent(domain[i], parseNumber).None?;
  }

  /**
   * The axis the `validate user defined values` cases set up, with
   * `scale.stacked` on and user extents off (the non-number case is read as
   * the domain `["Not a number", 12]`):
   * setting percentage mode and user extents makes 20 and 80 into 0.2 and
   * 0.8; with user extents off, 20 and 50 come back unchanged; the text
   * "Not a number" is rejected.
   */
  method UserExtentsOfTests(parseNumber: string -> Option<real>)
    returns (plain: Result<seq<real>, AxisError>, percentage: Result<seq<real>, AxisError>,
             notANumber: Result<seq<real>, AxisError>)
    requires parseNumber("Not a number").None?
    ensures plain == Ok([20.0, 50.0])
    ensures percentage == Ok([0.2, 0.8])
    ensures notANumber.Err?
  {
    var config := new AxisConfig(map["scale.setYExtents" := Flag(false)]);
    config.Set("scale.stacked", Flag(true));
    config.Set("scale.setYExtents", Flag(false));
    assert config.Get("scale.setYExtents") == Some(Flag(false));
    assert !config.IsUserDefined();
    notANumber := ValidateUserExtents(config, [Str("Not a number"), Num(12.0)], parseNumber);
    NonNumericExtentRejected(config, [Str("Not a number"), Num(12.0)], 0, parseNumber);
    plain := ValidateUserExtents(config, [Num(20.0), Num(50.0)], parseNumber);
    assert |plain.value| == 2 && plain.value[0] == 20.0 && plain.value[1] == 50.0;
    assert plain.value == [20.0, 50.0];
    config.Set("scale.mode", Text("percentage"));
    config.Set("scale.setYExtents", Flag(true));
    assert config.Get("scale.mode") == Some(Text("percentage"));
    assert config.IsPercentage() && config.IsUserDefined();
    percentage := ValidateUserExtents(config, [Num(20.0), Num(80.0)], parseNumber);
    assert percentage.value[0] * 100.0 == 20.0 && percentage.value[1] * 100.0 == 80.0;
    assert |percentage.value| == 2 && percentage.value[0] == 0.2 && percentage.value[1] == 0.8;
    assert percentage.value == [0.2, 0.8];
  }

  // ---------------------------------------------------------------------
  // Log scale
  // ---------------------------------------------------------------------

  /**
   * The domain of a log scale: values must not be negative and the top must
   * be positive; the bottom is raised to at least 1.
   */
  function LogDomain(min: real, max: real): (r: Result<(real, real), AxisError>)
    ensures r.Ok? <==> 0.0 <= min && 0.0 < max
    ensures r.Ok? ==> r.value.0 >= 1.0 && r.value.0 >= min && r.value.1 == max
    ensures r.Ok? && min >= 1.0 ==> r.value.0 == min
    ensures r.Ok? && min < 1.0 ==> r.value.0 == 1.0
  {
    if min < 0.0 || max <= 0.0 then Err(LogScaleValues)
    else Ok((if min < 1.0 then 1.0 else min, max))
  }

  lemma LogDomainOfTests()
    ensures LogDomain(-10.0, -5.0).Err?
    ensures LogDomain(-10.0, 5.0).Err?
    ensures LogDomain(0.0, -5.0).Err?
    ensures LogDomain(0.0, 200.0) == Ok((1.0, 200.0))
  {
  }

  // ---------------------------------------------------------------------
  // Choosing a d3 scale
  // ---------------------------------------------------------------------

  /** The d3 scale a name stands for: none or an empty name is `linear`, `square root` is `sqrt`. */
  function ScaleName(name: Option<string>): (n: string)
    ensures name.None? || name.value == "" ==> n == "linear"
    ensures name == Some("square root") ==> n == "sqrt"
    ensures name.Some? && name.value != "" && name.value != "square root" ==> n == name.value
  {
    match name
    case None => "linear"
    case Some(s) => if s == "" then "linear" else if s == "square root" then "sqrt" else s
  }

  /**
   * `getD3Scale`: the d3 scale constructor for a name, an error when d3 has
   * none by that name. `d3Scales` is the set of scale constructors d3 offers.
   */
  function GetD3Scale(name: Option<string>, d3Scales: set<string>): (r: Result<string, AxisError>)
    ensures r.Ok? <==> ScaleName(name) in d3Scales
    ensures r.Ok? ==> r.value == ScaleName(name)
    ensures r.Err? ==> r.error == NotAScale(ScaleName(name))
  {
    var n := ScaleName(name);
    if n in d3Scales then Ok(n) else Err(NotAScale(n))
  }

  lemma D3ScaleOfTests(d3Scales: set<string>)
    requires "linear" in d3Scales && "log" in d3Scales && "sqrt" in d3Scales && "square" !in d3Scales
    ensures GetD3Scale(Some("linear"), d3Scales) == Ok("linear")
    ensures GetD3Scale(Some("log"), d3Scales) == Ok("log")
    ensures GetD3Scale(Some("square root"), d3Scales) == Ok("sqrt")
    ensures GetD3Scale(None, d3Scales) == Ok("linear")
    ensures GetD3Scale(Some("square"), d3Scales).Err?
  {
  }

  // ---------------------------------------------------------------------
  // The y scale's domain and range
  // ---------------------------------------------------------------------

  /** The smallest of some values, or 0 when there are none, and never above 0. */
  function MinWithZero(values: seq<real>): (m: real)
    ensures m <= 0.0
    ensures forall i :: 0 <= i < |values| ==> m <= values[i]
    ensures m == 0.0 || exists i :: 0 <= i < |values| && values[i] == m
    decreases |values|
  {
    if values == [] then 0.0
    else
      var rest := MinWithZero(values[1..]);
      if values[0] < rest then values[0] else rest
  }

  /** The largest of some values, or 0 when there are none, and never below 0. */
  function MaxWithZero(values: seq<real>): (m: real)
    ensures m >= 0.0
    ensures forall i :: 0 <= i < |values| ==> values[i] <= m
    ensures m == 0.0 || exists i :: 0 <= i < |values| && values[i] == m
    decreases |values|
  {
    if values == [] then 0.0
    else
      var rest := MaxWithZero(values[1..]);
      if values[0] > rest then values[0] else rest
  }

  datatype YScale = YScale(domain: (real, real), range: (real, real))

  /**
   * The y scale of a value axis whose minimum defaults to 0: its domain runs
   * from the smaller of 0 and the least value to the larger of 0 and the
   * greatest, and its range from the axis height down to 0.
   */
  function GetYScale(values: seq<real>, height: real): (s: YScale)
    ensures s.domain.0 <= 0.0 <= s.domain.1
    ensures forall i :: 0 <= i < |values| ==> s.domain.0 <= values[i] <= s.domain.1
    ensures s.range == (height, 0.0)
  {
    YScale((MinWithZero(values), MaxWithZero(values)), (height, 0.0))
  }

  /**
   * The domain is no wider than it must be: a positive value makes its top
   * positive and a negative value its bottom negative, and otherwise the
   * bound stays at 0.
   */
  lemma YScaleDomainTight(values: seq<real>, height: real)
    ensures GetYScale(values, height).domain.1 > 0.0 <==> exists i :: 0 <= i < |values| && values[i] > 0.0
    ensures GetYScale(values, height).domain.0 < 0.0 <==> exists i :: 0 <= i < |values| && values[i] < 0.0
  {
    var s := GetYScale(values, height);
    if s.domain.1 > 0.0 {
      var i :| 0 <= i < |values| && values[i] == s.domain.1;
      assert values[i] > 0.0;
    }
    if s.domain.0 < 0.0 {
      var i :| 0 <= i < |values| && values[i] == s.domain.0;
      assert values[i] < 0.0;
    }
  }
}
