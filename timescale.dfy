/** The trace's time base: a magnitude and a unit read from the `$timescale`
    header, and the conversion of raw ticks into a target unit through a table
    of units per second. The model computes the conversion exactly over the
    reals; the rounding to three decimals is not modelled. */
module TimeScales {
  import opened Base
  import opened Text

  /** Set once from the header; never changed afterwards. */
  datatype TimeScale = TimeScale(baseNum: int, baseUnit: string)

  /** How many of `unit` make one second; `None` for a unit outside the table
      (looking it up yields no number, and the division then raises). */
  function UnitsPerSecond(unit: string): Option<real>
  {
    if unit == "ms" then Some(1000.0)
    else if unit == "us" then Some(1000000.0)
    else if unit == "ns" then Some(1000000000.0)
    else if unit == "ps" then Some(1000000000000.0)
    else None
  }

  predicate KnownUnit(unit: string)
  {
    UnitsPerSecond(unit).Some?
  }

  /** Multiplier from `from` units to `to` units. */
  function Factor(from: string, to: string): (f: real)
    requires KnownUnit(from) && KnownUnit(to)
    ensures f > 0.0
  {
    UnitsPerSecond(to).value / UnitsPerSecond(from).value
  }

  /** `convert_to`: `tick` base units expressed in `unit`. Only the unit of
      the time base takes part; its magnitude does not. */
  function ConvertTo(ts: TimeScale, tick: int, unit: string): (r: Option<real>)
    ensures r.Some? <==> KnownUnit(ts.baseUnit) && KnownUnit(unit)
    ensures r.Some? ==> r.value == tick as real * Factor(ts.baseUnit, unit)
  {
    if KnownUnit(ts.baseUnit) && KnownUnit(unit) then
      Some(tick as real * (UnitsPerSecond(unit).value / UnitsPerSecond(ts.baseUnit).value))
    else None
  }

  /** Converting into the time base's own unit leaves the tick count as is. */
  lemma ConvertToOwnUnit(ts: TimeScale, tick: int)
    requires KnownUnit(ts.baseUnit)
    ensures ConvertTo(ts, tick, ts.baseUnit) == Some(tick as real)
  {
    UnitsPositive(ts.baseUnit);
    var u := UnitsPerSecond(ts.baseUnit).value;
    assert u / u == 1.0;
  }

  /** Conversion is linear in the tick count. */
  lemma ConvertLinear(ts: TimeScale, a: int, b: int, k: int, unit: string)
    requires KnownUnit(ts.baseUnit) && KnownUnit(unit)
    ensures ConvertTo(ts, k * a + b, unit).value
            == k as real * ConvertTo(ts, a, unit).value + ConvertTo(ts, b, unit).value
  {
    var f := Factor(ts.baseUnit, unit);
    assert (k * a + b) as real * f == k as real * (a as real * f) + b as real * f;
  }

  /** Factors compose: going through an intermediate unit changes nothing. */
  lemma FactorsCompose(a: string, b: string, c: string)
    requires KnownUnit(a) && KnownUnit(b) && KnownUnit(c)
    ensures Factor(a, b) * Factor(b, c) == Factor(a, c)
  {
    var ta, tb, tc := UnitsPerSecond(a).value, UnitsPerSecond(b).value, UnitsPerSecond(c).value;
    assert ta > 0.0 && tb > 0.0 by {
      UnitsPositive(a);
      UnitsPositive(b);
    }
    QuotientsCompose(ta, tb, tc);
  }

  lemma UnitsPositive(unit: string)
    requires KnownUnit(unit)
    ensures UnitsPerSecond(unit).value > 0.0
  {
  }

  lemma QuotientsCompose(x: real, y: real, z: real)
    requires x > 0.0 && y > 0.0
    ensures (y / x) * (z / y) == z / x
  {
    var p, q := y / x, z / y;
    assert p * x == y;
    assert q * y == z;
    assert (p * q) * x == q * (p * x);
  }

  /** A converted time converts back to the original tick count. */
  lemma ConvertBack(ts: TimeScale, tick: int, unit: string)
    requires KnownUnit(ts.baseUnit) && KnownUnit(unit)
    ensures ConvertTo(ts, tick, unit).value * Factor(unit, ts.baseUnit) == tick as real
  {
    FactorsCompose(ts.baseUnit, unit, ts.baseUnit);
    var f, g := Factor(ts.baseUnit, unit), Factor(unit, ts.baseUnit);
    assert tick as real * f * g == tick as real * (f * g);
  }

  /** `"<n> <unit>"` read from the header with `split()` and `int()`;
      anything else stops the conversion. */
  function ParseTimescale(text: string): (r: Result<TimeScale>)
    ensures r.Err? ==> r.fault == BadTimescale(text)
    ensures r.Ok? ==> r.value.baseUnit != [] && NoSpace(r.value.baseUnit)
    ensures r.Ok? ==> |Split(text)| == 2 && Split(text)[1] == r.value.baseUnit
                      && ParseInt(Split(text)[0]) == Some(r.value.baseNum)
  {
    var words := Split(text);
    if |words| == 2 && ParseInt(words[0]).Some? then
      assert words[1] in words;
      Ok(TimeScale(ParseInt(words[0]).value, words[1]))
    else
      Err(BadTimescale(text))
  }

  /** A header written as a decimal magnitude, one space and a unit word is
      read back as that magnitude and unit. */
  lemma ParseTimescaleWritten(n: nat, unit: string)
    requires unit != [] && NoSpace(unit)
    ensures ParseTimescale(NatToDecimal(n) + " " + unit) == Ok(TimeScale(n, unit))
  {
    var d := NatToDecimal(n);
    assert forall c :: c in d ==> IsDigit(c);
    SplitTwoWords(d, unit);
    ParseDecimal(n);
  }

  /** A header without exactly two words is rejected. */
  lemma ParseTimescaleNeedsTwoWords(text: string)
    requires |Split(text)| != 2
    ensures ParseTimescale(text) == Err(BadTimescale(text))
  {
  }
}
