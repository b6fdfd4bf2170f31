/**
  The per-reading conversions of `TiltMonitor`: `to_celsius` and the
  per-colour tables `calibrate_SG` and `calibrate_Tc`.
 */
module Calibration {
  import opened Wrappers
  import opened LineCalibration

  /** Degrees Fahrenheit to degrees Celsius, exactly. */
  function FahrenheitToCelsius(f: real): (c: real)
    ensures c * 9.0 == (f - 32.0) * 5.0
  {
    (f - 32.0) / 1.8
  }

  /** The inverse conversion, used only to state the round trip. */
  function CelsiusToFahrenheit(c: real): real {
    c * 1.8 + 32.0
  }

  /** Celsius back to Fahrenheit recovers the input. */
  lemma CelsiusRoundTrip(f: real)
    ensures CelsiusToFahrenheit(FahrenheitToCelsius(f)) == f
  {
  }

  /** Freezing and boiling points of water. */
  lemma FixedPoints()
    ensures FahrenheitToCelsius(32.0) == 0.0
    ensures FahrenheitToCelsius(212.0) == 100.0
  {
  }

  /** The exact conversion is strictly increasing. */
  lemma FahrenheitToCelsiusIncreasing(f: real, f': real)
    requires f < f'
    ensures FahrenheitToCelsius(f) < FahrenheitToCelsius(f')
  {
  }

  /** `r` is a whole number of hundredths. */
  predicate IsCents(r: real) {
    (r * 100.0).Floor as real == r * 100.0
  }

  /**
    Python's `round(x, 2)` on an exact real: the nearest multiple of 0.01,
    ties going to the even multiple.
   */
  function Round2(x: real): (r: real)
    ensures IsCents(r)
    ensures -0.005 <= r - x <= 0.005
    ensures IsCents(x) ==> r == x
    ensures x * 100.0 - (x * 100.0).Floor as real == 0.5 ==> (r * 100.0).Floor % 2 == 0
  {
    var scaled := x * 100.0;
    var n := scaled.Floor;
    assert n as real <= scaled < n as real + 1.0;
    var frac := scaled - n as real;
    var k := if frac < 0.5 then n else if frac > 0.5 then n + 1 else if n % 2 == 0 then n else n + 1;
    assert -0.5 <= k as real - scaled <= 0.5;
    var r := k as real / 100.0;
    assert r * 100.0 == k as real;
    assert (k as real).Floor == k;
    assert r - x == (k as real - scaled) / 100.0;
    r
  }

  /** Halfway cases go to the even hundredth, as Python's `round` does. */
  lemma Round2Ties()
    ensures Round2(0.125) == 0.12
    ensures Round2(0.375) == 0.38
  {
    assert (0.125 * 100.0).Floor == 12;
    assert (0.375 * 100.0).Floor == 37;
  }

  /** Rounding never reverses the order of two values. */
  lemma Round2Monotone(x: real, y: real)
    requires x <= y
    ensures Round2(x) <= Round2(y)
  {
    var n, m := (x * 100.0).Floor, (y * 100.0).Floor;
    assert n <= m;
  }

  /** Values more than a hundredth apart stay strictly ordered after rounding. */
  lemma Round2Separates(x: real, y: real)
    requires y - x > 0.01
    ensures Round2(x) < Round2(y)
  {
  }

  /** `to_celsius`: the conversion rounded to two decimals. */
  function ToCelsius(f: real): (c: real)
    ensures IsCents(c)
    ensures -0.005 <= c - FahrenheitToCelsius(f) <= 0.005
  {
    Round2(FahrenheitToCelsius(f))
  }

  /**
    `to_celsius` is non-decreasing, and strictly increasing on inputs at
    least 1/50 of a degree apart (so on the integer readings a beacon
    reports).
   */
  lemma ToCelsiusMonotone(f: real, f': real)
    requires f <= f'
    ensures ToCelsius(f) <= ToCelsius(f')
    ensures f' - f >= 0.02 ==> ToCelsius(f) < ToCelsius(f')
  {
    Round2Monotone(FahrenheitToCelsius(f), FahrenheitToCelsius(f'));
    if f' - f >= 0.02 {
      Round2Separates(FahrenheitToCelsius(f), FahrenheitToCelsius(f'));
    }
  }

  /** Water's fixed points survive the rounding. */
  lemma ToCelsiusFixedPoints()
    ensures ToCelsius(32.0) == 0.0
    ensures ToCelsius(212.0) == 100.0
  {
    FixedPoints();
    assert IsCents(0.0) && IsCents(100.0);
  }

  /** The two-point curves and the offset hard-coded in `calibrate_SG` and `calibrate_Tc`. */
  const OrangeGravityCurve := Line(Point(1000.0, 1000.0), Point(1072.0, 1074.0))
  const PurpleGravityCurve := Line(Point(1000.0, 1000.0), Point(1074.0, 1074.0))
  const PurpleTemperatureCurve := Line(Point(20.8, 20.0), Point(21.8, 21.0))
  const OrangeTemperatureOffset := 0.3

  /** The colours with calibration curves. */
  predicate Calibrated(tilt: string) {
    tilt == "orange" || tilt == "purple"
  }

  /**
    `calibrate_SG`: the orange curve has slope 74/72 through (1000, 1000),
    the purple curve is the identity; other colours get no value.
   */
  function CalibrateSG(sg: real, tilt: string): (r: Option<real>)
    ensures r.Some? <==> Calibrated(tilt)
    ensures tilt == "orange" ==> r == Some(1000.0 + (sg - 1000.0) * 37.0 / 36.0)
    ensures tilt == "purple" ==> r == Some(sg)
  {
    if tilt == "orange" then
      Some(Y(OrangeGravityCurve, sg))
    else if tilt == "purple" then
      Some(Y(PurpleGravityCurve, sg))
    else
      None
  }

  /**
    `calibrate_Tc`: orange reads 0.3 degrees high, and purple's curve
    through (20.8, 20) and (21.8, 21) is a shift of 0.8 degrees; other
    colours get no value.
   */
  function CalibrateTc(t: real, tilt: string): (r: Option<real>)
    ensures r.Some? <==> Calibrated(tilt)
    ensures tilt == "orange" ==> r == Some(t - 0.3)
    ensures tilt == "purple" ==> r == Some(t - 0.8)
  {
    if tilt == "orange" then
      Some(t - OrangeTemperatureOffset)
    else if tilt == "purple" then
      Some(Y(PurpleTemperatureCurve, t))
    else
      None
  }

  /** The orange gravity curve corrects 1072 to the refractometer's 1074. */
  lemma OrangeGravityReferencePoints()
    ensures CalibrateSG(1000.0, "orange") == Some(1000.0)
    ensures CalibrateSG(1072.0, "orange") == Some(1074.0)
  {
  }

  /** Both calibrations are strictly increasing: a higher reading calibrates higher. */
  lemma CalibrationsIncreasing(x: real, x': real, tilt: string)
    requires x < x' && Calibrated(tilt)
    ensures CalibrateSG(x, tilt).value < CalibrateSG(x', tilt).value
    ensures CalibrateTc(x, tilt).value < CalibrateTc(x', tilt).value
  {
  }

  /**
    An orange Tilt reporting 65 degrees Fahrenheit reads 18.33 degrees
    Celsius, calibrated to 18.03.
   */
  lemma OrangeTemperatureScenario()
    ensures ToCelsius(65.0) == 18.33
    ensures CalibrateTc(ToCelsius(65.0), "orange") == Some(18.03)
  {
    var c := FahrenheitToCelsius(65.0);
    assert c * 100.0 == 1833.0 + 1.0 / 3.0;
    assert (c * 100.0).Floor == 1833;
  }

  /** A purple Tilt reporting gravity 998 calibrates to exactly 998. */
  lemma PurpleGravityScenario()
    ensures CalibrateSG(998.0, "purple") == Some(998.0)
  {
  }
}
