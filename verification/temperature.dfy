/** The two temperature formulas of the page: Kelvin to Celsius when a
    weather reading is displayed, and Celsius to Fahrenheit when the units
    are switched. Both are over exact reals. */
module Temperature {
  import Js

  /** The Kelvin reading of 0 degrees Celsius. */
  const ZeroCelsiusInKelvin: real := 273.15

  /** `x` has at most two decimal places. */
  predicate IsHundredths(x: real) {
    (x * 100.0).Floor as real == x * 100.0
  }

  /** `Math.round((K - 273.15) * 100) / 100`: the exact Celsius value rounded
      to the nearest hundredth, a half-hundredth rounding up. */
  function KelvinToCelsius(k: real): (c: real)
    ensures IsHundredths(c)
    ensures -0.005 < c - (k - ZeroCelsiusInKelvin) <= 0.005
  {
    Js.MathRound((k - ZeroCelsiusInKelvin) * 100.0) as real / 100.0
  }

  /** `Math.floor((C * 1.8 + 32) * 100) / 100`: the exact Fahrenheit value cut
      down to a hundredth, never rounded up. */
  function CelsiusToFahrenheit(c: real): (f: real)
    ensures IsHundredths(f)
    ensures c * 1.8 + 32.0 - 0.01 < f <= c * 1.8 + 32.0
  {
    Js.MathFloor((c * 1.8 + 32.0) * 100.0) as real / 100.0
  }

  /** The Celsius conversion is the one hundredth in (exact - 0.005,
      exact + 0.005]: a reference definition that does not mention rounding. */
  lemma KelvinToCelsiusCharacterized(k: real, c: real)
    ensures KelvinToCelsius(k) == c <==>
              IsHundredths(c) && -0.005 < c - (k - ZeroCelsiusInKelvin) <= 0.005
  {
    if IsHundredths(c) && -0.005 < c - (k - ZeroCelsiusInKelvin) <= 0.005 {
      var n := (c * 100.0).Floor;
      Js.MathRoundUnique((k - ZeroCelsiusInKelvin) * 100.0, n);
    }
  }

  /** The Fahrenheit conversion is the greatest hundredth not above the exact
      value. */
  lemma CelsiusToFahrenheitCharacterized(c: real, f: real)
    ensures CelsiusToFahrenheit(c) == f <==>
              IsHundredths(f) && c * 1.8 + 32.0 - 0.01 < f <= c * 1.8 + 32.0
  {
    if IsHundredths(f) && c * 1.8 + 32.0 - 0.01 < f <= c * 1.8 + 32.0 {
      var n := (f * 100.0).Floor;
      assert n as real <= (c * 1.8 + 32.0) * 100.0 < n as real + 1.0;
    }
  }

  lemma HundredthsMonotonic(n1: int, n2: int)
    requires n1 <= n2
    ensures n1 as real / 100.0 <= n2 as real / 100.0
  {
  }

  /** A warmer reading never displays as a colder Celsius value. */
  lemma KelvinToCelsiusMonotonic(k1: real, k2: real)
    requires k1 <= k2
    ensures KelvinToCelsius(k1) <= KelvinToCelsius(k2)
  {
    var x1 := (k1 - ZeroCelsiusInKelvin) * 100.0;
    var x2 := (k2 - ZeroCelsiusInKelvin) * 100.0;
    Js.MathRoundMonotonic(x1, x2);
    HundredthsMonotonic(Js.MathRound(x1), Js.MathRound(x2));
  }

  lemma CelsiusToFahrenheitMonotonic(c1: real, c2: real)
    requires c1 <= c2
    ensures CelsiusToFahrenheit(c1) <= CelsiusToFahrenheit(c2)
  {
    var x1 := (c1 * 1.8 + 32.0) * 100.0;
    var x2 := (c2 * 1.8 + 32.0) * 100.0;
    Js.MathFloorMonotonic(x1, x2);
    HundredthsMonotonic(Js.MathFloor(x1), Js.MathFloor(x2));
  }

  /** A hundredth of a degree more in Kelvin shows exactly a hundredth more
      in Celsius. */
  lemma KelvinToCelsiusShift(k: real)
    ensures KelvinToCelsius(k + 0.01) == KelvinToCelsius(k) + 0.01
  {
    var x := (k - ZeroCelsiusInKelvin) * 100.0;
    assert (k + 0.01 - ZeroCelsiusInKelvin) * 100.0 == x + 1.0;
    Js.MathRoundShift(x);
  }

  lemma KelvinToCelsiusExamples()
    ensures KelvinToCelsius(300.0) == 26.85
    ensures KelvinToCelsius(273.15) == 0.0
    ensures KelvinToCelsius(0.0) == -273.15
  {
  }

  lemma CelsiusToFahrenheitExamples()
    ensures CelsiusToFahrenheit(0.0) == 32.0
    ensures CelsiusToFahrenheit(100.0) == 212.0
    ensures CelsiusToFahrenheit(-40.0) == -40.0
  {
  }

  /** The two conversions round differently: 0.01 degrees Celsius is exactly
      32.018 degrees Fahrenheit, which displays as 32.01 where rounding to the
      nearest hundredth would give 32.02. */
  lemma FahrenheitTruncates()
    ensures CelsiusToFahrenheit(0.01) == 32.01
    ensures Js.MathRound((0.01 * 1.8 + 32.0) * 100.0) as real / 100.0 == 32.02
  {
  }
}
