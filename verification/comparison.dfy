/** The verdict of `findOut`: is the user warmer than Ryan? */
module Comparison {
  import opened Wrappers
  import Temperature
  import Weather

  /** Which result element `findOut` reveals. */
  datatype Verdict = Success | NotSuccess

  /** `if (my > ryan) success else if (my <= ryan) not success`; when neither
      test holds nothing is revealed (`None`). `celsiusTemps[0]` is Ryan's
      temperature and `celsiusTemps[1]` the user's. */
  function FindOutVerdict(ryanCelsius: real, myCelsius: real): (v: Option<Verdict>)
    ensures v.Some?
    ensures v.Some? && v.value == Success <==> myCelsius > ryanCelsius
    ensures v.Some? && v.value == NotSuccess <==> myCelsius <= ryanCelsius
  {
    if myCelsius > ryanCelsius then Some(Success)
    else if myCelsius <= ryanCelsius then Some(NotSuccess)
    else None
  }

  /** A tie is not a success. */
  lemma TieIsNotSuccess(t: real)
    ensures FindOutVerdict(t, t) == Some(NotSuccess)
  {
  }

  /** Swapping the two people: both can not be warmer, and with distinct
      temperatures exactly one of them is. */
  lemma VerdictSwap(a: real, b: real)
    ensures !(FindOutVerdict(a, b) == Some(Success) && FindOutVerdict(b, a) == Some(Success))
    ensures a != b ==> (FindOutVerdict(a, b) == Some(Success) <==> FindOutVerdict(b, a) == Some(NotSuccess))
  {
  }

  lemma VerdictExamples()
    ensures FindOutVerdict(15.0, 20.0) == Some(Success)
    ensures FindOutVerdict(15.0, 15.0) == Some(NotSuccess)
    ensures FindOutVerdict(15.0, 10.0) == Some(NotSuccess)
  {
  }

  /** One complete run from the two weather readings (Ryan's first), as
      `findOut` sees it once both branches have resolved. */
  function CompareReadings(ryan: Weather.WeatherReading, mine: Weather.WeatherReading): (v: Verdict)
    ensures v == Success <==>
              Temperature.KelvinToCelsius(mine.kelvin) > Temperature.KelvinToCelsius(ryan.kelvin)
  {
    var ryanDisplay := Weather.RenderWeather(ryan);
    var myDisplay := Weather.RenderWeather(mine);
    FindOutVerdict(ryanDisplay.celsius, myDisplay.celsius).value
  }

  /** Rounding never inverts the order: a reading that is not warmer in
      Kelvin is never reported as warmer, and one at least a hundredth of a
      degree warmer always is. */
  lemma CompareReadingsRespectsKelvin(ryan: Weather.WeatherReading, mine: Weather.WeatherReading)
    ensures mine.kelvin <= ryan.kelvin ==> CompareReadings(ryan, mine) == NotSuccess
    ensures mine.kelvin >= ryan.kelvin + 0.01 ==> CompareReadings(ryan, mine) == Success
  {
    if mine.kelvin <= ryan.kelvin {
      Temperature.KelvinToCelsiusMonotonic(mine.kelvin, ryan.kelvin);
    }
    if mine.kelvin >= ryan.kelvin + 0.01 {
      Temperature.KelvinToCelsiusShift(ryan.kelvin);
      Temperature.KelvinToCelsiusMonotonic(ryan.kelvin + 0.01, mine.kelvin);
    }
  }

  /** The comparison is made on the rounded values, so a strictly warmer
      reading can tie: 300.004 K and 300 K both display 26.85. */
  lemma RoundingCanHideDifference()
    ensures CompareReadings(Weather.WeatherReading("", "", 300.0),
                            Weather.WeatherReading("", "", 300.004)) == NotSuccess
  {
    assert Temperature.KelvinToCelsius(300.004) == 26.85;
    Temperature.KelvinToCelsiusExamples();
  }
}
