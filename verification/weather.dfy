/** What one branch of the comparison shows once its weather reading has
    arrived: the Celsius temperature, the icon and the capitalised
    description. */
module Weather {
  import Js
  import Temperature

  /** The part of the weather service's answer the page reads: the first
      condition's description and icon, and the temperature in Kelvin. */
  datatype WeatherReading = WeatherReading(description: string, icon: string, kelvin: real)

  datatype BranchDisplay = BranchDisplay(celsius: real, iconUrl: string, description: string)

  const IconBase: string := "https://openweathermap.org/img/w/"

  /** `description.charAt(0).toUpperCase() + description.slice(1)`. */
  function Capitalize(s: string): (r: string)
    ensures |r| == |s|
    ensures s == [] ==> r == []
    ensures |s| > 0 ==> r[0] == Js.UpperAscii(s[0]) && !Js.IsLowerAscii(r[0])
    ensures forall i :: 1 <= i < |s| ==> r[i] == s[i]
  {
    Js.ToUpperCase(Js.CharAt(s, 0)) + Js.Slice(s, 1, |s|)
  }

  /** A description is left alone exactly when it is empty or does not start
      with a lower-case letter. */
  lemma CapitalizeFixedPoints(s: string)
    ensures Capitalize(s) == s <==> s == [] || !Js.IsLowerAscii(s[0])
  {
    if s != [] && !Js.IsLowerAscii(s[0]) {
      assert Capitalize(s)[0] == s[0];
    }
  }

  lemma CapitalizeIdempotent(s: string)
    ensures Capitalize(Capitalize(s)) == Capitalize(s)
  {
    CapitalizeFixedPoints(Capitalize(s));
  }

  lemma CapitalizeExamples()
    ensures Capitalize("clear sky") == "Clear sky"
    ensures Capitalize("") == ""
    ensures Capitalize("Rain") == "Rain"
  {
    CapitalizeFixedPoints("Rain");
    assert Capitalize("clear sky")[0] == 'C';
  }

  /** The display updates of `calculateRyanWeather` and `calculateMyWeather`
      once their weather reading is in. */
  function RenderWeather(w: WeatherReading): (d: BranchDisplay)
    ensures Temperature.IsHundredths(d.celsius)
    ensures -0.005 < d.celsius - (w.kelvin - Temperature.ZeroCelsiusInKelvin) <= 0.005
    ensures |d.description| == |w.description|
    ensures IconBase <= d.iconUrl
    ensures d.celsius == Temperature.KelvinToCelsius(w.kelvin)
    ensures d.description == Capitalize(w.description)
    ensures d.iconUrl == IconBase + w.icon + ".png"
  {
    BranchDisplay(Temperature.KelvinToCelsius(w.kelvin),
                  IconBase + w.icon + ".png",
                  Capitalize(w.description))
  }

  lemma RenderClearSky()
    ensures RenderWeather(WeatherReading("clear sky", "01d", 300.0))
         == BranchDisplay(26.85, "https://openweathermap.org/img/w/01d.png", "Clear sky")
  {
    CapitalizeExamples();
    Temperature.KelvinToCelsiusExamples();
  }
}
