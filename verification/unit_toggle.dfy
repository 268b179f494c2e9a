/** `changeUnits` and the page state it works on: the units label, the two
    displayed temperatures, and the two globals that keep the Celsius values
    captured at the first switch. */
module UnitToggle {
  import opened Wrappers
  import Temperature

  /** `tempUnits` is the label's text; `myCels` and `ryanCels` are the
      globals `window.myWeatherCels` and `window.ryanWeatherCels`, `None`
      while still undefined. */
  datatype Page = Page(tempUnits: string, myTemp: real, ryanTemp: real,
                       myCels: Option<real>, ryanCels: Option<real>)

  const Celsius: string := "C"
  const Fahrenheit: string := "F"

  predicate HasBaseline(p: Page) {
    p.myCels.Some? && p.ryanCels.Some?
  }

  /** The page as first loaded: Celsius shown, nothing captured yet. */
  function InitialPage(myTemp: real, ryanTemp: real): (p: Page)
    ensures p.tempUnits == Celsius && !HasBaseline(p)
  {
    Page(Celsius, myTemp, ryanTemp, None, None)
  }

  /** The first step of `changeUnits`: when either global is still unset,
      both are taken from what is displayed; otherwise nothing changes. */
  function CaptureBaseline(p: Page): (q: Page)
    ensures HasBaseline(q)
    ensures HasBaseline(p) ==> q == p
    ensures !HasBaseline(p) ==> q == p.(myCels := Some(p.myTemp), ryanCels := Some(p.ryanTemp))
  {
    if p.myCels.None? || p.ryanCels.None? then
      p.(myCels := Some(p.myTemp), ryanCels := Some(p.ryanTemp))
    else
      p
  }

  /** `changeUnits`: from Celsius, show the Fahrenheit value of the baseline;
      from any other label, show the baseline itself. */
  function ChangeUnits(p: Page): (q: Page)
    ensures HasBaseline(q)
    ensures q.myCels == CaptureBaseline(p).myCels && q.ryanCels == CaptureBaseline(p).ryanCels
    ensures p.tempUnits == Celsius ==>
              && q.tempUnits == Fahrenheit
              && q.myTemp == Temperature.CelsiusToFahrenheit(q.myCels.value)
              && q.ryanTemp == Temperature.CelsiusToFahrenheit(q.ryanCels.value)
    ensures p.tempUnits != Celsius ==>
              q.tempUnits == Celsius && q.myTemp == q.myCels.value && q.ryanTemp == q.ryanCels.value
  {
    var b := CaptureBaseline(p);
    if b.tempUnits == Celsius then
      b.(tempUnits := Fahrenheit,
         myTemp := Temperature.CelsiusToFahrenheit(b.myCels.value),
         ryanTemp := Temperature.CelsiusToFahrenheit(b.ryanCels.value))
    else
      b.(tempUnits := Celsius, myTemp := b.myCels.value, ryanTemp := b.ryanCels.value)
  }

  /** The part of `resetElements` that concerns the units: the label goes
      back to Celsius and the captured globals stay as they are. */
  function ResetElements(p: Page): (q: Page)
    ensures q.tempUnits == Celsius
    ensures q.myCels == p.myCels && q.ryanCels == p.ryanCels
    ensures q.myTemp == p.myTemp && q.ryanTemp == p.ryanTemp
  {
    p.(tempUnits := Celsius)
  }

  /** Every user-visible step that touches this state. */
  datatype Action =
    | ChangeUnitsClick
    | Reset                                   // resetElements, from findOut or errorReceived
    | ShowCelsius(ryanC: real, myC: real)     // the two branches display their Celsius values

  function Step(p: Page, a: Action): Page {
    match a
    case ChangeUnitsClick => ChangeUnits(p)
    case Reset => ResetElements(p)
    case ShowCelsius(ryanC, myC) => p.(myTemp := myC, ryanTemp := ryanC)
  }

  function Run(p: Page, actions: seq<Action>): Page
    decreases |actions|
  {
    if |actions| == 0 then p else Run(Step(p, actions[0]), actions[1..])
  }

  /** A comparison run: `findOut` resets the page, and the two branches then
      display their new Celsius temperatures. */
  function FindOut(p: Page, ryanC: real, myC: real): (q: Page)
    ensures q.tempUnits == Celsius && q.myTemp == myC && q.ryanTemp == ryanC
    ensures q.myCels == p.myCels && q.ryanCels == p.ryanCels
  {
    Step(Step(p, Reset), ShowCelsius(ryanC, myC))
  }

  /** Each switch flips the label between the two units. */
  lemma ChangeUnitsFlips(p: Page)
    ensures ChangeUnits(p).tempUnits == (if p.tempUnits == Celsius then Fahrenheit else Celsius)
    ensures ChangeUnits(p).tempUnits != p.tempUnits
  {
  }

  /** Switching twice from Celsius shows exactly the captured Celsius values
      again: Fahrenheit is never converted back, so nothing drifts. */
  lemma TwoSwitchesRestore(p: Page)
    requires p.tempUnits == Celsius
    ensures var q := ChangeUnits(ChangeUnits(p));
            && q.tempUnits == Celsius
            && q == CaptureBaseline(p).(myTemp := q.myCels.value, ryanTemp := q.ryanCels.value)
    ensures HasBaseline(p) ==>
              ChangeUnits(ChangeUnits(p)).myTemp == p.myCels.value
              && ChangeUnits(ChangeUnits(p)).ryanTemp == p.ryanCels.value
    ensures !HasBaseline(p) ==> ChangeUnits(ChangeUnits(p)) == CaptureBaseline(p)
  {
  }

  /** The very first pair of switches on a fresh page returns the page to
      what was displayed, with the baseline now captured. */
  lemma FirstTwoSwitches(myC: real, ryanC: real)
    ensures var q := ChangeUnits(ChangeUnits(InitialPage(myC, ryanC)));
            q.tempUnits == Celsius && q.myTemp == myC && q.ryanTemp == ryanC
            && q.myCels == Some(myC) && q.ryanCels == Some(ryanC)
  {
    TwoSwitchesRestore(InitialPage(myC, ryanC));
  }

  function SwitchTimes(p: Page, n: nat): Page {
    if n == 0 then p else ChangeUnits(SwitchTimes(p, n - 1))
  }

  /** Any number of switches from Celsius with a captured baseline: the
      baseline never moves, an even count shows it in Celsius and an odd
      count shows its Fahrenheit value. */
  lemma {:induction false} SwitchParity(p: Page, n: nat)
    requires HasBaseline(p) && p.tempUnits == Celsius
    ensures var q := SwitchTimes(p, n);
            && q.myCels == p.myCels && q.ryanCels == p.ryanCels
            && (n % 2 == 0 ==> n > 0 ==>
                  q.tempUnits == Celsius && q.myTemp == p.myCels.value && q.ryanTemp == p.ryanCels.value)
            && (n % 2 == 1 ==>
                  && q.tempUnits == Fahrenheit
                  && q.myTemp == Temperature.CelsiusToFahrenheit(p.myCels.value)
                  && q.ryanTemp == Temperature.CelsiusToFahrenheit(p.ryanCels.value))
  {
    if n > 0 {
      SwitchParity(p, n - 1);
      var prev := SwitchTimes(p, n - 1);
      assert n - 1 == 0 ==> prev == p;
      assert HasBaseline(prev);
    }
  }

  /** Once both globals are set, no later sequence of switches, resets or
      new temperatures changes them. */
  lemma {:induction false} BaselinePersists(p: Page, actions: seq<Action>)
    requires HasBaseline(p)
    ensures Run(p, actions).myCels == p.myCels && Run(p, actions).ryanCels == p.ryanCels
    decreases |actions|
  {
    if |actions| > 0 {
      var next := Step(p, actions[0]);
      assert next.myCels == p.myCels && next.ryanCels == p.ryanCels;
      BaselinePersists(next, actions[1..]);
    }
  }

  /** A second comparison run does not refresh the baseline: switching to
      Fahrenheit afterwards converts the first run's temperatures, and
      switching back shows them instead of the new ones. */
  lemma StaleBaselineAfterNewRun(p: Page, ryanC: real, myC: real)
    requires HasBaseline(p)
    ensures var q := ChangeUnits(FindOut(p, ryanC, myC));
            && q.tempUnits == Fahrenheit
            && q.myTemp == Temperature.CelsiusToFahrenheit(p.myCels.value)
            && q.ryanTemp == Temperature.CelsiusToFahrenheit(p.ryanCels.value)
    ensures var q := ChangeUnits(ChangeUnits(FindOut(p, ryanC, myC)));
            q.myTemp == p.myCels.value && q.ryanTemp == p.ryanCels.value
  {
  }

  /** The stale baseline is visible: after a run that showed 10 and 20
      degrees and a new run that shows 30 and 40, two switches bring back
      10 and 20. */
  lemma StaleBaselineExample()
    ensures var first := ChangeUnits(FindOut(InitialPage(0.0, 0.0), 20.0, 10.0));
            var q := ChangeUnits(ChangeUnits(FindOut(first, 40.0, 30.0)));
            q.myTemp == 10.0 && q.ryanTemp == 20.0
  {
    var first := ChangeUnits(FindOut(InitialPage(0.0, 0.0), 20.0, 10.0));
    StaleBaselineAfterNewRun(first, 40.0, 30.0);
  }
}
