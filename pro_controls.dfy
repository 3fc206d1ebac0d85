/**
 * Pro-mode manual settings: the settings record, the labels the four
 * sliders show, and the record update each slider performs.
 *
 * The exposure compensation is kept in tenths of a stop (the EV slider moves
 * in steps of 0.1 between -3 and 3, i.e. -30..30 tenths).
 */
module ProControls {
  import opened Text

  datatype ProSettings = ProSettings(iso: int, shutter: int, whiteBalance: int, exposure: int)

  /** The settings the camera screen starts with. */
  const DefaultSettings := ProSettings(200, 5, 5500, 0)

  /** Shutter-speed denominators, indexed by the shutter slider. */
  const ShutterValues: seq<nat> := [1000, 500, 250, 125, 60, 30, 15, 8, 4, 2, 1]

  lemma ShutterValuesShape()
    ensures |ShutterValues| == 11
    ensures ShutterValues[0] == 1000 && ShutterValues[10] == 1
    ensures forall i, j :: 0 <= i < j < |ShutterValues| ==> ShutterValues[i] > ShutterValues[j]
  {
  }

  /**
   * The shutter label: "1/<denominator>" for a fast speed, "1s" for the
   * one-second entry, and "1s" for an index outside the table.
   */
  function FormatShutter(index: int): (r: string)
    ensures 0 <= index < 10 ==> r == "1/" + NatText(ShutterValues[index])
    ensures (index == 10 || index < 0 || index >= |ShutterValues|) ==> r == "1s"
  {
    if 0 <= index < |ShutterValues| && ShutterValues[index] != 0 then
      if ShutterValues[index] == 1 then "1s" else "1/" + NatText(ShutterValues[index])
    else "1s"
  }

  /** Distinct slider positions show distinct labels. */
  lemma FormatShutterInjective(i: int, j: int)
    requires 0 <= i < |ShutterValues| && 0 <= j < |ShutterValues|
    ensures FormatShutter(i) == FormatShutter(j) ==> i == j
  {
    ShutterValuesShape();
    if i != j && i < 10 && j < 10 {
      var a, b := NatText(ShutterValues[i]), NatText(ShutterValues[j]);
      if FormatShutter(i) == FormatShutter(j) {
        assert a == FormatShutter(i)[2..] == FormatShutter(j)[2..] == b;
        NatTextInjective(ShutterValues[i], ShutterValues[j]);
      }
    } else if i != j && i < 10 {
      assert FormatShutter(i)[1] == '/' != FormatShutter(j)[1];
    } else if i != j && j < 10 {
      assert FormatShutter(j)[1] == '/' != FormatShutter(i)[1];
    }
  }

  /** The white-balance label: the temperature in decimal followed by "K". */
  function FormatWB(v: int): (r: string)
    ensures |r| >= 2 && r[|r| - 1] == 'K'
    ensures v >= 0 ==> AllDigits(r[..|r| - 1]) && Value(r[..|r| - 1]) == v
    ensures r[0] == '-' <==> v < 0
    ensures r[0] == '0' ==> v == 0
  {
    IntText(v) + "K"
  }

  /** The exposure label: the value in stops, with an explicit "+" unless it is negative. */
  function FormatExposure(tenths: int): (r: string)
    ensures |r| >= 2
    ensures r[0] == '+' <==> tenths >= 0
    ensures r[0] == '-' <==> tenths < 0
    ensures r[0] == '+' ==> r[1..] == FixedText(tenths, 1)
    ensures r[0] == '-' ==> r == FixedText(tenths, 1)
  {
    if tenths >= 0 then "+" + FixedText(tenths, 1) else FixedText(tenths, 1)
  }

  lemma FormatExposureExamples()
    ensures FormatExposure(0) == "+0"
    ensures FormatExposure(5) == "+0.5"
    ensures FormatExposure(-10) == "-1"
    ensures FormatExposure(-25) == "-2.5"
  {
    assert NatText(0) == "0" && NatText(1) == "1" && NatText(2) == "2" && NatText(5) == "5";
    assert PadStart("5", 1, '0') == "5" && DropTrailingZeros("5") == "5";
  }

  /** The four sliders. */
  datatype Field = Iso | Shutter | WhiteBalance | Exposure

  function Get(s: ProSettings, f: Field): int
  {
    match f
    case Iso => s.iso
    case Shutter => s.shutter
    case WhiteBalance => s.whiteBalance
    case Exposure => s.exposure
  }

  /** The positions each slider can report: its declared minimum, maximum and step. */
  predicate InRange(f: Field, v: int)
  {
    match f
    case Iso => 100 <= v <= 3200 && v % 100 == 0
    case Shutter => 0 <= v <= 10
    case WhiteBalance => 2000 <= v <= 8000 && v % 100 == 0
    case Exposure => -30 <= v <= 30
  }

  predicate ValidSettings(s: ProSettings)
  {
    forall f: Field :: InRange(f, Get(s, f))
  }

  /** The record a slider reports when moved to `v`: a copy of `s` with one field replaced. */
  function OnSliderChange(s: ProSettings, f: Field, v: int): (r: ProSettings)
    requires InRange(f, v)
    ensures Get(r, f) == v
    ensures forall g: Field :: g != f ==> Get(r, g) == Get(s, g)
    ensures ValidSettings(s) ==> ValidSettings(r)
  {
    match f
    case Iso => s.(iso := v)
    case Shutter => s.(shutter := v)
    case WhiteBalance => s.(whiteBalance := v)
    case Exposure => s.(exposure := v)
  }

  /** Moving two different sliders gives the same record in either order. */
  lemma SliderChangesCommute(s: ProSettings, f: Field, v: int, g: Field, w: int)
    requires InRange(f, v) && InRange(g, w) && f != g
    ensures OnSliderChange(OnSliderChange(s, f, v), g, w) == OnSliderChange(OnSliderChange(s, g, w), f, v)
  {
  }

  lemma DefaultSettingsValid()
    ensures ValidSettings(DefaultSettings)
    ensures FormatShutter(DefaultSettings.shutter) == "1/30"
  {
    assert NatText(30) == "30";
  }
}
