/** The RGB indicator: three output pins, each colour a fixed triple of
    levels. Every setter writes all three pins, so the indicator shows the
    colour of the last call whatever came before. */
module RgbLed {
  import opened Wrappers

  /** The BCM pin numbers of the three channels. */
  const RgbRed := 17
  const RgbGreen := 27
  const RgbBlue := 22

  /** Output levels by pin number (true = high). */
  type Pins = map<int, bool>

  datatype RgbColor = Green | Red | Blue | Purple | Yellow | Off

  /** The levels of the red, green and blue channels. */
  datatype Levels = Levels(red: bool, green: bool, blue: bool)

  /** The colour table of the setters. */
  function LevelsOf(c: RgbColor): Levels {
    match c
    case Green => Levels(false, true, false)
    case Red => Levels(true, false, false)
    case Blue => Levels(false, false, true)
    case Purple => Levels(true, false, true)
    case Yellow => Levels(true, true, false)
    case Off => Levels(false, false, false)
  }

  /** The colour a triple of levels shows, if it is one of the table's. */
  function ColorOf(l: Levels): Option<RgbColor> {
    match l
    case Levels(false, true, false) => Some(Green)
    case Levels(true, false, false) => Some(Red)
    case Levels(false, false, true) => Some(Blue)
    case Levels(true, false, true) => Some(Purple)
    case Levels(true, true, false) => Some(Yellow)
    case Levels(false, false, false) => Some(Off)
    case _ => None
  }

  /** The colour table is one-to-one: the levels determine the colour, and
      only the table's triples name a colour. */
  lemma ColorTableRoundTrip(c: RgbColor, l: Levels)
    ensures ColorOf(LevelsOf(c)) == Some(c)
    ensures ColorOf(l) == Some(c) ==> LevelsOf(c) == l
  {
  }

  /** The three channel pins are open. */
  predicate Opened(pins: Pins) {
    RgbRed in pins && RgbGreen in pins && RgbBlue in pins
  }

  /** The colour the pins currently show, if any. */
  function Shown(pins: Pins): Option<RgbColor>
    requires Opened(pins)
  {
    ColorOf(Levels(pins[RgbRed], pins[RgbGreen], pins[RgbBlue]))
  }

  /** A setter (`SetGreen`, `SetRed`, `SetBlue`, `SetPurple`, `SetYellow`,
      `TurnOff`): writes red, green and blue in that order. */
  function Show(pins: Pins, c: RgbColor): (p: Pins)
    ensures Opened(p)
    ensures Shown(p) == Some(c)
    ensures p.Keys == pins.Keys + {RgbRed, RgbGreen, RgbBlue}
    ensures forall q | q in pins && q !in {RgbRed, RgbGreen, RgbBlue} :: p[q] == pins[q]
  {
    var l := LevelsOf(c);
    ColorTableRoundTrip(c, l);
    pins[RgbRed := l.red][RgbGreen := l.green][RgbBlue := l.blue]
  }

  /** Only the last setter matters: it overrides whatever the one before wrote. */
  lemma LastSetterWins(pins: Pins, first: RgbColor, second: RgbColor)
    ensures Show(Show(pins, first), second) == Show(pins, second)
  {
  }

  /** Calling a setter twice leaves the pins as calling it once. */
  lemma SetterIdempotent(pins: Pins, c: RgbColor)
    ensures Show(Show(pins, c), c) == Show(pins, c)
  {
    LastSetterWins(pins, c, c);
  }

  /** Construction opens the three pins and shows green. */
  function Init(pins: Pins): (p: Pins)
    ensures Opened(p) && Shown(p) == Some(Green)
    ensures p[RgbRed] == false && p[RgbGreen] == true && p[RgbBlue] == false
  {
    Show(pins, Green)
  }

  /** The colour shown for a sensor in error. */
  function SensorColor(sensorId: string): RgbColor {
    if sensorId == "SENSOR-001" then Red
    else if sensorId == "SENSOR-002" then Blue
    else Yellow
  }

  /** `SetColorForSensor`: red for SENSOR-001, blue for SENSOR-002, yellow otherwise. */
  function SetColorForSensor(pins: Pins, sensorId: string): (p: Pins)
    ensures Opened(p)
    ensures sensorId == "SENSOR-001" ==> Shown(p) == Some(Red)
    ensures sensorId == "SENSOR-002" ==> Shown(p) == Some(Blue)
    ensures sensorId != "SENSOR-001" && sensorId != "SENSOR-002" ==> Shown(p) == Some(Yellow)
  {
    Show(pins, SensorColor(sensorId))
  }

  /** Disposal turns the indicator off before closing the pins: all three end low. */
  function Dispose(pins: Pins): (p: Pins)
    ensures Opened(p)
    ensures !p[RgbRed] && !p[RgbGreen] && !p[RgbBlue]
  {
    Show(pins, Off)
  }
}
