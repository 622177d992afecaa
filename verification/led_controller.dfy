/** The two-LED indicator: a green and a red output pin. Every operation
    writes both pins, so the two are never lit together. */
module LedController {

  /** Output levels by pin number (true = high). */
  type Pins = map<int, bool>

  /** The pin numbers of the two LEDs (they are not fixed in the pin table,
      so they are wiring parameters). */
  datatype Wiring = Wiring(green: int, red: int)

  predicate Distinct(w: Wiring) { w.green != w.red }

  predicate Opened(w: Wiring, pins: Pins) { w.green in pins && w.red in pins }

  /** Neither both LEDs are lit. */
  predicate Exclusive(w: Wiring, pins: Pins)
    requires Opened(w, pins)
  {
    !(pins[w.green] && pins[w.red])
  }

  datatype Op = SetNormalState | SetErrorState | TurnOffAll

  /** One operation: green then red are written. */
  function Apply(w: Wiring, pins: Pins, op: Op): (p: Pins)
    requires Distinct(w)
    ensures Opened(w, p) && Exclusive(w, p)
    ensures op == SetNormalState ==> p[w.green] && !p[w.red]
    ensures op == SetErrorState ==> !p[w.green] && p[w.red]
    ensures op == TurnOffAll ==> !p[w.green] && !p[w.red]
    ensures forall q | q in pins && q != w.green && q != w.red :: q in p && p[q] == pins[q]
  {
    match op
    case SetNormalState => pins[w.green := true][w.red := false]
    case SetErrorState => pins[w.green := false][w.red := true]
    case TurnOffAll => pins[w.green := false][w.red := false]
  }

  /** Construction opens both pins and sets the normal state. */
  function Init(w: Wiring, pins: Pins): (p: Pins)
    requires Distinct(w)
    ensures Opened(w, p) && p[w.green] && !p[w.red]
  {
    Apply(w, pins, SetNormalState)
  }

  /** Disposal turns both LEDs off before closing the pins. */
  function Dispose(w: Wiring, pins: Pins): (p: Pins)
    requires Distinct(w)
    ensures Opened(w, p) && !p[w.green] && !p[w.red]
  {
    Apply(w, pins, TurnOffAll)
  }

  /** A sequence of operations applied in order after construction. */
  function Run(w: Wiring, pins: Pins, ops: seq<Op>): Pins
    requires Distinct(w)
    decreases |ops|
  {
    if |ops| == 0 then pins else Run(w, Apply(w, pins, ops[0]), ops[1..])
  }

  /** From construction on, whatever operations follow, the two LEDs are
      never lit together, and the last operation decides the state. */
  lemma {:induction false} NeverBothLit(w: Wiring, pins: Pins, ops: seq<Op>)
    requires Distinct(w)
    ensures var p := Run(w, Init(w, pins), ops);
            Opened(w, p) && Exclusive(w, p)
    ensures |ops| > 0 ==>
              var p := Run(w, Init(w, pins), ops);
              p[w.green] == (ops[|ops| - 1] == SetNormalState)
              && p[w.red] == (ops[|ops| - 1] == SetErrorState)
    decreases |ops|
  {
    RunFrom(w, Init(w, pins), ops);
  }

  lemma {:induction false} RunFrom(w: Wiring, pins: Pins, ops: seq<Op>)
    requires Distinct(w)
    requires Opened(w, pins) && Exclusive(w, pins)
    ensures var p := Run(w, pins, ops);
            Opened(w, p) && Exclusive(w, p)
    ensures |ops| > 0 ==>
              var p := Run(w, pins, ops);
              p[w.green] == (ops[|ops| - 1] == SetNormalState)
              && p[w.red] == (ops[|ops| - 1] == SetErrorState)
    decreases |ops|
  {
    if |ops| > 0 {
      RunFrom(w, Apply(w, pins, ops[0]), ops[1..]);
      if |ops| > 1 {
        assert ops[1..][|ops[1..]| - 1] == ops[|ops| - 1];
      }
    }
  }
}
