/** The button monitor: a falling-edge detector over the sampled level of a
    pull-up input (high = released, low = pressed). It keeps the last level
    it saw and signals a press only on a high-to-low change. */
module ButtonMonitor {
  import opened Seqs

  /** The last level before any sample: high, the button is not pressed. */
  const InitialLastState := true

  /** The outcome of one check: whether ButtonPressed was raised, and the
      remembered level afterwards. */
  datatype Check = Check(pressed: bool, lastState: bool)

  /** One `CheckState` call on the sampled level `high`. */
  function CheckState(lastState: bool, high: bool): (r: Check)
    ensures r.pressed <==> lastState && !high
    ensures !lastState ==> !r.pressed
    ensures r.lastState == high
  {
    Check(lastState && !high, high)
  }

  /** The outcome of one check when a `ButtonPressed` subscriber may throw. */
  datatype Checked = Checked(pressed: bool, lastState: bool, threw: bool)

  /** `CheckState` with the subscriber's behaviour as a parameter: an exception
      from the subscriber leaves the check before the level is remembered. */
  function CheckStateRaising(lastState: bool, high: bool, handlerThrows: bool): (r: Checked)
    ensures r.pressed <==> lastState && !high
    ensures r.threw <==> r.pressed && handlerThrows
    ensures r.lastState == if r.threw then lastState else high
  {
    var c := CheckState(lastState, high);
    if c.pressed && handlerThrows then Checked(true, lastState, true)
    else Checked(c.pressed, c.lastState, false)
  }

  /** Without a throwing subscriber the check is exactly `CheckState`. */
  lemma QuietHandlerIsCheckState(lastState: bool, high: bool)
    ensures var r := CheckStateRaising(lastState, high, false);
            !r.threw && Check(r.pressed, r.lastState) == CheckState(lastState, high)
  {
  }

  /** A subscriber that throws on a press leaves the level remembered as high,
      so the next low sample raises the press again. */
  lemma ThrowingHandlerPressesAgain(handlerThrowsAgain: bool)
    ensures var first := CheckStateRaising(InitialLastState, false, true);
            first.pressed && first.threw
            && CheckStateRaising(first.lastState, false, handlerThrowsAgain).pressed
  {
  }

  /** The number of presses a sequence of checks raises, starting from `lastState`. */
  function Presses(lastState: bool, samples: seq<bool>): nat
    decreases |samples|
  {
    if |samples| == 0 then 0
    else
      var c := CheckState(lastState, samples[0]);
      (if c.pressed then 1 else 0) + Presses(c.lastState, samples[1..])
  }

  /** The number of adjacent high-then-low pairs in a level sequence. */
  function FallingEdges(levels: seq<bool>): nat
    decreases |levels|
  {
    if |levels| < 2 then 0
    else
      FallingEdges(levels[..|levels| - 1])
        + (if levels[|levels| - 2] && !levels[|levels| - 1] then 1 else 0)
  }

  lemma {:induction false} FallingEdgesCons(first: bool, levels: seq<bool>)
    ensures FallingEdges([first] + levels)
              == (if |levels| > 0 && first && !levels[0] then 1 else 0) + FallingEdges(levels)
    decreases |levels|
  {
    if |levels| > 0 {
      var init := levels[..|levels| - 1];
      FallingEdgesCons(first, init);
      assert ([first] + levels)[..|levels|] == [first] + init;
      if |levels| > 1 {
        assert init[0] == levels[0];
      }
    }
  }

  /** The presses raised over any run equal the falling edges of the levels
      seen, counting the remembered level as the first. */
  lemma {:induction false} PressesCountFallingEdges(lastState: bool, samples: seq<bool>)
    ensures Presses(lastState, samples) == FallingEdges([lastState] + samples)
    decreases |samples|
  {
    FallingEdgesCons(lastState, samples);
    if |samples| > 0 {
      PressesCountFallingEdges(samples[0], samples[1..]);
      FallingEdgesCons(samples[0], samples[1..]);
      assert [samples[0]] + samples[1..] == samples;
    }
  }

  /** The monitor object over a run of samples: the checks are applied in
      order to the remembered level. */
  method CountPresses(samples: seq<bool>) returns (presses: nat, lastState: bool)
    ensures presses == FallingEdges([InitialLastState] + samples)
    ensures lastState == if |samples| == 0 then InitialLastState else samples[|samples| - 1]
  {
    presses := 0;
    lastState := InitialLastState;
    var i := 0;
    while i < |samples|
      invariant 0 <= i <= |samples|
      invariant lastState == ([InitialLastState] + samples)[i]
      invariant presses == FallingEdges(([InitialLastState] + samples)[..i + 1])
    {
      var c := CheckState(lastState, samples[i]);
      if c.pressed {
        presses := presses + 1;
      }
      lastState := c.lastState;
      i := i + 1;
      assert ([InitialLastState] + samples)[..i + 1][..i] == ([InitialLastState] + samples)[..i];
    }
    assert ([InitialLastState] + samples)[..|samples| + 1] == [InitialLastState] + samples;
  }

  /** A level that never leaves high raises no press. */
  lemma {:induction false} ConstantHighNeverPresses(n: nat)
    ensures Presses(InitialLastState, Repeat(true, n)) == 0
    decreases n
  {
    if n > 0 {
      ConstantHighNeverPresses(n - 1);
      assert Repeat(true, n)[1..] == Repeat(true, n - 1);
    }
  }

  /** Holding the button down for any number of samples is never a second press. */
  lemma {:induction false} HeldLowNeverPresses(n: nat)
    ensures Presses(false, Repeat(false, n)) == 0
    decreases n
  {
    if n > 0 {
      HeldLowNeverPresses(n - 1);
      assert Repeat(false, n)[1..] == Repeat(false, n - 1);
    }
  }

  /** From released, holding the button down for `n >= 1` samples raises exactly one press. */
  lemma HeldLowPressesOnce(n: nat)
    requires n >= 1
    ensures Presses(InitialLastState, Repeat(false, n)) == 1
  {
    HeldLowNeverPresses(n - 1);
    assert Repeat(false, n)[1..] == Repeat(false, n - 1);
  }
}
