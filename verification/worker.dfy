/** The background worker's change detector. Each loop iteration draws an
    integer in [0, 100), maps it to an LED colour, and calls the orchestrator
    only when the colour differs from the previous one. The previous colour is
    replaced only after the handler returns, so a failed call is retried by the
    next differing sample. */
module Worker {
  import opened Wrappers
  import opened Domain
  import opened Seqs
  import O = Orchestrator

  /** The sensor id used when the configuration names none. */
  const DefaultSensorId := "RASPBERRY-DEMO-001"

  /** The actor recorded on every transition the worker causes. */
  const WorkerTrigger := "worker"

  /** The previous colour when the worker starts. */
  const InitialLedState: LedColor := Green

  /** The configured sensor id, or the default when the setting is absent. */
  function ConfiguredSensorId(configured: Option<string>): (id: string)
    ensures configured.Some? ==> id == configured.value
    ensures configured.None? ==> id == DefaultSensorId
  {
    match configured
    case Some(v) => v
    case None => DefaultSensorId
  }

  /** The simulated GPIO reading for a draw `value` of `Random.Next(100)`. */
  function SimulateGpioRead(value: int): (c: LedColor)
    ensures c == Green <==> value < 80
    ensures c == Red <==> 80 <= value < 95
    ensures c == Off <==> 95 <= value
  {
    if value < 80 then Green
    else if value < 95 then Red
    else Off
  }

  /** The orchestrator call a sample causes: none when the colour is
      unchanged or back to green, ErrorDetected on red, RebootStarted on off. */
  function Decide(previous: LedColor, current: LedColor): (call: Option<EventType>)
    ensures call.Some? <==> current != previous && current != Green
    ensures call == Some(ErrorDetected) <==> current != previous && current == Red
    ensures call == Some(RebootStarted) <==> current != previous && current == Off
  {
    if current == previous then None
    else
      match current
      case Red => Some(ErrorDetected)
      case Off => Some(RebootStarted)
      case Green => None
  }

  /** One iteration's effect: the new previous colour, the store afterwards,
      the call made, and whether that call threw. */
  datatype Iteration = Iteration(previous: LedColor, db: O.Db, call: Option<EventType>, failed: bool)

  /** One pass of the loop body for the draw `value`. */
  function Iterate(previous: LedColor, value: int, db: O.Db, sensorId: string, env: O.Env): (r: Iteration)
    requires O.Valid(db)
    ensures O.Valid(r.db)
    ensures SimulateGpioRead(value) == previous ==> r == Iteration(previous, db, None, false)
    ensures SimulateGpioRead(value) == Green && previous != Green ==> r == Iteration(Green, db, None, false)
    ensures SimulateGpioRead(value) == Red && previous != Red ==>
              var o := O.HandleErrorDetected(db, sensorId, WorkerTrigger, env);
              r.call == Some(ErrorDetected) && r.db == o.db && r.failed == o.fault.Some?
    ensures SimulateGpioRead(value) == Off && previous != Off ==>
              var o := O.HandleRebootStarted(db, sensorId, WorkerTrigger, env);
              r.call == Some(RebootStarted) && r.db == o.db && r.failed == o.fault.Some?
    ensures r.call == Decide(previous, SimulateGpioRead(value))
    ensures r.failed ==> r.previous == previous && r.call.Some?
    ensures !r.failed ==> r.previous == SimulateGpioRead(value)
  {
    var current := SimulateGpioRead(value);
    match Decide(previous, current)
    case None => Iteration(current, db, None, false)
    case Some(t) =>
      var o := O.Handle(db, t, sensorId, WorkerTrigger, env);
      if o.fault.Some? then Iteration(previous, o.db, Some(t), true)
      else Iteration(current, o.db, Some(t), false)
  }

  /** After a failed call the next iteration that draws the same colour makes
      the same call again. */
  lemma FailedCallIsRetried(previous: LedColor, value: int, db: O.Db, sensorId: string,
                            env: O.Env, env2: O.Env)
    requires O.Valid(db)
    requires Iterate(previous, value, db, sensorId, env).failed
    ensures var r := Iterate(previous, value, db, sensorId, env);
            Iterate(r.previous, value, r.db, sensorId, env2).call == r.call
  {
  }

  /** The calls a run of samples makes when no call fails. */
  function Calls(previous: LedColor, samples: seq<LedColor>): seq<EventType>
    decreases |samples|
  {
    if |samples| == 0 then []
    else
      match Decide(previous, samples[0])
      case None => Calls(samples[0], samples[1..])
      case Some(t) => [t] + Calls(samples[0], samples[1..])
  }

  /** How many times `t` occurs in `calls`. */
  function Occurrences(calls: seq<EventType>, t: EventType): nat {
    if |calls| == 0 then 0
    else (if calls[0] == t then 1 else 0) + Occurrences(calls[1..], t)
  }

  /** How many samples enter colour `c`: equal to `c` while the sample before
      (or the starting colour) is not. */
  function Entries(previous: LedColor, samples: seq<LedColor>, c: LedColor): nat
    decreases |samples|
  {
    if |samples| == 0 then 0
    else
      var before := if |samples| == 1 then previous else samples[|samples| - 2];
      Entries(previous, samples[..|samples| - 1], c)
        + (if samples[|samples| - 1] == c && before != c then 1 else 0)
  }

  lemma {:induction false} EntriesCons(previous: LedColor, samples: seq<LedColor>, c: LedColor)
    requires |samples| > 0
    ensures Entries(previous, samples, c)
              == (if samples[0] == c && previous != c then 1 else 0) + Entries(samples[0], samples[1..], c)
    decreases |samples|
  {
    if |samples| > 1 {
      var init := samples[..|samples| - 1];
      EntriesCons(previous, init, c);
      assert init[0] == samples[0];
      assert init[1..] == samples[1..][..|samples[1..]| - 1];
      if |samples| > 2 {
        assert samples[1..][|samples[1..]| - 2] == samples[|samples| - 2];
      }
    }
  }

  /** Without failures, every entry into red causes exactly one ErrorDetected
      call, and nothing else does. */
  lemma {:induction false} ErrorCallsCountEntriesIntoRed(previous: LedColor, samples: seq<LedColor>)
    ensures Occurrences(Calls(previous, samples), ErrorDetected) == Entries(previous, samples, Red)
    decreases |samples|
  {
    if |samples| > 0 {
      ErrorCallsCountEntriesIntoRed(samples[0], samples[1..]);
      EntriesCons(previous, samples, Red);
      var rest := Calls(samples[0], samples[1..]);
      match Decide(previous, samples[0])
      case None =>
      case Some(t) =>
        assert ([t] + rest)[1..] == rest;
    }
  }

  /** Without failures, a run of red samples makes one ErrorDetected call if
      the colour before it was not red, and none if it was. */
  lemma {:induction false} RedRunCallsOnce(previous: LedColor, n: nat)
    requires n >= 1
    ensures Calls(previous, Repeat(Red, n)) == (if previous == Red then [] else [ErrorDetected])
    decreases n
  {
    if n > 1 {
      RedRunCallsOnce(Red, n - 1);
    }
    assert Repeat(Red, n)[1..] == Repeat(Red, n - 1);
  }

  /** The colours a sequence of draws reads. */
  function Samples(values: seq<int>): (s: seq<LedColor>)
    ensures |s| == |values|
    ensures forall i | 0 <= i < |values| :: s[i] == SimulateGpioRead(values[i])
  {
    seq(|values|, i requires 0 <= i < |values| => SimulateGpioRead(values[i]))
  }

  /** The effect of a run of loop iterations: the previous colour and store
      afterwards, the calls made in order, and whether any of them threw. */
  datatype Run = Run(previous: LedColor, db: O.Db, calls: seq<EventType>, failed: bool)

  /** The worker loop over the draws `values`, iteration `i` seeing `envs[i]`. */
  function Loop(previous: LedColor, values: seq<int>, db: O.Db, sensorId: string,
                envs: seq<O.Env>): (r: Run)
    requires O.Valid(db) && |envs| == |values|
    ensures O.Valid(r.db)
    decreases |values|
  {
    if |values| == 0 then Run(previous, db, [], false)
    else
      var it := Iterate(previous, values[0], db, sensorId, envs[0]);
      var rest := Loop(it.previous, values[1..], it.db, sensorId, envs[1..]);
      Run(rest.previous, rest.db, (if it.call.Some? then [it.call.value] else []) + rest.calls,
          it.failed || rest.failed)
  }

  /** A loop in which no call throws makes exactly the calls the change
      detector decides on the colours read. */
  lemma {:induction false} LoopMatchesCalls(previous: LedColor, values: seq<int>, db: O.Db,
                                            sensorId: string, envs: seq<O.Env>)
    requires O.Valid(db) && |envs| == |values|
    ensures var r := Loop(previous, values, db, sensorId, envs);
            !r.failed ==> r.calls == Calls(previous, Samples(values))
    decreases |values|
  {
    if |values| > 0 {
      var it := Iterate(previous, values[0], db, sensorId, envs[0]);
      var rest := Loop(it.previous, values[1..], it.db, sensorId, envs[1..]);
      LoopMatchesCalls(it.previous, values[1..], it.db, sensorId, envs[1..]);
      var samples := Samples(values);
      assert samples[0] == SimulateGpioRead(values[0]);
      assert samples[1..] == Samples(values[1..]);
      if !it.failed && !rest.failed {
        assert Calls(previous, samples)
                 == (if it.call.Some? then [it.call.value] else []) + Calls(samples[0], samples[1..]);
      }
    }
  }

  /** A loop in which no call throws ends on the last colour read. */
  lemma {:induction false} LoopEndsOnLastSample(previous: LedColor, values: seq<int>, db: O.Db,
                                                sensorId: string, envs: seq<O.Env>)
    requires O.Valid(db) && |envs| == |values|
    ensures var r := Loop(previous, values, db, sensorId, envs);
            !r.failed && |values| > 0 ==> r.previous == SimulateGpioRead(values[|values| - 1])
    decreases |values|
  {
    if |values| > 1 {
      var it := Iterate(previous, values[0], db, sensorId, envs[0]);
      LoopEndsOnLastSample(it.previous, values[1..], it.db, sensorId, envs[1..]);
      assert values[1..][|values[1..]| - 1] == values[|values| - 1];
    }
  }

  /** From the worker's start state, a run in which no call throws makes one
      ErrorDetected call per entry into Red among the colours read. */
  lemma WorkerRunErrorCalls(values: seq<int>, sensorId: string, envs: seq<O.Env>)
    requires |envs| == |values|
    ensures var r := Loop(InitialLedState, values, O.EmptyDb, sensorId, envs);
            !r.failed ==>
              Occurrences(r.calls, ErrorDetected) == Entries(InitialLedState, Samples(values), Red)
  {
    O.EmptyDbValid();
    LoopMatchesCalls(InitialLedState, values, O.EmptyDb, sensorId, envs);
    ErrorCallsCountEntriesIntoRed(InitialLedState, Samples(values));
  }
}
