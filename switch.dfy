/** The relay state machine of the main loop (py/control.py:197-210,
    227-229, 238-253). */
module Switch {

  /** The state the main loop keeps between cycles: the `counter` of
      consecutive ON periods and whether the relay is on. */
  datatype SwitchState = SwitchState(counter: int, relayOn: bool)

  /** What one cycle reads: the power, the threshold and the weather answer. */
  datatype CycleInput = CycleInput(power: int, thresh: int, weatherOk: bool)

  /** The state at start-up: counter 0, relay off (the relay pin boots pulled down). */
  const Initial := SwitchState(0, false)

  /** `(power > thresh) and weather_ok and counter < periods` */
  predicate Eligible(counter: int, periods: int, c: CycleInput): (e: bool)
    ensures c.power <= c.thresh ==> !e
    ensures periods <= counter ==> !e
    ensures !c.weatherOk ==> !e
  {
    c.power > c.thresh && c.weatherOk && counter < periods
  }

  /** The state invariant kept between cycles: the counter stays within
      `0..periods` (it is 0 whenever `periods` is not positive), and the relay
      is on exactly when the counter is positive and there is hardware to
      switch. */
  predicate Consistent(s: SwitchState, periods: int, dryRun: bool)
  {
    0 <= s.counter && (s.counter == 0 || s.counter <= periods)
    && s.relayOn == (!dryRun && 0 < s.counter)
  }

  /** One pass of the main loop's decision: engage and count the period, or
      disengage and clear the counter. */
  function Step(s: SwitchState, periods: int, dryRun: bool, c: CycleInput): (t: SwitchState)
    ensures Consistent(s, periods, dryRun) ==> Consistent(t, periods, dryRun)
  {
    // the relay follows `engage()` / `disengage()` unless there is no relay hardware
    if Eligible(s.counter, periods, c) then SwitchState(s.counter + 1, s.relayOn || !dryRun)
    else SwitchState(0, s.relayOn && dryRun)
  }

  /** The state after running the cycles of `inputs` in order from `s`. */
  function Run(s: SwitchState, periods: int, dryRun: bool, inputs: seq<CycleInput>): (t: SwitchState)
    ensures Consistent(s, periods, dryRun) ==> Consistent(t, periods, dryRun)
    decreases |inputs|
  {
    if inputs == [] then s
    else Step(Run(s, periods, dryRun, inputs[..|inputs| - 1]), periods, dryRun, inputs[|inputs| - 1])
  }

  /** Which of the cycles of `inputs` engaged the relay. */
  function Trace(s: SwitchState, periods: int, dryRun: bool, inputs: seq<CycleInput>): (r: seq<bool>)
    ensures |r| == |inputs|
    decreases |inputs|
  {
    if inputs == [] then []
    else
      var front := inputs[..|inputs| - 1];
      Trace(s, periods, dryRun, front) + [Eligible(Run(s, periods, dryRun, front).counter, periods, inputs[|inputs| - 1])]
  }

  /** Power equal to the threshold is no surplus: the cycle disengages and
      clears the counter whatever the weather. */
  lemma EqualPowerDisengages(s: SwitchState, periods: int, dryRun: bool, power: int, weatherOk: bool)
    requires Consistent(s, periods, dryRun)
    ensures Step(s, periods, dryRun, CycleInput(power, power, weatherOk)) == SwitchState(0, false)
  {
  }

  /** Once the counter has reached `periods`, the next cycle disengages and
      clears the counter even with surplus and good weather. */
  lemma CapReachedDisengages(s: SwitchState, periods: int, dryRun: bool, c: CycleInput)
    requires Consistent(s, periods, dryRun) && s.counter == periods
    ensures Step(s, periods, dryRun, c) == SwitchState(0, false)
  {
  }

  /** The number of engaging cycles at the end of `flags`. */
  function TrailingOn(flags: seq<bool>): (n: nat)
    ensures n <= |flags|
    decreases |flags|
  {
    if flags == [] || !flags[|flags| - 1] then 0 else TrailingOn(flags[..|flags| - 1]) + 1
  }

  /** The counter is bounded: `0 <= counter <= periods` after any number of
      cycles started from the initial state, for a non-negative `periods`. */
  lemma CounterBounded(periods: int, dryRun: bool, inputs: seq<CycleInput>)
    requires 0 <= periods
    ensures 0 <= Run(Initial, periods, dryRun, inputs).counter <= periods
  {
  }

  /** From the initial state the counter is the number of consecutive
      engaging cycles that ended the run so far. */
  lemma {:induction false} CounterCountsTrailingOn(periods: int, dryRun: bool, inputs: seq<CycleInput>)
    ensures Run(Initial, periods, dryRun, inputs).counter == TrailingOn(Trace(Initial, periods, dryRun, inputs))
    decreases |inputs|
  {
    if inputs != [] {
      var front := inputs[..|inputs| - 1];
      CounterCountsTrailingOn(periods, dryRun, front);
      var flags := Trace(Initial, periods, dryRun, inputs);
      assert flags[..|flags| - 1] == Trace(Initial, periods, dryRun, front);
    }
  }

  /** Running a prefix of the inputs gives a prefix of the trace. */
  lemma {:induction false} TracePrefix(s: SwitchState, periods: int, dryRun: bool, inputs: seq<CycleInput>, n: nat)
    requires n <= |inputs|
    ensures Trace(s, periods, dryRun, inputs[..n]) == Trace(s, periods, dryRun, inputs)[..n]
    decreases |inputs|
  {
    if n < |inputs| {
      var front := inputs[..|inputs| - 1];
      assert inputs[..n] == front[..n];
      TracePrefix(s, periods, dryRun, front, n);
    } else {
      assert inputs[..n] == inputs;
    }
  }

  /** A suffix of engaging flags is counted by TrailingOn. */
  lemma {:induction false} TrailingOnAtLeast(flags: seq<bool>, i: nat)
    requires i <= |flags|
    requires forall k :: i <= k < |flags| ==> flags[k]
    ensures |flags| - i <= TrailingOn(flags)
    decreases |flags|
  {
    if i < |flags| {
      TrailingOnAtLeast(flags[..|flags| - 1], i);
    }
  }

  /** The consecutive cap: from the initial state, no run of engaging cycles
      is longer than `periods`. */
  lemma NoRunLongerThanPeriods(periods: int, dryRun: bool, inputs: seq<CycleInput>, i: nat, j: nat)
    requires i < j <= |inputs|
    requires forall k :: i <= k < j ==> Trace(Initial, periods, dryRun, inputs)[k]
    ensures j - i <= periods
  {
    var flags := Trace(Initial, periods, dryRun, inputs[..j]);
    TracePrefix(Initial, periods, dryRun, inputs, j);
    TrailingOnAtLeast(flags, i);
    CounterCountsTrailingOn(periods, dryRun, inputs[..j]);
  }

  /** A cycle with surplus and good weather, at `power` above `thresh`. */
  predicate Favourable(c: CycleInput)
  {
    c.power > c.thresh && c.weatherOk
  }

  /** Under steady surplus and good weather the relay stays on for `periods`
      cycles, drops out for one cycle, and starts over: cycle `k` (from 0)
      engages exactly when `k % (periods + 1) < periods`. */
  lemma {:induction false} SteadySurplus(periods: nat, dryRun: bool, inputs: seq<CycleInput>)
    requires forall k :: 0 <= k < |inputs| ==> Favourable(inputs[k])
    ensures Run(Initial, periods, dryRun, inputs).counter == |inputs| % (periods + 1)
    ensures forall k :: 0 <= k < |inputs| ==> Trace(Initial, periods, dryRun, inputs)[k] == (k % (periods + 1) < periods)
    decreases |inputs|
  {
    if inputs != [] {
      var n := |inputs| - 1;
      var front := inputs[..n];
      SteadySurplus(periods, dryRun, front);
      NextRemainder(n, periods + 1);
      var flags := Trace(Initial, periods, dryRun, inputs);
      assert flags[..n] == Trace(Initial, periods, dryRun, front);
      forall k | 0 <= k < n
        ensures flags[k] == (k % (periods + 1) < periods)
      {
        assert flags[k] == flags[..n][k];
      }
    }
  }

  /** `(n + 1) % m` either steps the remainder of `n` up by one or wraps to 0. */
  lemma NextRemainder(n: nat, m: nat)
    requires 0 < m
    ensures n % m < m - 1 ==> (n + 1) % m == n % m + 1
    ensures n % m == m - 1 ==> (n + 1) % m == 0
  {
    var q, r := n / m, n % m;
    if r < m - 1 {
      RemainderUnique(n + 1, m, q, r + 1);
    } else {
      RemainderUnique(n + 1, m, q + 1, 0);
    }
  }

  /** Euclidean division has one remainder. */
  lemma RemainderUnique(n: int, m: int, q: int, r: int)
    requires 0 < m && 0 <= r < m && n == q * m + r
    ensures n % m == r
  {
    var q', r' := n / m, n % m;
    assert n == q' * m + r';
    var d := q - q';
    assert d * m == q * m - q' * m;
    assert d * m == r' - r;
    if d != 0 {
      if 0 < d {
        MultipleAtLeast(d, m);
      } else {
        MultipleAtLeast(-d, m);
      }
    }
  }

  lemma MultipleAtLeast(k: int, m: int)
    requires 1 <= k && 0 < m
    ensures m <= k * m
  {
  }

  /** The scenario of the shipped settings (base 1200 W, one-minute periods,
      five minutes at most): five cycles at 1500 W under good weather engage,
      the sixth disengages despite the surplus and the counter is back at 0. */
  lemma ShippedScenario(dryRun: bool)
    ensures Trace(Initial, 5, dryRun, seq(6, _ => CycleInput(1500, 1200, true))) == [true, true, true, true, true, false]
    ensures Run(Initial, 5, dryRun, seq(6, _ => CycleInput(1500, 1200, true))).counter == 0
  {
    var inputs := seq(6, _ => CycleInput(1500, 1200, true));
    SteadySurplus(5, dryRun, inputs);
    var flags := Trace(Initial, 5, dryRun, inputs);
    assert flags[5] == false && flags[4] && flags[3] && flags[2] && flags[1] && flags[0];
  }

  /** The relay-driving object of py/control.py: the state the main loop keeps
      (`counter`), the relay (`relay.on()`/`relay.off()`), and whether the
      relay hardware is missing (`dry_run`). */
  class SwitchController {
    const periods: int
    const dryRun: bool
    const minimumOnTime: real
    const interval: real
    var counter: int
    var relayOn: bool

    function State(): SwitchState
      reads this
    {
      SwitchState(counter, relayOn)
    }

    ghost predicate Valid()
      reads this
    {
      Consistent(State(), periods, dryRun)
    }

    /** `counter = 0` with the relay off, before the loop starts. */
    constructor (periods: int, dryRun: bool, minimumOnTime: real, interval: real)
      ensures Valid() && State() == Initial
      ensures this.periods == periods && this.dryRun == dryRun
      ensures this.minimumOnTime == minimumOnTime && this.interval == interval
    {
      this.periods := periods;
      this.dryRun := dryRun;
      this.minimumOnTime := minimumOnTime;
      this.interval := interval;
      counter := 0;
      relayOn := false;
    }

    /** `engage()`: switch the relay on unless there is no relay. */
    method Engage()
      modifies this`relayOn
      ensures relayOn == (old(relayOn) || !dryRun)
    {
      if !dryRun {
        relayOn := true;
      }
    }

    /** `disengage()`: switch the relay off unless there is no relay. */
    method Disengage()
      modifies this`relayOn
      ensures relayOn == (old(relayOn) && dryRun)
      ensures !relayOn || dryRun
    {
      if !dryRun {
        relayOn := false;
      }
    }

    /** One pass of the main loop's decision (py/control.py:246-253). Returns
        whether the relay was engaged and the time slept afterwards in seconds:
        a minimum-on period plus the polling interval when engaging, the
        interval alone otherwise. */
    method Cycle(power: int, thresh: int, weatherOk: bool) returns (engaged: bool, dwell: real)
      requires Valid()
      modifies this
      ensures Valid()
      ensures engaged == Eligible(old(counter), periods, CycleInput(power, thresh, weatherOk))
      ensures State() == Step(old(State()), periods, dryRun, CycleInput(power, thresh, weatherOk))
      ensures engaged ==> counter == old(counter) + 1 && relayOn == !dryRun
      ensures !engaged ==> counter == 0 && !relayOn
      ensures dwell == (if engaged then 60.0 * minimumOnTime else 0.0) + 60.0 * interval
    {
      engaged := power > thresh && weatherOk && counter < periods;
      if engaged {
        Engage();
        dwell := 60.0 * minimumOnTime;
        counter := counter + 1;
      } else {
        Disengage();
        dwell := 0.0;
        counter := 0;
      }
      dwell := dwell + 60.0 * interval;
    }

    /** The first `|inputs|` passes of the main loop. */
    method RunCycles(inputs: seq<CycleInput>) returns (engaged: seq<bool>)
      requires Valid()
      modifies this
      ensures Valid()
      ensures State() == Run(old(State()), periods, dryRun, inputs)
      ensures engaged == Trace(old(State()), periods, dryRun, inputs)
    {
      engaged := [];
      var i := 0;
      while i < |inputs|
        invariant 0 <= i <= |inputs|
        invariant Valid()
        invariant State() == Run(old(State()), periods, dryRun, inputs[..i])
        invariant engaged == Trace(old(State()), periods, dryRun, inputs[..i])
      {
        var c := inputs[i];
        var e, _ := Cycle(c.power, c.thresh, c.weatherOk);
        engaged := engaged + [e];
        assert inputs[..i + 1][..i] == inputs[..i];
        i := i + 1;
      }
      assert inputs[..i] == inputs;
    }

    /** `shutdown_handler`: switch the relay off before the process exits;
        the counter is left as it was. */
    method Shutdown()
      requires Valid()
      modifies this`relayOn
      ensures !relayOn
      ensures counter == old(counter)
    {
      Disengage();
    }
  }
}
