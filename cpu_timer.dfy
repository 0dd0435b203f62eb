/** CPU frequency estimation (instrument/src/cpu_timer.rs,
    `estimate_cpu_frequency`): busy-wait for 100 ms of OS time, then scale
    the CPU ticks that passed meanwhile to one second.

    The timers are parameters: the CPU readings before and after the wait,
    the OS reading at the start, and the OS readings the wait loop takes,
    in order. A run that would need more OS readings than are given ends in
    `ReadingsExhausted`; the source would go on reading. */
module CpuTimer {
  import opened Common

  datatype Estimate = Estimated(frequency: nat) | ReadingsExhausted | Panicked(reason: string)

  const MillisToWait: nat := 100

  /** `os_timer_frequency * millis_to_wait / 1000`. */
  function OsWaitTime(osFrequency: nat): nat {
    osFrequency * MillisToWait / 1000
  }

  /** The wait loop with `os_timer_elapsed == elapsed` and `pending` the OS
      readings still to come: the elapsed OS time it exits with, `None`
      when the readings run out first. */
  function WaitLoop(osStart: nat, pending: seq<nat>, wait: nat, elapsed: nat): Outcome<Option<nat>>
    decreases |pending|
  {
    if elapsed >= wait then Return(Some(elapsed))
    else if |pending| == 0 then Return(None)
    else
      match CheckedSub(pending[0], osStart)
      case Panic(reason) => Panic(reason)
      case Return(e) => WaitLoop(osStart, pending[1..], wait, e)
  }

  /** What `estimate_cpu_frequency` computes from the readings. */
  function EstimateFrequency(osFrequency: nat, cpuStart: nat, osStart: nat, osReads: seq<nat>, cpuEnd: nat): Estimate {
    match WaitLoop(osStart, osReads, OsWaitTime(osFrequency), 0)
    case Panic(reason) => Panicked(reason)
    case Return(exit) =>
      if exit.None? then ReadingsExhausted
      else
        match CheckedSub(cpuEnd, cpuStart)
        case Panic(reason) => Panicked(reason)
        case Return(cpuElapsed) =>
          Estimated(if exit.value > 0 then osFrequency * cpuElapsed / exit.value else 0)
  }

  method EstimateCpuFrequency(osFrequency: nat, cpuStart: nat, osStart: nat, osReads: seq<nat>, cpuEnd: nat)
    returns (r: Estimate)
    ensures r == EstimateFrequency(osFrequency, cpuStart, osStart, osReads, cpuEnd)
  {
    var osWaitTime := osFrequency * MillisToWait / 1000;
    var osTimerElapsed: nat := 0;
    var i := 0;
    while osTimerElapsed < osWaitTime
      invariant 0 <= i <= |osReads|
      invariant WaitLoop(osStart, osReads[i..], osWaitTime, osTimerElapsed) == WaitLoop(osStart, osReads, osWaitTime, 0)
      decreases |osReads| - i
    {
      if i == |osReads| {
        return ReadingsExhausted;
      }
      var osTimerEnd := osReads[i];
      if osTimerEnd < osStart {
        return Panicked("attempt to subtract with overflow");
      }
      assert osReads[i..][1..] == osReads[i + 1..];
      osTimerElapsed := osTimerEnd - osStart;
      i := i + 1;
    }
    if cpuEnd < cpuStart {
      return Panicked("attempt to subtract with overflow");
    }
    var cpuTimerElapsed := cpuEnd - cpuStart;
    var cpuFrequency := 0;
    if osTimerElapsed > 0 {
      cpuFrequency := osFrequency * cpuTimerElapsed / osTimerElapsed;
    }
    r := Estimated(cpuFrequency);
  }

  /** The loop exits with the first reading at least `wait` after the
      start, every earlier reading being no earlier than the start and less
      than `wait` after it; with `wait == 0` it reads nothing. */
  lemma {:induction false} WaitExit(osStart: nat, pending: seq<nat>, wait: nat, elapsed: nat)
    requires WaitLoop(osStart, pending, wait, elapsed).Return? && WaitLoop(osStart, pending, wait, elapsed).value.Some?
    ensures var e := WaitLoop(osStart, pending, wait, elapsed).value.value;
      && e >= wait
      && (elapsed >= wait ==> e == elapsed)
      && (elapsed < wait ==>
            exists i :: (0 <= i < |pending| && e + osStart == pending[i]
              && forall j :: 0 <= j < i ==> osStart <= pending[j] < osStart + wait))
    decreases |pending|
  {
    if elapsed < wait {
      var e0 := pending[0] - osStart;
      WaitExit(osStart, pending[1..], wait, e0);
      var e := WaitLoop(osStart, pending, wait, elapsed).value.value;
      if e0 < wait {
        var i :| 0 <= i < |pending[1..]| && e + osStart == pending[1..][i]
          && forall j :: 0 <= j < i ==> osStart <= pending[1..][j] < osStart + wait;
        assert e + osStart == pending[i + 1];
        assert forall j :: 0 <= j < i + 1 ==> osStart <= pending[j] < osStart + wait by {
          forall j | 0 <= j < i + 1 ensures osStart <= pending[j] < osStart + wait {
            if j > 0 {
              assert pending[j] == pending[1..][j - 1];
            }
          }
        }
      } else {
        assert e + osStart == pending[0];
      }
    }
  }

  /** The estimate is the OS frequency times the CPU ticks over the OS
      ticks of the wait, for the reading the loop exits on. */
  lemma EstimateFormula(osFrequency: nat, cpuStart: nat, osStart: nat, osReads: seq<nat>, cpuEnd: nat)
    requires OsWaitTime(osFrequency) > 0
    requires EstimateFrequency(osFrequency, cpuStart, osStart, osReads, cpuEnd).Estimated?
    ensures cpuStart <= cpuEnd
    ensures exists i ::
      (&& 0 <= i < |osReads| && osReads[i] >= osStart + OsWaitTime(osFrequency)
       && (forall j :: 0 <= j < i ==> osStart <= osReads[j] < osStart + OsWaitTime(osFrequency))
       && EstimateFrequency(osFrequency, cpuStart, osStart, osReads, cpuEnd).frequency
          == osFrequency * (cpuEnd - cpuStart) / (osReads[i] - osStart))
  {
    var wait := OsWaitTime(osFrequency);
    WaitExit(osStart, osReads, wait, 0);
  }

  /** An OS timer slower than 10 Hz gives a zero wait: the loop never runs
      and the estimate is 0, with no division. */
  lemma SlowTimerGivesZero(osFrequency: nat, cpuStart: nat, osStart: nat, osReads: seq<nat>, cpuEnd: nat)
    requires osFrequency < 10
    ensures OsWaitTime(osFrequency) == 0
    ensures EstimateFrequency(osFrequency, cpuStart, osStart, osReads, cpuEnd)
         == if cpuStart <= cpuEnd then Estimated(0) else Panicked("attempt to subtract with overflow")
  {
    assert osFrequency * MillisToWait < 1000;
  }

  /** With a positive wait and an OS clock that never moves, no number of
      readings ends the loop: the source does not terminate. */
  lemma {:induction false} FrozenClock(osFrequency: nat, cpuStart: nat, osStart: nat, osReads: seq<nat>, cpuEnd: nat)
    requires OsWaitTime(osFrequency) > 0
    requires forall i :: 0 <= i < |osReads| ==> osReads[i] == osStart
    ensures EstimateFrequency(osFrequency, cpuStart, osStart, osReads, cpuEnd) == ReadingsExhausted
  {
    FrozenWait(osStart, osReads, OsWaitTime(osFrequency));
  }

  lemma {:induction false} FrozenWait(osStart: nat, pending: seq<nat>, wait: nat)
    requires wait > 0
    requires forall i :: 0 <= i < |pending| ==> pending[i] == osStart
    ensures WaitLoop(osStart, pending, wait, 0) == Return(None)
    decreases |pending|
  {
    if |pending| > 0 {
      assert forall i :: 0 <= i < |pending[1..]| ==> pending[1..][i] == pending[i + 1];
      FrozenWait(osStart, pending[1..], wait);
    }
  }

  /** A reading before the start, while still waiting, ends the program in
      the `u64` subtraction. */
  lemma ClockBackwardsPanics(osFrequency: nat, cpuStart: nat, osStart: nat, osReads: seq<nat>, cpuEnd: nat)
    requires OsWaitTime(osFrequency) > 0 && |osReads| > 0 && osReads[0] < osStart
    ensures EstimateFrequency(osFrequency, cpuStart, osStart, osReads, cpuEnd) == Panicked("attempt to subtract with overflow")
  {
  }
}
