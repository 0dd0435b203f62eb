/** The repetition tester (instrument/src/repetition.rs): a block of code is
    run again and again, each iteration bracketed by `begin` and `end`, and
    the tester keeps the count, total, maximum and minimum of the ticks an
    iteration took, until no new minimum has been seen for a while.

    Timer readings and page-fault counts are parameters of the methods that
    take them in the source (`now`, `faults`); what the source prints is
    recorded as an `Event`. The tester's state is a class whose fields the
    methods update; `Snapshot` is its value, and each method is specified by
    a function on that value (`AfterBegin`, `AfterLoopTest`, ...), about
    which the lemmas below state what the source promises. */
module Repetition {
  import opened Common
  import opened Decimal

  datatype TestState = Uninitialised | Testing | Error | Completed

  datatype TestResult = TestResult(testCount: nat, totalTime: nat, maxTime: nat, minTime: nat, pageFaults: nat)

  /** `TestResult::default()`: nothing measured yet, the minimum at its
      largest value. */
  const InitialResult := TestResult(0, 0, 0, U64_MAX, 0)

  /** What the tester prints: an error line (`error`), a new minimum
      (`print_new_stats`, with the bytes of that iteration) and the final
      summary (`print_results`, with the average in ticks). */
  datatype Event =
    | ErrorMessage(text: string)
    | NewMinimum(minTime: nat, bytes: nat)
    | Summary(minTime: nat, maxTime: nat, averageTime: nat, pageFaults: nat, pageSize: nat)

  /** The fields of `RepetitionTester`; the two accumulators that may go
      below zero are `i128` in the source. */
  datatype Tester = Tester(
    targetByteCount: nat,
    cpuTimerFrequency: nat,
    tryForTime: nat,
    testsStartedAt: nat,
    openBlockCount: nat,
    closedBlockCount: nat,
    timeAccumulated: int,
    bytesAccumulated: nat,
    faultsAccumulated: int,
    state: TestState,
    results: TestResult)

  /** What one call of `loop_test` ends with: its return value, the new
      state and what it printed. */
  datatype LoopStep = LoopStep(more: bool, tester: Tester, events: seq<Event>)

  /** `cpu_timer_frequency * seconds_to_try.unwrap_or(10)`. */
  function TryForTime(cpuTimerFrequency: nat, secondsToTry: Option<nat>): nat {
    cpuTimerFrequency * (if secondsToTry.Some? then secondsToTry.value else 10)
  }

  const UnbalancedMessage := "Unbalanced begin & end encountered"
  const TryFromIntUnwrap := "called `Result::unwrap()` on an `Err` value: TryFromIntError(())"
  const NegativeTime := "Negative time spent: TryFromIntError(())"
  const DivideByZero := "attempt to divide by zero"
  const MultiplyOverflow := "attempt to multiply with overflow"
  const DurationMessage := "cannot convert float seconds to Duration: value is either too big or NaN"

  /** Whether `Duration::from_secs_f64(clocks as f64 / frequency as f64)`,
      the conversion `Throughput::new` makes of a `RunTime`
      (instrument/src/stats.rs:61-63), panics. At frequency 0 the quotient
      is infinite, or NaN for 0 clocks. At frequency 1 it is `clocks as
      f64`, which rounds to 2^64 (to nearest, ties to even, in steps of
      2^11 there) exactly when `clocks >= 2^64 - 2^10`, and a `Duration`
      holds fewer than 2^64 seconds. From frequency 2 on the quotient is at
      most 2^63. Only `u64` clock counts are passed. */
  predicate DurationPanics(clocks: nat, frequency: nat) {
    frequency == 0 || (frequency == 1 && clocks >= U64_MAX + 1 - 1024)
  }

  /** `print_results`: the average divides by the test count; the three
      throughputs convert the minimum, the maximum and the average to a
      `Duration`; `get_page_size()` yields `pageSize`, its own panic
      included; the page size times the fault count is a `u64` product.
      The first of these to fail is the panic; otherwise the summary
      line. */
  function Summarize(r: TestResult, frequency: nat, pageSize: Outcome<nat>): Outcome<Event> {
    if r.testCount == 0 then Panic(DivideByZero)
    else
      var average := r.totalTime / r.testCount;
      if DurationPanics(r.minTime, frequency) || DurationPanics(r.maxTime, frequency)
         || DurationPanics(average, frequency) then Panic(DurationMessage)
      else
        match pageSize
        case Panic(reason) => Panic(reason)
        case Return(size) =>
          if size * r.pageFaults > U64_MAX then Panic(MultiplyOverflow)
          else Return(Summary(r.minTime, r.maxTime, average, r.pageFaults, size))
  }

  function ByteMismatchMessage(bytes: nat, target: nat): string {
    "Processed byte count mismatch: " + Show(bytes) + " vs " + Show(target)
  }

  /** `RepetitionTester::new`. */
  function Started(targetByteCount: nat, cpuTimerFrequency: nat, secondsToTry: Option<nat>, now: nat): Tester {
    Tester(targetByteCount, cpuTimerFrequency, TryForTime(cpuTimerFrequency, secondsToTry), now,
           0, 0, 0, 0, 0, Testing, InitialResult)
  }

  /** `new_wave`: testing again, an error when the byte count or the timer
      frequency differs from the stored one (which is not replaced), a new
      time budget from `now`. */
  function AfterNewWave(t: Tester, targetByteCount: nat, cpuTimerFrequency: nat, secondsToTry: Option<nat>, now: nat): (Tester, seq<Event>) {
    var e1 := if t.targetByteCount != targetByteCount then [ErrorMessage("Target bytes count changed")] else [];
    var e2 := if t.cpuTimerFrequency != cpuTimerFrequency then [ErrorMessage("CPU timer frequency changed")] else [];
    var state := if e1 + e2 == [] then Testing else Error;
    (t.(state := state, tryForTime := TryForTime(cpuTimerFrequency, secondsToTry), testsStartedAt := now), e1 + e2)
  }

  /** `begin`, with the cpu timer reading `now` and the fault count `faults`. */
  function AfterBegin(t: Tester, now: nat, faults: nat): Tester {
    t.(openBlockCount := t.openBlockCount + 1,
       timeAccumulated := t.timeAccumulated - now,
       faultsAccumulated := t.faultsAccumulated - faults)
  }

  /** `end`, with the cpu timer reading `now` and the fault count `faults`. */
  function AfterEnd(t: Tester, now: nat, faults: nat): Tester {
    t.(closedBlockCount := t.closedBlockCount + 1,
       timeAccumulated := t.timeAccumulated + now,
       faultsAccumulated := t.faultsAccumulated + faults)
  }

  /** `count_bytes`. */
  function AfterCountBytes(t: Tester, bytes: nat): Tester {
    t.(bytesAccumulated := t.bytesAccumulated + bytes)
  }

  /** `reset_after_iteration`. */
  function Reset(t: Tester): Tester {
    t.(openBlockCount := 0, closedBlockCount := 0, timeAccumulated := 0, bytesAccumulated := 0, faultsAccumulated := 0)
  }

  /** One accepted iteration that took `elapsed` ticks, folded into the
      results; `faults` is the fault count to record, if any. */
  function Accept(r: TestResult, elapsed: nat, faults: Option<nat>): TestResult {
    TestResult(r.testCount + 1, r.totalTime + elapsed, Max(r.maxTime, elapsed),
               if r.minTime > elapsed then elapsed else r.minTime,
               if faults.Some? then faults.value else r.pageFaults)
  }

  /** The two checks of an iteration in which a block was opened. */
  function Validate(t: Tester): (Tester, seq<Event>) {
    var e1 := if t.openBlockCount != t.closedBlockCount then [ErrorMessage(UnbalancedMessage)] else [];
    var e2 := if t.bytesAccumulated != t.targetByteCount
      then [ErrorMessage(ByteMismatchMessage(t.bytesAccumulated, t.targetByteCount))] else [];
    (if e1 + e2 == [] then t else t.(state := Error), e1 + e2)
  }

  /** Whether `u64::try_from` accepts an `i128` accumulator: it fails below
      zero and above `u64::MAX` alike. */
  predicate FitsU64(x: int) {
    0 <= x <= U64_MAX
  }

  /** Recording a valid iteration: the fault count after a single block,
      the elapsed ticks, a new minimum restarting the time budget at `now`
      and printed by `print_new_stats` (whose `Throughput::new` converts it
      to a `Duration`), then the per-iteration counters reset. */
  function Record(t: Tester, now: nat): Outcome<(Tester, seq<Event>)> {
    if t.openBlockCount == 1 && !FitsU64(t.faultsAccumulated) then Panic(TryFromIntUnwrap)
    else if !FitsU64(t.timeAccumulated) then Panic(NegativeTime)
    else
      var elapsed: nat := t.timeAccumulated;
      var faults := if t.openBlockCount == 1 then Some(t.faultsAccumulated as nat) else None;
      var lower := t.results.minTime > elapsed;
      if lower && DurationPanics(elapsed, t.cpuTimerFrequency) then Panic(DurationMessage)
      else
      var recorded := t.(results := Accept(t.results, elapsed, faults),
                         testsStartedAt := if lower then now else t.testsStartedAt);
      Return((Reset(recorded), if lower then [NewMinimum(elapsed, t.bytesAccumulated)] else []))
  }

  /** The end of `loop_test`: the run is complete once more than the time
      budget has passed since the last new minimum, and then prints its
      summary. */
  function Finish(t: Tester, now: nat, pageSize: Outcome<nat>): Outcome<LoopStep> {
    match CheckedSub(now, t.testsStartedAt)
    case Panic(reason) => Panic(reason)
    case Return(since) =>
      if since > t.tryForTime then
        match Summarize(t.results, t.cpuTimerFrequency, pageSize)
        case Panic(reason) => Panic(reason)
        case Return(summary) => Return(LoopStep(false, t.(state := Completed), [summary]))
      else Return(LoopStep(t.state == Testing, t, []))
  }

  function Prefix(events: seq<Event>, o: Outcome<LoopStep>): Outcome<LoopStep> {
    match o
    case Panic(reason) => Panic(reason)
    case Return(step) => Return(step.(events := events + step.events))
  }

  /** `loop_test` called at cpu time `now`; `pageSize` is what
      `get_page_size()` gives should the summary be printed. */
  function AfterLoopTest(t: Tester, now: nat, pageSize: Outcome<nat>): Outcome<LoopStep> {
    if t.state != Testing then Return(LoopStep(false, t, []))
    else if t.openBlockCount == 0 then Finish(t, now, pageSize)
    else
      var (v, errors) := Validate(t);
      if v.state != Testing then Prefix(errors, Finish(v, now, pageSize))
      else
        match Record(v, now)
        case Panic(reason) => Panic(reason)
        case Return(recorded) => Prefix(recorded.1, Finish(recorded.0, now, pageSize))
  }

  class RepetitionTester {
    var targetByteCount: nat
    var cpuTimerFrequency: nat
    var tryForTime: nat
    var testsStartedAt: nat
    var openBlockCount: nat
    var closedBlockCount: nat
    var timeAccumulated: int
    var bytesAccumulated: nat
    var faultsAccumulated: int
    var state: TestState
    var results: TestResult
    /** Everything printed so far. */
    var events: seq<Event>

    ghost function Snapshot(): Tester
      reads this
    {
      Tester(targetByteCount, cpuTimerFrequency, tryForTime, testsStartedAt, openBlockCount, closedBlockCount,
             timeAccumulated, bytesAccumulated, faultsAccumulated, state, results)
    }

    constructor (targetByteCount: nat, cpuTimerFrequency: nat, secondsToTry: Option<nat>, now: nat)
      ensures Snapshot() == Started(targetByteCount, cpuTimerFrequency, secondsToTry, now)
      ensures events == []
    {
      this.targetByteCount := targetByteCount;
      this.cpuTimerFrequency := cpuTimerFrequency;
      tryForTime := cpuTimerFrequency * (if secondsToTry.Some? then secondsToTry.value else 10);
      testsStartedAt := now;
      openBlockCount, closedBlockCount := 0, 0;
      timeAccumulated, bytesAccumulated, faultsAccumulated := 0, 0, 0;
      state := Testing;
      results := InitialResult;
      events := [];
    }

    method NewWave(targetByteCount: nat, cpuTimerFrequency: nat, secondsToTry: Option<nat>, now: nat)
      modifies this
      ensures Snapshot() == AfterNewWave(old(Snapshot()), targetByteCount, cpuTimerFrequency, secondsToTry, now).0
      ensures events == old(events) + AfterNewWave(old(Snapshot()), targetByteCount, cpuTimerFrequency, secondsToTry, now).1
    {
      state := Testing;
      if this.targetByteCount != targetByteCount {
        Error("Target bytes count changed");
      }
      if this.cpuTimerFrequency != cpuTimerFrequency {
        Error("CPU timer frequency changed");
      }
      tryForTime := cpuTimerFrequency * (if secondsToTry.Some? then secondsToTry.value else 10);
      testsStartedAt := now;
    }

    method Begin(now: nat, faults: nat)
      modifies this
      ensures Snapshot() == AfterBegin(old(Snapshot()), now, faults)
      ensures events == old(events)
    {
      openBlockCount := openBlockCount + 1;
      timeAccumulated := timeAccumulated - now;
      faultsAccumulated := faultsAccumulated - faults;
    }

    method End(now: nat, faults: nat)
      modifies this
      ensures Snapshot() == AfterEnd(old(Snapshot()), now, faults)
      ensures events == old(events)
    {
      closedBlockCount := closedBlockCount + 1;
      timeAccumulated := timeAccumulated + now;
      faultsAccumulated := faultsAccumulated + faults;
    }

    method CountBytes(bytes: nat)
      modifies this
      ensures Snapshot() == AfterCountBytes(old(Snapshot()), bytes)
      ensures events == old(events)
    {
      bytesAccumulated := bytesAccumulated + bytes;
    }

    method Error(text: string)
      modifies this
      ensures Snapshot() == old(Snapshot()).(state := TestState.Error)
      ensures events == old(events) + [ErrorMessage(text)]
    {
      state := TestState.Error;
      events := events + [ErrorMessage(text)];
    }

    method ResetAfterIteration()
      modifies this
      ensures Snapshot() == Reset(old(Snapshot()))
      ensures events == old(events)
    {
      openBlockCount, closedBlockCount := 0, 0;
      timeAccumulated, bytesAccumulated, faultsAccumulated := 0, 0, 0;
    }

    /** `loop_test`: whether to run another iteration, or the panic the
        source would end in. `pageSize` is the outcome of `get_page_size()`
        (`PageFaults.PageSizeCache.GetPageSize`) in case the run completes. */
    method LoopTest(now: nat, pageSize: Outcome<nat>) returns (r: Outcome<bool>)
      modifies this
      ensures AfterLoopTest(old(Snapshot()), now, pageSize).Panic? ==> r == Panic(AfterLoopTest(old(Snapshot()), now, pageSize).reason)
      ensures AfterLoopTest(old(Snapshot()), now, pageSize).Return? ==>
        var step := AfterLoopTest(old(Snapshot()), now, pageSize).value;
        r == Return(step.more) && Snapshot() == step.tester && events == old(events) + step.events
    {
      if state != Testing {
        return Return(false);
      }
      if openBlockCount > 0 {
        CheckIteration();
        if state == Testing {
          var failed := RecordIteration(now);
          if failed.Some? {
            return Panic(failed.value);
          }
        }
      }
      r := FinishIteration(now, pageSize);
    }

    /** The two checks of `loop_test`. */
    method CheckIteration()
      modifies this
      ensures Snapshot() == Validate(old(Snapshot())).0
      ensures events == old(events) + Validate(old(Snapshot())).1
    {
      if openBlockCount != closedBlockCount {
        Error(UnbalancedMessage);
      }
      if bytesAccumulated != targetByteCount {
        Error(ByteMismatchMessage(bytesAccumulated, targetByteCount));
      }
    }

    /** Recording a valid iteration in `loop_test`; the panic message, if
        one of the conversions fails or a new minimum cannot be printed. */
    method RecordIteration(now: nat) returns (failed: Option<string>)
      modifies this
      ensures Record(old(Snapshot()), now).Panic? ==> failed == Some(Record(old(Snapshot()), now).reason)
      ensures Record(old(Snapshot()), now).Return? ==>
        failed == None && Snapshot() == Record(old(Snapshot()), now).value.0
        && events == old(events) + Record(old(Snapshot()), now).value.1
    {
      if openBlockCount == 1 {
        if faultsAccumulated < 0 || faultsAccumulated > U64_MAX {
          return Some(TryFromIntUnwrap);
        }
        results := results.(pageFaults := faultsAccumulated as nat);
      }
      if timeAccumulated < 0 || timeAccumulated > U64_MAX {
        return Some(NegativeTime);
      }
      var elapsed: nat := timeAccumulated;
      results := results.(testCount := results.testCount + 1, totalTime := results.totalTime + elapsed,
                          maxTime := Max(results.maxTime, elapsed));
      if results.minTime > elapsed {
        results := results.(minTime := elapsed);
        testsStartedAt := now;
        if cpuTimerFrequency == 0 || (cpuTimerFrequency == 1 && elapsed >= U64_MAX + 1 - 1024) {
          return Some(DurationMessage);
        }
        events := events + [NewMinimum(results.minTime, bytesAccumulated)];
      }
      ResetAfterIteration();
      failed := None;
    }

    /** The completion check at the end of `loop_test`. */
    method FinishIteration(now: nat, pageSize: Outcome<nat>) returns (r: Outcome<bool>)
      modifies this
      ensures Finish(old(Snapshot()), now, pageSize).Panic? ==> r == Panic(Finish(old(Snapshot()), now, pageSize).reason)
      ensures Finish(old(Snapshot()), now, pageSize).Return? ==>
        var step := Finish(old(Snapshot()), now, pageSize).value;
        r == Return(step.more) && Snapshot() == step.tester && events == old(events) + step.events
    {
      if now < testsStartedAt {
        return Panic("attempt to subtract with overflow");
      }
      if now - testsStartedAt > tryForTime {
        state := Completed;
        var failed := PrintResults(pageSize);
        if failed.Some? {
          return Panic(failed.value);
        }
      }
      r := Return(state == Testing);
    }

    /** `print_results`, with the average as the integer quotient; the
        panic message, if one of its steps fails. */
    method PrintResults(pageSize: Outcome<nat>) returns (failed: Option<string>)
      modifies this`events
      ensures Summarize(results, cpuTimerFrequency, pageSize).Panic? ==>
        failed == Some(Summarize(results, cpuTimerFrequency, pageSize).reason) && events == old(events)
      ensures Summarize(results, cpuTimerFrequency, pageSize).Return? ==>
        failed == None && events == old(events) + [Summarize(results, cpuTimerFrequency, pageSize).value]
    {
      if results.testCount == 0 {
        return Some(DivideByZero);
      }
      var average := results.totalTime / results.testCount;
      if DurationPanics(results.minTime, cpuTimerFrequency) || DurationPanics(results.maxTime, cpuTimerFrequency)
         || DurationPanics(average, cpuTimerFrequency) {
        return Some(DurationMessage);
      }
      if pageSize.Panic? {
        return Some(pageSize.reason);
      }
      var size := pageSize.value;
      if size * results.pageFaults > U64_MAX {
        return Some(MultiplyOverflow);
      }
      events := events + [Summary(results.minTime, results.maxTime, average, results.pageFaults, size)];
      failed := None;
    }
  }

  /** `loop_test` outside the Testing state returns false and changes
      nothing. */
  lemma LoopTestWhenNotTesting(t: Tester, now: nat, pageSize: Outcome<nat>)
    requires t.state != Testing
    ensures AfterLoopTest(t, now, pageSize) == Return(LoopStep(false, t, []))
  {
  }

  /** An iteration with unbalanced blocks or the wrong byte count is an
      error: the results and the per-iteration accumulators are left as
      they were, and the call returns false. If the time budget has run out
      the state ends Completed all the same, hiding the error, and the
      summary is printed. The call panics exactly when the clock reads
      before the last new minimum or that summary fails. */
  lemma RejectedIteration(t: Tester, now: nat, pageSize: Outcome<nat>)
    requires t.state == Testing && t.openBlockCount > 0
    requires t.openBlockCount != t.closedBlockCount || t.bytesAccumulated != t.targetByteCount
    ensures var o := AfterLoopTest(t, now, pageSize);
      o.Return? <==> now >= t.testsStartedAt && (now - t.testsStartedAt > t.tryForTime ==>
                       Summarize(t.results, t.cpuTimerFrequency, pageSize).Return?)
    ensures var o := AfterLoopTest(t, now, pageSize);
      o.Return? ==>
        && !o.value.more
        && o.value.tester == t.(state := if now - t.testsStartedAt > t.tryForTime then Completed else Error)
        && |o.value.events| > 0 && o.value.events[0].ErrorMessage?
  {
  }

  /** A valid iteration adds its elapsed ticks to the results, records the
      fault count when there was exactly one block, restarts the time
      budget only on a strictly smaller minimum, and resets the
      per-iteration counters. It panics exactly when that new minimum
      cannot be printed, the clock reads before the restart, or the run
      completes and its summary fails. */
  lemma AcceptedIteration(t: Tester, now: nat, pageSize: Outcome<nat>)
    requires t.state == Testing && t.openBlockCount > 0
    requires t.openBlockCount == t.closedBlockCount && t.bytesAccumulated == t.targetByteCount
    requires FitsU64(t.timeAccumulated) && (t.openBlockCount == 1 ==> FitsU64(t.faultsAccumulated))
    ensures var o := AfterLoopTest(t, now, pageSize);
      var elapsed: nat := t.timeAccumulated;
      var lower := t.results.minTime > elapsed;
      var restart := if lower then now else t.testsStartedAt;
      var results := Accept(t.results, elapsed, if t.openBlockCount == 1 then Some(t.faultsAccumulated as nat) else None);
      o.Return? <==>
        && (lower ==> !DurationPanics(elapsed, t.cpuTimerFrequency))
        && now >= restart
        && (now - restart > t.tryForTime ==> Summarize(results, t.cpuTimerFrequency, pageSize).Return?)
    ensures var o := AfterLoopTest(t, now, pageSize);
      var elapsed: nat := t.timeAccumulated;
      var restart := if t.results.minTime > elapsed then now else t.testsStartedAt;
      o.Return? ==>
        && o.value.tester.results.testCount == t.results.testCount + 1
        && o.value.tester.results == Accept(t.results, elapsed,
             if t.openBlockCount == 1 then Some(t.faultsAccumulated as nat) else None)
        && o.value.tester.testsStartedAt == restart
        && o.value.tester.openBlockCount == 0 && o.value.tester.closedBlockCount == 0
        && o.value.tester.timeAccumulated == 0 && o.value.tester.bytesAccumulated == 0
        && o.value.tester.faultsAccumulated == 0
        && (o.value.more <==> now - restart <= t.tryForTime)
  {
    assert Validate(t) == (t, []);
  }

  /** An elapsed time that `u64` cannot hold ends the program: a negative
      one (an `end` reading before its `begin`) or one above `u64::MAX`
      (several blocks, each long). So does such a fault count after a single
      block. Together with `AcceptedIteration`, a valid iteration panics in
      the recording step exactly when one of the two conversions fails or
      the new minimum cannot be printed. */
  lemma UnconvertibleIterationPanics(t: Tester, now: nat, pageSize: Outcome<nat>)
    requires t.state == Testing && t.openBlockCount > 0
    requires t.openBlockCount == t.closedBlockCount && t.bytesAccumulated == t.targetByteCount
    requires !FitsU64(t.timeAccumulated) || (t.openBlockCount == 1 && !FitsU64(t.faultsAccumulated))
    ensures AfterLoopTest(t, now, pageSize).Panic?
    ensures AfterLoopTest(t, now, pageSize).reason == if t.openBlockCount == 1 && !FitsU64(t.faultsAccumulated)
      then TryFromIntUnwrap else NegativeTime
  {
    assert Validate(t) == (t, []);
  }

  /** A timer frequency of 0, which `estimate_cpu_frequency` gives for a
      timer that does not advance within its 100 ms wait, makes every
      throughput infinite (or NaN): a valid iteration that lowers the
      minimum panics when printing it, and so does every summary. */
  lemma ZeroFrequencyPanics(t: Tester, now: nat, pageSize: Outcome<nat>)
    requires t.state == Testing && t.cpuTimerFrequency == 0
    requires t.openBlockCount > 0 && t.openBlockCount == t.closedBlockCount && t.bytesAccumulated == t.targetByteCount
    requires FitsU64(t.timeAccumulated) && (t.openBlockCount == 1 ==> FitsU64(t.faultsAccumulated))
    requires t.results.minTime > t.timeAccumulated
    ensures AfterLoopTest(t, now, pageSize) == Panic(DurationMessage)
    ensures forall r: TestResult {:trigger Summarize(r, 0, pageSize)} ::
      r.testCount > 0 ==> Summarize(r, 0, pageSize) == Panic(DurationMessage)
  {
    assert Validate(t) == (t, []);
  }

  /** Without an opened block, the results and counters stay as they were;
      the call only checks the time budget. */
  lemma NoBlockKeepsResults(t: Tester, now: nat, pageSize: Outcome<nat>)
    requires t.state == Testing && t.openBlockCount == 0
    ensures var o := AfterLoopTest(t, now, pageSize);
      o.Return? ==> o.value.tester.(state := Testing) == t && (o.value.more <==> o.value.tester.state == Testing)
  {
  }

  /** The return value is whether the state is still Testing, and the state
      is Completed exactly when more than the budget has passed since the
      last new minimum; a completed run has printed one summary line of its
      results. */
  lemma CompletionRule(t: Tester, now: nat, pageSize: Outcome<nat>)
    requires t.state == Testing
    ensures var o := AfterLoopTest(t, now, pageSize);
      o.Return? ==>
        && (o.value.more <==> o.value.tester.state == Testing)
        && now >= o.value.tester.testsStartedAt
        && (o.value.tester.state == Completed <==> now - o.value.tester.testsStartedAt > o.value.tester.tryForTime)
        && (o.value.tester.state == Completed ==>
              o.value.events[|o.value.events| - 1] == Summarize(o.value.tester.results, t.cpuTimerFrequency, pageSize).value)
  {
    if t.openBlockCount > 0 {
      var (v, errors) := Validate(t);
      if v.state == Testing && Record(v, now).Return? {
        var rec := Record(v, now).value.0;
        assert rec.tryForTime == t.tryForTime && rec.state == Testing;
      }
    }
  }

  /** Running out of time before any iteration was accepted divides by a
      zero test count when the summary is computed. */
  lemma CompletingWithoutTestsPanics(t: Tester, now: nat, pageSize: Outcome<nat>)
    requires t.state == Testing && t.openBlockCount == 0 && t.results.testCount == 0
    requires now > t.testsStartedAt + t.tryForTime
    ensures AfterLoopTest(t, now, pageSize) == Panic(DivideByZero)
  {
  }

  /** A new wave keeps the results, the stored byte count and timer
      frequency, and the per-iteration state; it is in error exactly when
      the byte count or the frequency differs. */
  lemma NewWaveKeepsResults(t: Tester, targetByteCount: nat, cpuTimerFrequency: nat, secondsToTry: Option<nat>, now: nat)
    ensures var (w, events) := AfterNewWave(t, targetByteCount, cpuTimerFrequency, secondsToTry, now);
      && w.results == t.results
      && w.targetByteCount == t.targetByteCount && w.cpuTimerFrequency == t.cpuTimerFrequency
      && w.(state := t.state, tryForTime := t.tryForTime, testsStartedAt := t.testsStartedAt) == t
      && (w.state == Testing <==> targetByteCount == t.targetByteCount && cpuTimerFrequency == t.cpuTimerFrequency)
      && w.state != Completed
      && |events| == (if targetByteCount == t.targetByteCount then 0 else 1) + (if cpuTimerFrequency == t.cpuTimerFrequency then 0 else 1)
      && w.tryForTime == TryForTime(cpuTimerFrequency, secondsToTry) && w.testsStartedAt == now
  {
  }

  /** A bracketed block: the timer and fault readings of its `begin` and of
      its `end`. */
  datatype Block = Block(beginTime: nat, beginFaults: nat, endTime: nat, endFaults: nat)

  /** The tester after `begin`/`end` pairs, in order. */
  function Bracket(t: Tester, bs: seq<Block>): Tester
    decreases |bs|
  {
    if |bs| == 0 then t
    else
      var b := bs[|bs| - 1];
      AfterEnd(AfterBegin(Bracket(t, bs[..|bs| - 1]), b.beginTime, b.beginFaults), b.endTime, b.endFaults)
  }

  function ElapsedSum(bs: seq<Block>): int
    decreases |bs|
  {
    if |bs| == 0 then 0
    else ElapsedSum(bs[..|bs| - 1]) + (bs[|bs| - 1].endTime - bs[|bs| - 1].beginTime)
  }

  function FaultsSum(bs: seq<Block>): int
    decreases |bs|
  {
    if |bs| == 0 then 0
    else FaultsSum(bs[..|bs| - 1]) + (bs[|bs| - 1].endFaults - bs[|bs| - 1].beginFaults)
  }

  /** After balanced pairs the accumulators hold the sums of the
      differences of the readings, and as many blocks were opened as were
      closed. */
  lemma {:induction false} BalancedBlocks(t: Tester, bs: seq<Block>)
    ensures var u := Bracket(t, bs);
      && u.timeAccumulated == t.timeAccumulated + ElapsedSum(bs)
      && u.faultsAccumulated == t.faultsAccumulated + FaultsSum(bs)
      && u.openBlockCount == t.openBlockCount + |bs|
      && u.closedBlockCount == t.closedBlockCount + |bs|
      && u.(timeAccumulated := t.timeAccumulated, faultsAccumulated := t.faultsAccumulated,
            openBlockCount := t.openBlockCount, closedBlockCount := t.closedBlockCount) == t
    decreases |bs|
  {
    if |bs| > 0 {
      BalancedBlocks(t, bs[..|bs| - 1]);
    }
  }

  /** The results after accepting iterations that took `es` ticks, from the
      initial results, when no fault count is recorded. */
  function AcceptAll(es: seq<nat>): TestResult
    decreases |es|
  {
    if |es| == 0 then InitialResult else Accept(AcceptAll(es[..|es| - 1]), es[|es| - 1], None)
  }

  function Sum(es: seq<nat>): nat
    decreases |es|
  {
    if |es| == 0 then 0 else Sum(es[..|es| - 1]) + es[|es| - 1]
  }

  /** The largest element, 0 for none. */
  function MaxOf(es: seq<nat>): (m: nat)
    ensures forall i :: 0 <= i < |es| ==> es[i] <= m
    ensures |es| > 0 ==> exists i :: 0 <= i < |es| && es[i] == m
    decreases |es|
  {
    if |es| == 0 then 0
    else
      var m := MaxOf(es[..|es| - 1]);
      assert forall i :: 0 <= i < |es| - 1 ==> es[..|es| - 1][i] == es[i];
      if es[|es| - 1] > m then es[|es| - 1] else m
  }

  function MinOf(es: seq<nat>): (m: nat)
    requires |es| > 0
    ensures forall i :: 0 <= i < |es| ==> m <= es[i]
    ensures exists i :: 0 <= i < |es| && es[i] == m
    decreases |es|
  {
    if |es| == 1 then es[0]
    else
      var m := MinOf(es[..|es| - 1]);
      assert forall i :: 0 <= i < |es| - 1 ==> es[..|es| - 1][i] == es[i];
      if es[|es| - 1] < m then es[|es| - 1] else m
  }

  /** Accepting `u64` elapsed times e1..ek gives count k, total the sum of
      the e, maximum their maximum and minimum their minimum (`u64::MAX`
      when k = 0). */
  lemma {:induction false} AcceptAllStats(es: seq<nat>)
    requires forall i :: 0 <= i < |es| ==> es[i] <= U64_MAX
    ensures AcceptAll(es).testCount == |es|
    ensures AcceptAll(es).totalTime == Sum(es)
    ensures AcceptAll(es).maxTime == MaxOf(es)
    ensures AcceptAll(es).minTime == if |es| == 0 then U64_MAX else MinOf(es)
    ensures AcceptAll(es).pageFaults == 0
    decreases |es|
  {
    if |es| > 0 {
      var init := es[..|es| - 1];
      assert forall i :: 0 <= i < |init| ==> init[i] == es[i];
      AcceptAllStats(init);
    }
  }

  lemma MulMono(n: nat, a: nat, b: nat)
    requires a <= b
    ensures n * a <= n * b
  {
  }

  lemma MulSucc(n: nat, a: nat)
    ensures (n + 1) * a == n * a + a
  {
  }

  lemma {:induction false} SumBounds(es: seq<nat>)
    requires |es| > 0
    ensures |es| * MinOf(es) <= Sum(es) <= |es| * MaxOf(es)
    decreases |es|
  {
    if |es| > 1 {
      var init := es[..|es| - 1];
      var n, x := |init|, es[|es| - 1];
      SumBounds(init);
      var lo, hi := MinOf(es), MaxOf(es);
      var mi, ma := MinOf(init), MaxOf(init);
      assert lo == (if x < mi then x else mi);
      assert hi == (if x > ma then x else ma);
      assert Sum(es) == Sum(init) + x;
      MulMono(n, lo, mi);
      MulMono(n, ma, hi);
      MulSucc(n, lo);
      MulSucc(n, hi);
    }
  }

  /** Hence, once an iteration is accepted, count * minimum <= total <=
      count * maximum. */
  lemma AcceptAllBounds(es: seq<nat>)
    requires |es| > 0 && forall i :: 0 <= i < |es| ==> es[i] <= U64_MAX
    ensures var r := AcceptAll(es);
      r.testCount * r.minTime <= r.totalTime <= r.testCount * r.maxTime
  {
    AcceptAllStats(es);
    SumBounds(es);
  }

  /** The summary of accepted `u64` times e1..ek, at a frequency of at
      least 2 and with the page size known: their minimum, their maximum
      and the integer mean, which lies between the two, and no page
      faults. */
  lemma SummaryOfAccepted(es: seq<nat>, frequency: nat, size: nat)
    requires |es| > 0 && forall i :: 0 <= i < |es| ==> es[i] <= U64_MAX
    requires frequency >= 2
    ensures Summarize(AcceptAll(es), frequency, Return(size))
      == Return(Summary(MinOf(es), MaxOf(es), Sum(es) / |es|, 0, size))
    ensures MinOf(es) <= Sum(es) / |es| <= MaxOf(es)
  {
    AcceptAllStats(es);
    SumBounds(es);
    MeanBounds(Sum(es), |es|, MinOf(es), MaxOf(es));
  }

  lemma MeanBounds(total: nat, count: nat, lo: nat, hi: nat)
    requires count > 0 && count * lo <= total <= count * hi
    ensures lo <= total / count <= hi
  {
    var q := total / count;
    assert count * q <= total < count * (q + 1);
    if q < lo {
      MulMono(count, q + 1, lo);
    }
    if q > hi {
      MulMono(count, hi + 1, q);
    }
  }
}
