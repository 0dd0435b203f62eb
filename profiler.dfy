/** The hierarchical profiler (instrument/src/profiler.rs): a log of
    entries, one per profiled function or block, and a stack holding the
    log index of each entry still open. The source keeps both in `static
    mut` globals; here they are the fields of one `GlobalProfiler` object,
    with `lastIndex` standing for `LAST_INDEX`. Timer readings are
    parameters (`now`) and printed lines are appended to `output`.

    `Profile` is the value of the object, and `AfterPush`, `AfterEnd` and
    `Report` specify the methods; `RunSpan` runs a properly nested tree of
    profiled calls with the steps the generated code takes (init, push of a
    `CodeBlock` entry, the inner calls, end), and the lemmas about it
    compare the log it leaves with the independent `Entries`. */
module Profiler {
  import opened Common
  import opened Decimal

  datatype EntryData = EntryData(identifier: string, start: nat, end: Option<nat>, index: nat, parentIndex: Option<nat>)

  datatype ProfilerEntry = Function(data: EntryData) | CodeBlock(data: EntryData)

  /** The value of the profiler: the fields of `GlobalProfiler` and the
      stack of open indices. */
  datatype Profile = Profile(start: nat, end: Option<nat>, children: seq<ProfilerEntry>, lastIndex: seq<nat>)

  /** `LAST_INDEX.last().copied()`. */
  function Top(stack: seq<nat>): (r: Option<nat>)
    ensures r.Some? <==> |stack| > 0
    ensures r.Some? ==> r.value == stack[|stack| - 1]
  {
    if |stack| == 0 then None else Some(stack[|stack| - 1])
  }

  /** `LAST_INDEX.pop()`: popping an empty stack leaves it empty. */
  function Pop(stack: seq<nat>): (r: seq<nat>)
    ensures |stack| > 0 ==> r == stack[..|stack| - 1]
    ensures |stack| == 0 ==> r == []
  {
    if |stack| == 0 then [] else stack[..|stack| - 1]
  }

  /** The `{:?}` text of an optional index. */
  function ShowOption(o: Option<nat>): string {
    if o.Some? then "Some(" + Show(o.value) + ")" else "None"
  }

  /** The `{:?}` text of entry data (identifiers are not escaped). */
  function ShowData(d: EntryData): string {
    "ProfilerEntryData { identifier: \"" + d.identifier + "\", start: " + Show(d.start)
      + ", end: " + ShowOption(d.end) + ", index: " + Show(d.index)
      + ", parent_index: " + ShowOption(d.parentIndex) + " }"
  }

  function ShowEntry(e: ProfilerEntry): string {
    (if e.Function? then "Function(" else "CodeBlock(") + ShowData(e.data) + ")"
  }

  /** `ProfilerEntry::compute_runtime`. */
  function ComputeRuntime(e: ProfilerEntry): (r: Outcome<nat>)
    ensures r.Return? <==> e.data.end.Some? && e.data.start <= e.data.end.value
    ensures r.Return? ==> r.value + e.data.start == e.data.end.value
    ensures e.data.end.None? ==> r == Panic("Profiler ended but entry didn't finish: " + ShowEntry(e))
  {
    if e.data.end.Some? then CheckedSub(e.data.end.value, e.data.start)
    else Panic("Profiler ended but entry didn't finish: " + ShowEntry(e))
  }

  /** `ProfilerEntryData::init` at time `now`. */
  function InitData(p: Profile, identifier: string, now: nat): EntryData {
    EntryData(identifier, now, None, 0, Top(p.lastIndex))
  }

  /** `GlobalProfilerWrapper::push`: the new profile, and the caller's entry
      with its index set. */
  function AfterPush(p: Profile, e: ProfilerEntry): (Profile, ProfilerEntry) {
    var index := |p.children|;
    (p.(children := p.children + [e], lastIndex := p.lastIndex + [index]),
     e.(data := e.data.(index := index)))
  }

  /** `ProfilerEntry::end` at time `now`. */
  function AfterEnd(p: Profile, e: ProfilerEntry, now: nat): Outcome<Profile> {
    var i := e.data.index;
    if i < |p.children| then
      var c := p.children[i];
      Return(p.(children := p.children[i := c.(data := c.data.(end := Some(now)))], lastIndex := Pop(p.lastIndex)))
    else Panic("Invalid entry: " + ShowData(e.data))
  }

  /** The line `print_results` prints for an entry that took `runtime`. */
  function Line(e: ProfilerEntry, runtime: nat): string {
    (if e.data.parentIndex.Some? then "\t" else "") + e.data.identifier + " took " + Show(runtime)
      + " cycles and is child of " + ShowOption(e.data.parentIndex)
  }

  /** The lines printed for the entries, in log order, and the panic that
      stops the printing, if any. */
  function ChildLines(cs: seq<ProfilerEntry>): (seq<string>, Option<string>)
    decreases |cs|
  {
    if |cs| == 0 then ([], None)
    else
      var (lines, failed) := ChildLines(cs[..|cs| - 1]);
      if failed.Some? then (lines, failed)
      else
        match ComputeRuntime(cs[|cs| - 1])
        case Panic(reason) => (lines, Some(reason))
        case Return(runtime) => (lines + [Line(cs[|cs| - 1], runtime)], None)
  }

  const Unfinished := "Didn't finish profiling before trying to print results"

  /** `print_results`: what it prints, and the panic it ends in, if any. */
  function Report(p: Profile): (seq<string>, Option<string>) {
    if p.end.None? then ([], Some(Unfinished))
    else
      var (lines, failed) := ChildLines(p.children);
      if failed.Some? then (lines, failed)
      else
        match CheckedSub(p.end.value, p.start)
        case Panic(reason) => (lines, Some(reason))
        case Return(total) => (lines + ["program took " + Show(total) + " cycles"], None)
  }

  class GlobalProfiler {
    var start: nat
    var end: Option<nat>
    var children: seq<ProfilerEntry>
    var lastIndex: seq<nat>
    /** Every line printed so far. */
    var output: seq<string>

    ghost function Snapshot(): Profile
      reads this
    {
      Profile(start, end, children, lastIndex)
    }

    /** The initial value of `GLOBAL_PROFILER` and `LAST_INDEX`. */
    constructor ()
      ensures Snapshot() == Profile(0, None, [], []) && output == []
    {
      start, end, children, lastIndex, output := 0, None, [], [], [];
    }

    /** `ProfilerEntryData::init`: the parent is the innermost open entry. */
    method Init(identifier: string, now: nat) returns (d: EntryData)
      ensures d == InitData(Snapshot(), identifier, now)
      ensures d.end.None? && d.index == 0
      ensures d.parentIndex == (if |lastIndex| == 0 then None else Some(lastIndex[|lastIndex| - 1]))
    {
      d := EntryData(identifier, now, None, 0, if |lastIndex| == 0 then None else Some(lastIndex[|lastIndex| - 1]));
    }

    /** `GlobalProfilerWrapper::start`. */
    method Start(now: nat)
      modifies this
      ensures Snapshot() == old(Snapshot()).(start := now) && output == old(output)
    {
      start := now;
    }

    /** `GlobalProfilerWrapper::end`: stamps the end, then prints. */
    method End(now: nat) returns (failed: Option<string>)
      modifies this
      ensures Snapshot() == old(Snapshot()).(end := Some(now))
      ensures (output, failed) == (old(output) + Report(Snapshot()).0, Report(Snapshot()).1)
    {
      end := Some(now);
      failed := PrintResults();
    }

    /** `GlobalProfilerWrapper::push`: the log grows by the entry as it was
        (its index still 0), and the caller's entry gets its log index,
        which is also pushed on the stack. */
    method Push(entry: ProfilerEntry) returns (indexed: ProfilerEntry)
      modifies this
      ensures (Snapshot(), indexed) == AfterPush(old(Snapshot()), entry) && output == old(output)
      ensures children == old(children) + [entry]
      ensures indexed.data.index == old(|children|) && lastIndex == old(lastIndex) + [old(|children|)]
    {
      children := children + [entry];
      var index := |children| - 1;
      indexed := entry.(data := entry.data.(index := index));
      lastIndex := lastIndex + [index];
    }

    /** `ProfilerEntry::end`: stamps the end of the entry at the caller's
        index and pops the stack once, whatever is on top; an index outside
        the log panics before anything changes. */
    method EndEntry(entry: ProfilerEntry, now: nat) returns (failed: Option<string>)
      modifies this
      ensures AfterEnd(old(Snapshot()), entry, now).Return? ==>
        failed == None && Snapshot() == AfterEnd(old(Snapshot()), entry, now).value
      ensures AfterEnd(old(Snapshot()), entry, now).Panic? ==>
        failed == Some(AfterEnd(old(Snapshot()), entry, now).reason) && Snapshot() == old(Snapshot())
      ensures output == old(output)
    {
      var i := entry.data.index;
      if i < |children| {
        var c := children[i];
        children := children[i := c.(data := c.data.(end := Some(now)))];
      } else {
        return Some("Invalid entry: " + ShowData(entry.data));
      }
      if |lastIndex| > 0 {
        lastIndex := lastIndex[..|lastIndex| - 1];
      }
      failed := None;
    }

    /** `GlobalProfilerWrapper::print_results`. */
    method PrintResults() returns (failed: Option<string>)
      modifies this`output
      ensures output == old(output) + Report(Snapshot()).0
      ensures failed == Report(Snapshot()).1
    {
      if end.None? {
        return Some(Unfinished);
      }
      var i := 0;
      while i < |children|
        invariant 0 <= i <= |children|
        invariant ChildLines(children[..i]).1 == None
        invariant output == old(output) + ChildLines(children[..i]).0
      {
        ChildLinesStep(children, i);
        var runtime := ComputeRuntime(children[i]);
        if runtime.Panic? {
          FailureSticks(children, i + 1);
          return Some(runtime.reason);
        }
        output := output + [Line(children[i], runtime.value)];
        i := i + 1;
      }
      assert children[..i] == children;
      if end.value < start {
        return Some("attempt to subtract with overflow");
      }
      output := output + ["program took " + Show(end.value - start) + " cycles"];
      failed := None;
    }
  }

  /** The lines of one more entry. */
  lemma ChildLinesStep(cs: seq<ProfilerEntry>, i: nat)
    requires i < |cs| && ChildLines(cs[..i]).1 == None
    ensures var r := ComputeRuntime(cs[i]);
      ChildLines(cs[..i + 1]) == if r.Panic? then (ChildLines(cs[..i]).0, Some(r.reason))
                                  else (ChildLines(cs[..i]).0 + [Line(cs[i], r.value)], None)
  {
    assert cs[..i + 1][..i] == cs[..i];
  }

  /** Once printing has stopped, later entries print nothing. */
  lemma {:induction false} FailureSticks(cs: seq<ProfilerEntry>, k: nat)
    requires k <= |cs| && ChildLines(cs[..k]).1.Some?
    ensures ChildLines(cs) == ChildLines(cs[..k])
    decreases |cs| - k
  {
    if k < |cs| {
      assert cs[..k + 1][..k] == cs[..k];
      FailureSticks(cs, k + 1);
    } else {
      assert cs[..k] == cs;
    }
  }

  /** A profiled call as the generated code runs it: the identifier, the
      timer readings at its start and its end, and the profiled calls made
      inside it, in order. */
  datatype Span = Span(identifier: string, startTime: nat, endTime: nat, inner: seq<Span>)

  /** The number of entries a span adds to the log. */
  function Size(s: Span): nat
    decreases s, 0
  {
    1 + Sizes(s.inner)
  }

  function Sizes(ss: seq<Span>): nat
    decreases ss
  {
    if |ss| == 0 then 0 else Size(ss[0]) + Sizes(ss[1..])
  }

  /** init, push, the inner calls, end; the generated code always logs a
      `CodeBlock` entry. */
  function RunSpan(p: Profile, s: Span): Outcome<Profile>
    decreases s, 0
  {
    var (pushed, entry) := AfterPush(p, CodeBlock(InitData(p, s.identifier, s.startTime)));
    match RunSpans(pushed, s.inner)
    case Panic(reason) => Panic(reason)
    case Return(q) => AfterEnd(q, entry, s.endTime)
  }

  function RunSpans(p: Profile, ss: seq<Span>): Outcome<Profile>
    decreases ss
  {
    if |ss| == 0 then Return(p)
    else
      match RunSpan(p, ss[0])
      case Panic(reason) => Panic(reason)
      case Return(q) => RunSpans(q, ss[1..])
  }

  /** The log entries a span should leave, independently of the profiler's
      state: its calls in pre-order, the first at log index `at`, each
      finished at its own end time, with index 0 as `push` logs it, and with
      the call that encloses it as its parent (`parent` for the outermost). */
  function Entries(s: Span, at: nat, parent: Option<nat>): seq<ProfilerEntry>
    decreases s, 0
  {
    [CodeBlock(EntryData(s.identifier, s.startTime, Some(s.endTime), 0, parent))]
      + EntriesOf(s.inner, at + 1, Some(at))
  }

  function EntriesOf(ss: seq<Span>, at: nat, parent: Option<nat>): seq<ProfilerEntry>
    decreases ss
  {
    if |ss| == 0 then [] else Entries(ss[0], at, parent) + EntriesOf(ss[1..], at + Size(ss[0]), parent)
  }

  lemma {:induction false} EntriesSize(s: Span, at: nat, parent: Option<nat>)
    ensures |Entries(s, at, parent)| == Size(s)
    decreases s, 0
  {
    EntriesOfSize(s.inner, at + 1, Some(at));
  }

  lemma {:induction false} EntriesOfSize(ss: seq<Span>, at: nat, parent: Option<nat>)
    ensures |EntriesOf(ss, at, parent)| == Sizes(ss)
    decreases ss
  {
    if |ss| > 0 {
      EntriesSize(ss[0], at, parent);
      EntriesOfSize(ss[1..], at + Size(ss[0]), parent);
    }
  }

  /** Stamping the end of the entry between two parts of the log. */
  lemma StampMiddle(a: seq<ProfilerEntry>, e: ProfilerEntry, b: seq<ProfilerEntry>, now: nat)
    ensures (a + [e] + b)[|a| := e.(data := e.data.(end := Some(now)))]
      == a + [e.(data := e.data.(end := Some(now)))] + b
  {
  }

  /** Properly nested calls never panic, leave the stack, the start and the
      end as they were, keep the earlier log, and append exactly the
      entries `Entries` lists: the outer call first, with the innermost
      entry open before it as its parent. */
  lemma {:induction false} NestedSpan(p: Profile, s: Span)
    ensures RunSpan(p, s).Return?
    ensures var q := RunSpan(p, s).value;
      && q.lastIndex == p.lastIndex && q.start == p.start && q.end == p.end
      && q.children == p.children + Entries(s, |p.children|, Top(p.lastIndex))
    decreases s, 0
  {
    var n := |p.children|;
    var e := CodeBlock(InitData(p, s.identifier, s.startTime));
    var (pushed, entry) := AfterPush(p, e);
    assert Top(pushed.lastIndex) == Some(n);
    NestedSpans(pushed, s.inner);
    var rest := EntriesOf(s.inner, n + 1, Some(n));
    var q := RunSpans(pushed, s.inner).value;
    assert q.children == p.children + [e] + rest by {
      AppendAssoc(p.children, [e], rest);
    }
    assert Pop(q.lastIndex) == p.lastIndex;
    StampMiddle(p.children, e, rest, s.endTime);
    AppendAssoc(p.children, [e.(data := e.data.(end := Some(s.endTime)))], rest);
  }

  /** The calls of `ss` in order, inside whatever entry is open. */
  lemma {:induction false} NestedSpans(p: Profile, ss: seq<Span>)
    ensures RunSpans(p, ss).Return?
    ensures var q := RunSpans(p, ss).value;
      && q.lastIndex == p.lastIndex && q.start == p.start && q.end == p.end
      && q.children == p.children + EntriesOf(ss, |p.children|, Top(p.lastIndex))
    decreases ss
  {
    if |ss| > 0 {
      var n := |p.children|;
      NestedSpan(p, ss[0]);
      var q := RunSpan(p, ss[0]).value;
      EntriesSize(ss[0], n, Top(p.lastIndex));
      NestedSpans(q, ss[1..]);
      AppendAssoc(p.children, Entries(ss[0], n, Top(p.lastIndex)),
                  EntriesOf(ss[1..], n + Size(ss[0]), Top(p.lastIndex)));
    }
  }

  lemma AppendAssoc<T>(a: seq<T>, b: seq<T>, c: seq<T>)
    ensures a + b + c == a + (b + c)
  {
  }

  /** An entry logged at `at + i` by a call whose own parent is `parent`:
      finished, logged by the generated code, and a child of `parent` or of
      an entry logged before it since `at`. */
  predicate NestedEntry(e: ProfilerEntry, at: nat, i: nat, parent: Option<nat>) {
    && e.data.end.Some? && e.CodeBlock?
    && (e.data.parentIndex == parent || (e.data.parentIndex.Some? && at <= e.data.parentIndex.value < at + i))
  }

  /** Every entry of a span is finished, the first has the parent the span
      was started under, and every later one has as its parent an entry the
      same span logged before it: a call's parent is always a call that was
      open when it started. */
  lemma {:induction false} SpanParents(s: Span, at: nat, parent: Option<nat>)
    ensures Entries(s, at, parent)[0].data.parentIndex == parent
    ensures forall i :: 0 <= i < |Entries(s, at, parent)| ==> NestedEntry(Entries(s, at, parent)[i], at, i, parent)
    ensures forall i :: 0 < i < |Entries(s, at, parent)| ==>
      Entries(s, at, parent)[i].data.parentIndex.Some? && at <= Entries(s, at, parent)[i].data.parentIndex.value < at + i
    decreases s, 0
  {
    var es := Entries(s, at, parent);
    var rest := EntriesOf(s.inner, at + 1, Some(at));
    SpansParents(s.inner, at + 1, Some(at));
    assert es == [es[0]] + rest;
    forall i | 0 < i < |es|
      ensures es[i].data.parentIndex.Some? && at <= es[i].data.parentIndex.value < at + i
    {
      assert es[i] == rest[i - 1];
      assert NestedEntry(rest[i - 1], at + 1, i - 1, Some(at));
    }
  }

  /** The entries of several sibling calls: each has the common parent or
      an entry of the siblings logged before it. */
  lemma {:induction false} SpansParents(ss: seq<Span>, at: nat, parent: Option<nat>)
    ensures forall i :: 0 <= i < |EntriesOf(ss, at, parent)| ==> NestedEntry(EntriesOf(ss, at, parent)[i], at, i, parent)
    decreases ss
  {
    if |ss| > 0 {
      var first := Entries(ss[0], at, parent);
      var k := Size(ss[0]);
      var rest := EntriesOf(ss[1..], at + k, parent);
      SpanParents(ss[0], at, parent);
      EntriesSize(ss[0], at, parent);
      SpansParents(ss[1..], at + k, parent);
      var es := EntriesOf(ss, at, parent);
      assert es == first + rest;
      forall i | 0 <= i < |es|
        ensures NestedEntry(es[i], at, i, parent)
      {
        if i < k {
          assert es[i] == first[i];
          assert NestedEntry(first[i], at, i, parent);
        } else {
          assert es[i] == rest[i - k];
          assert NestedEntry(rest[i - k], at + k, i - k, parent);
        }
      }
    }
  }

  /** With the end stamped and every entry finished no earlier than it
      started, `print_results` prints one line per entry in log order, a
      tab before those with a parent, then the total. */
  lemma {:induction false} ReportLines(p: Profile)
    requires p.end.Some? && p.start <= p.end.value
    requires forall i :: 0 <= i < |p.children| ==> ComputeRuntime(p.children[i]).Return?
    ensures Report(p).1 == None
    ensures |Report(p).0| == |p.children| + 1
    ensures forall i :: 0 <= i < |p.children| ==>
      Report(p).0[i] == Line(p.children[i], ComputeRuntime(p.children[i]).value)
    ensures Report(p).0[|p.children|] == "program took " + Show(p.end.value - p.start) + " cycles"
  {
    AllLines(p.children);
  }

  lemma {:induction false} AllLines(cs: seq<ProfilerEntry>)
    requires forall i :: 0 <= i < |cs| ==> ComputeRuntime(cs[i]).Return?
    ensures ChildLines(cs).1 == None && |ChildLines(cs).0| == |cs|
    ensures forall i :: 0 <= i < |cs| ==> ChildLines(cs).0[i] == Line(cs[i], ComputeRuntime(cs[i]).value)
    decreases |cs|
  {
    if |cs| > 0 {
      var init := cs[..|cs| - 1];
      assert forall i :: 0 <= i < |init| ==> init[i] == cs[i];
      AllLines(init);
    }
  }

  /** Printing before the end is stamped panics and prints nothing. */
  lemma ReportBeforeEnd(p: Profile)
    requires p.end.None?
    ensures Report(p) == ([], Some(Unfinished))
  {
  }
}
