/** The page-fault probe (instrument/src/page_faults.rs): reading the fault
    count out of the text `top` prints, and the page size kept in a
    process-wide cache. The processes `top` and `pagesize` are not run: their
    standard output is a parameter, `None` when the command could not be
    started. */
module PageFaults {
  import opened Common
  import opened Decimal
  import opened Utf8

  /** The `io::ErrorKind`s the probe reports; `CommandFailed` stands for the
      error of starting `top`, which `?` passes on unchanged. */
  datatype IoError = InvalidData | InvalidInput | CommandFailed

  /** The head of the message `unwrap` panics with. Rust appends `: ` and
      the `Debug` form of the error (an `io::Error`, a `Utf8Error` or a
      `ParseIntError`), which this model does not spell out; the
      conversion panic of the repetition tester, whose error is always
      `TryFromIntError(())`, carries its suffix. */
  const UnwrapMessage := "called `Result::unwrap()` on an `Err` value"

  /** Rust's `char::is_whitespace`: the Unicode White_Space property. */
  predicate IsWhitespace(c: char) {
    var x := c as int;
    || (0x09 <= x <= 0x0D) || x == 0x20 || x == 0x85 || x == 0xA0 || x == 0x1680
    || (0x2000 <= x <= 0x200A) || x == 0x2028 || x == 0x2029 || x == 0x202F
    || x == 0x205F || x == 0x3000
  }

  predicate AllWhitespace(s: string) {
    forall i :: 0 <= i < |s| ==> IsWhitespace(s[i])
  }

  function TrimStart(s: string): (r: string)
    ensures |r| <= |s| && r == s[|s| - |r|..]
    ensures AllWhitespace(s[..|s| - |r|])
    ensures |r| == 0 || !IsWhitespace(r[0])
  {
    if |s| > 0 && IsWhitespace(s[0]) then TrimStart(s[1..]) else s
  }

  function TrimEnd(s: string): (r: string)
    ensures |r| <= |s| && r == s[..|r|]
    ensures AllWhitespace(s[|r|..])
    ensures |r| == 0 || !IsWhitespace(r[|r| - 1])
  {
    if |s| > 0 && IsWhitespace(s[|s| - 1]) then TrimEnd(s[..|s| - 1]) else s
  }

  /** `str::trim`: the text between the leading and the trailing whitespace. */
  function Trim(s: string): (r: string)
    ensures |r| == 0 || (!IsWhitespace(r[0]) && !IsWhitespace(r[|r| - 1]))
  {
    var t := TrimStart(s);
    var r := TrimEnd(t);
    assert |r| > 0 ==> r[0] == t[0];
    r
  }

  /** The position of the first `\n`, or `|s|` when there is none. */
  function NewlineIndex(s: string): (i: nat)
    ensures i <= |s|
    ensures i < |s| ==> s[i] == '\n'
    ensures forall j :: 0 <= j < i ==> s[j] != '\n'
  {
    if |s| == 0 || s[0] == '\n' then 0 else 1 + NewlineIndex(s[1..])
  }

  /** `str::lines`: pieces ending in `\n` (or at the end of the text), with the
      `\n` and a `\r` just before it removed; a final `\n` opens no new line. */
  function Lines(s: string): (ls: seq<string>)
    ensures |ls| <= |s|
    decreases |s|
  {
    if |s| == 0 then []
    else
      var i := NewlineIndex(s);
      if i == |s| then [s]
      else
        var line := s[..i];
        [if |line| > 0 && line[|line| - 1] == '\r' then line[..|line| - 1] else line] + Lines(s[i + 1..])
  }

  /** `lines().skip(11).take(2)`: lines 12 and 13, as many as there are. */
  function FaultsWindow(ls: seq<string>): (w: seq<string>)
    ensures |w| == if |ls| <= 11 then 0 else if |ls| == 12 then 1 else 2
    ensures forall i :: 0 <= i < |w| ==> w[i] == ls[11 + i]
  {
    if |ls| <= 11 then [] else if |ls| == 12 then ls[11..] else ls[11..13]
  }

  /** `get_absolute_page_faults_count` on the output of `top`. */
  function FaultsCount(output: Option<seq<byte>>): Result<nat, IoError> {
    if output.None? then Err(CommandFailed)
    else
      match Decode(output.value)
      case None => Err(InvalidData)
      case Some(text) =>
        var w := FaultsWindow(Lines(text));
        if |w| == 2 && Trim(w[0]) == "FAULTS" then
          match ParseU64(Trim(w[1]))
          case None => Err(InvalidData)
          case Some(n) => Ok(n)
        else Err(InvalidInput)
  }

  /** The outcome of `get_absolute_page_faults_count`, case by case: it
      succeeds exactly when the output is UTF-8 with at least 13 lines, line
      12 trims to `FAULTS` and line 13 trims to a `u64`, which it returns; a
      bad encoding or a bad number is `InvalidData`, any other shape
      `InvalidInput`. */
  lemma FaultsCountCases(output: seq<byte>)
    ensures Decode(output).None? ==> FaultsCount(Some(output)) == Err(InvalidData)
    ensures Decode(output).Some? ==>
      var ls := Lines(Decode(output).value);
      && (FaultsCount(Some(output)).Ok? <==>
            |ls| >= 13 && Trim(ls[11]) == "FAULTS" && ParseU64(Trim(ls[12])).Some?)
      && (FaultsCount(Some(output)).Ok? ==>
            FaultsCount(Some(output)).value == ParseU64(Trim(ls[12])).value
            && FaultsCount(Some(output)).value <= U64_MAX)
      && (|ls| < 13 || Trim(ls[11]) != "FAULTS" ==> FaultsCount(Some(output)) == Err(InvalidInput))
      && (|ls| >= 13 && Trim(ls[11]) == "FAULTS" && ParseU64(Trim(ls[12])).None? ==>
            FaultsCount(Some(output)) == Err(InvalidData))
  {
  }

  /** Only lines 12 and 13 matter: whatever follows them is ignored. */
  lemma LaterLinesIgnored(header: seq<string>, key: string, value: string, tail: string)
    requires |header| == 11
    requires forall i :: 0 <= i < |header| ==> LineText(header[i])
    requires LineText(key) && LineText(value)
    ensures FaultsWindow(Lines(Join(header + [key, value]) + tail)) == [key, value]
  {
    JoinLines(header + [key, value], tail);
  }

  /** A line as `top` may print it: no `\n` in it, and no `\r` at its end
      (which `lines` would take for part of a `\r\n`). */
  predicate LineText(l: string) {
    '\n' !in l && (|l| == 0 || l[|l| - 1] != '\r')
  }

  /** The text of a sequence of lines, each ended by `\n`. */
  function Join(ls: seq<string>): string {
    if |ls| == 0 then [] else ls[0] + "\n" + Join(ls[1..])
  }

  lemma LinesAfter(l: string, rest: string)
    requires LineText(l)
    ensures Lines(l + "\n" + rest) == [l] + Lines(rest)
  {
    var s := l + "\n" + rest;
    NewlineAfter(l, rest);
    assert s[..|l|] == l;
    assert s[|l| + 1..] == rest;
  }

  lemma NewlineAfter(l: string, rest: string)
    requires '\n' !in l
    ensures NewlineIndex(l + "\n" + rest) == |l|
  {
    var s := l + "\n" + rest;
    assert s[|l|] == '\n';
    assert forall j :: 0 <= j < |l| ==> s[j] == l[j];
  }

  /** `lines` splits the text of a sequence of lines back into those lines,
      and goes on with whatever text follows. */
  lemma {:induction false} JoinLines(ls: seq<string>, tail: string)
    requires forall i :: 0 <= i < |ls| ==> LineText(ls[i])
    ensures Lines(Join(ls) + tail) == ls + Lines(tail)
  {
    if |ls| > 0 {
      var rest := Join(ls[1..]) + tail;
      JoinLines(ls[1..], tail);
      JoinCons(ls, tail);
      LinesAfter(ls[0], rest);
      ConsAppend(ls, Lines(tail));
    } else {
      assert Join(ls) + tail == tail;
    }
  }

  lemma JoinCons(ls: seq<string>, tail: string)
    requires |ls| > 0
    ensures Join(ls) + tail == ls[0] + "\n" + (Join(ls[1..]) + tail)
  {
  }

  lemma ConsAppend<T>(xs: seq<T>, ys: seq<T>)
    requires |xs| > 0
    ensures [xs[0]] + (xs[1..] + ys) == xs + ys
  {
    assert [xs[0]] + (xs[1..] + ys) == ([xs[0]] + xs[1..]) + ys;
    assert [xs[0]] + xs[1..] == xs;
  }

  /** Trimming removes exactly the whitespace padding around a text that
      starts and ends with something else. */
  lemma TrimPadded(before: string, s: string, after: string)
    requires AllWhitespace(before) && AllWhitespace(after)
    requires |s| > 0 && !IsWhitespace(s[0]) && !IsWhitespace(s[|s| - 1])
    ensures Trim(before + s + after) == s
  {
    TrimStartPadded(before, s + after);
    assert before + s + after == before + (s + after);
    TrimEndPadded(s, after);
  }

  lemma {:induction false} TrimStartPadded(before: string, s: string)
    requires AllWhitespace(before)
    requires |s| > 0 && !IsWhitespace(s[0])
    ensures TrimStart(before + s) == s
  {
    if |before| > 0 {
      assert (before + s)[1..] == before[1..] + s;
      TrimStartPadded(before[1..], s);
    } else {
      assert before + s == s;
    }
  }

  lemma {:induction false} TrimEndPadded(s: string, after: string)
    requires AllWhitespace(after)
    requires |s| > 0 && !IsWhitespace(s[|s| - 1])
    ensures TrimEnd(s + after) == s
  {
    if |after| > 0 {
      var shorter := after[..|after| - 1];
      assert (s + after)[..|s + after| - 1] == s + shorter;
      TrimEndPadded(s, shorter);
    } else {
      assert s + after == s;
    }
  }

  lemma ShowNotWhitespace(n: nat)
    ensures var s := Show(n);
      |s| > 0 && !IsWhitespace(s[0]) && !IsWhitespace(s[|s| - 1])
  {
    var s := Show(n);
    assert IsDigit(s[0]) && IsDigit(s[|s| - 1]);
  }

  /** Column padding: spaces and tabs. */
  predicate Blanks(p: string) {
    forall i :: 0 <= i < |p| ==> p[i] == ' ' || p[i] == '\t'
  }

  /** A text padded with blanks on both sides is one line. */
  lemma PaddedLine(before: string, s: string, after: string)
    requires Blanks(before) && Blanks(after)
    requires |s| > 0 && '\n' !in s && s[|s| - 1] != '\r'
    ensures LineText(before + s + after)
    ensures AllWhitespace(before) && AllWhitespace(after)
  {
    var l := before + s + after;
    forall i | 0 <= i < |l| ensures l[i] != '\n' {
      if i < |before| {
        assert l[i] == before[i];
      } else if i < |before| + |s| {
        assert l[i] == s[i - |before|];
      } else {
        assert l[i] == after[i - |before| - |s|];
      }
    }
    if |after| > 0 {
      assert l[|l| - 1] == after[|after| - 1];
    } else {
      assert l[|l| - 1] == s[|s| - 1];
    }
  }

  /** The column title line trims to `FAULTS`. */
  lemma KeyLine(before: string, after: string)
    requires Blanks(before) && Blanks(after)
    ensures LineText(before + "FAULTS" + after)
    ensures Trim(before + "FAULTS" + after) == "FAULTS"
  {
    PaddedLine(before, "FAULTS", after);
    TrimPadded(before, "FAULTS", after);
  }

  /** The count line trims to the printed count, which parses back. */
  lemma ValueLine(before: string, n: nat, after: string)
    requires Blanks(before) && Blanks(after)
    requires n <= U64_MAX
    ensures LineText(before + Show(n) + after)
    ensures ParseU64(Trim(before + Show(n) + after)) == Some(n)
  {
    var digits := Show(n);
    ShowNotWhitespace(n);
    assert forall i :: 0 <= i < |digits| ==> IsDigit(digits[i]);
    PaddedLine(before, digits, after);
    TrimPadded(before, digits, after);
    ParseU64Show(n);
  }

  /** The report `top` is asked for: eleven lines of header, then the column
      title `FAULTS` and the count, each padded with blanks, then anything.
      Its encoding reads back as the count. */
  lemma FaultsReport(header: seq<string>, pad1: string, pad2: string, pad3: string, pad4: string, n: nat, tail: string)
    requires |header| == 11
    requires forall i :: 0 <= i < |header| ==> LineText(header[i])
    requires Blanks(pad1) && Blanks(pad2) && Blanks(pad3) && Blanks(pad4)
    requires n <= U64_MAX
    ensures var key := pad1 + "FAULTS" + pad2;
      var value := pad3 + Show(n) + pad4;
      FaultsCount(Some(Encode(Join(header + [key, value]) + tail))) == Ok(n)
  {
    var key := pad1 + "FAULTS" + pad2;
    var value := pad3 + Show(n) + pad4;
    var text := Join(header + [key, value]) + tail;
    DecodeEncode(text);
    KeyLine(pad1, pad2);
    ValueLine(pad3, n, pad4);
    LaterLinesIgnored(header, key, value, tail);
  }

  /** `get_page_size` with an empty cache: the output of `pagesize`, trimmed
      and parsed as a `u64`; each failing `unwrap` panics. */
  function ProbePageSize(output: Option<seq<byte>>): Outcome<nat> {
    if output.None? then Panic(UnwrapMessage)
    else
      match Decode(output.value)
      case None => Panic(UnwrapMessage)
      case Some(text) =>
        match ParseU64(Trim(text))
        case None => Panic(UnwrapMessage)
        case Some(n) => Return(n)
  }

  /** The cache after `get_page_size`, and what it returns. */
  function AfterGetPageSize(cache: nat, output: Option<seq<byte>>): (nat, Outcome<nat>) {
    if cache != 0 then (cache, Return(cache))
    else
      match ProbePageSize(output)
      case Panic(reason) => (cache, Panic(reason))
      case Return(n) => (n, Return(n))
  }

  /** The `PAGE_SIZE` static: 0 means not yet known. */
  class PageSizeCache {
    var pageSize: nat

    constructor()
      ensures pageSize == 0
    {
      pageSize := 0;
    }

    method GetPageSize(output: Option<seq<byte>>) returns (r: Outcome<nat>)
      modifies this
      ensures (pageSize, r) == AfterGetPageSize(old(pageSize), output)
    {
      if pageSize != 0 {
        return Return(pageSize);
      }
      if output.None? {
        return Panic(UnwrapMessage);
      }
      var text := Decode(output.value);
      if text.None? {
        return Panic(UnwrapMessage);
      }
      var parsed := ParseU64(Trim(text.value));
      if parsed.None? {
        return Panic(UnwrapMessage);
      }
      pageSize := parsed.value;
      r := Return(pageSize);
    }
  }

  /** Once `get_page_size` has returned a nonzero size, every later call
      returns that size without looking at the probe, and keeps it. */
  lemma CachedPageSize(cache: nat, first: Option<seq<byte>>, later: Option<seq<byte>>)
    requires AfterGetPageSize(cache, first).1.Return? && AfterGetPageSize(cache, first).1.value != 0
    ensures var (c, r) := AfterGetPageSize(cache, first);
      AfterGetPageSize(c, later) == (c, r)
  {
  }

  /** A probe that reads 0 leaves the cache empty: the next call probes
      again and returns what that probe reads. */
  lemma ZeroPageSizeReprobes(cache: nat, first: Option<seq<byte>>, later: Option<seq<byte>>)
    requires AfterGetPageSize(cache, first).1 == Return(0)
    ensures cache == 0 && AfterGetPageSize(cache, first).0 == 0
    ensures AfterGetPageSize(0, later).1 == ProbePageSize(later)
  {
  }

  /** The size `pagesize` prints, with its newline, is what the first call
      stores and returns. */
  lemma PageSizeOutput(n: nat, padding: string)
    requires 0 < n <= U64_MAX && AllWhitespace(padding)
    ensures AfterGetPageSize(0, Some(Encode(Show(n) + padding))) == (n, Return(n))
  {
    ShowNotWhitespace(n);
    ParseU64Show(n);
    ProbeNumber(Show(n), padding, n);
  }

  lemma ProbeNumber(digits: string, padding: string, n: nat)
    requires ParseU64(digits) == Some(n) && AllWhitespace(padding)
    requires |digits| > 0 && !IsWhitespace(digits[0]) && !IsWhitespace(digits[|digits| - 1])
    ensures ProbePageSize(Some(Encode(digits + padding))) == Return(n)
  {
    ProbeText(digits + padding);
    assert digits + padding == [] + digits + padding;
    TrimPadded([], digits, padding);
  }

  /** Probing the encoding of a text parses the trimmed text. */
  lemma ProbeText(text: string)
    ensures ProbePageSize(Some(Encode(text)))
         == if ParseU64(Trim(text)).Some? then Return(ParseU64(Trim(text)).value) else Panic(UnwrapMessage)
  {
    DecodeEncode(text);
  }
}
