/** The JSON tokenizer (json-parser/src/tokens.rs): scans a stream of
    characters into `Token`s. `Scan` states on values what one call of
    `tokenize_json` does to the stream; the class `JsonTokenizer` is the
    loop over the peekable stream that the source runs, proved to agree
    with it. */
module Tokens {
  import opened Common
  import opened Decimal
  import JsonValue

  datatype Token =
    | CurlyOpen
    | CurlyClose
    | Quotes
    | Colon
    | String(s: string)
    | Number(n: JsonValue.Number)
    | ArrayOpen
    | ArrayClose
    | Comma
    | Boolean(b: bool)
    | Null

  /** How a call of `tokenize_json` ends: `Ok` with all tokens (`Finished`),
      `Err(())` from a number that does not convert (`Failed`), a panic, or
      spinning for ever on a whitespace character it never consumes (`Stuck`). */
  datatype Status = Finished | Failed | Panicked(reason: string) | Stuck

  /** The tokens one call emits, how it ends, and the characters it leaves
      unread. */
  datatype ScanResult = ScanResult(tokens: seq<Token>, status: Status, rest: seq<char>)

  /** `char::is_ascii_whitespace`. */
  predicate IsAsciiWhitespace(c: char) {
    c == ' ' || c == '\t' || c == '\n' || c == '\U{000C}' || c == '\r'
  }

  predicate IsStructural(c: char) {
    c == '{' || c == '}' || c == '[' || c == ']' || c == ',' || c == ':'
  }

  function StructuralToken(c: char): (t: Token)
    requires IsStructural(c)
  {
    match c
    case '{' => CurlyOpen
    case '}' => CurlyClose
    case '[' => ArrayOpen
    case ']' => ArrayClose
    case ',' => Comma
    case _ => Colon
  }

  /** The characters `parse_number` consumes. */
  predicate IsNumberChar(c: char) {
    c == '-' || IsDigit(c) || c == '.'
  }

  /** The characters that end a number without being consumed. */
  predicate IsTerminator(c: char) {
    c == '}' || c == ',' || c == ']' || c == ':'
  }

  /** The position of the first `"` in `s`, or `|s|` when there is none. */
  function StringEnd(s: seq<char>): (n: nat)
    ensures n <= |s|
    ensures forall i :: 0 <= i < n ==> s[i] != '"'
    ensures n < |s| ==> s[n] == '"'
  {
    if |s| == 0 || s[0] == '"' then 0 else 1 + StringEnd(s[1..])
  }

  /** The length of the longest prefix of `s` made of number characters. */
  function NumberPrefix(s: seq<char>): (n: nat)
    ensures n <= |s|
    ensures forall i :: 0 <= i < n ==> IsNumberChar(s[i])
    ensures n < |s| ==> !IsNumberChar(s[n])
  {
    if |s| == 0 || !IsNumberChar(s[0]) then 0 else 1 + NumberPrefix(s[1..])
  }

  /** The number the text of a number token denotes: an `f64` when it holds
      a `.`, an `i64` otherwise, or None when the conversion fails. */
  function NumberOf(text: string): (r: Option<JsonValue.Number>)
    ensures r.Some? && r.value.F64? ==> '.' in text && IsFloatText(text) && r.value.text == text
    ensures r.Some? && r.value.I64? ==> '.' !in text && ParseI64(text) == Some(r.value.i)
    ensures r.None? ==> if '.' in text then !IsFloatText(text) else ParseI64(text).None?
  {
    if '.' in text then
      if IsFloatText(text) then Some(JsonValue.F64(text)) else None
    else
      match ParseI64(text)
      case Some(i) => Some(JsonValue.I64(i))
      case None => None
  }

  function Prepend(ts: seq<Token>, r: ScanResult): ScanResult {
    r.(tokens := ts + r.tokens)
  }

  function Skip(s: seq<char>, n: nat): seq<char> {
    if n <= |s| then s[n..] else []
  }

  /** One iteration of the loop of `tokenize_json` on a non-empty stream:
      the tokens it emits and the stream after it, or how the call ends. */
  datatype Step = Advance(ts: seq<Token>, next: seq<char>) | Halt(status: Status, rest: seq<char>)

  function NextStep(s: seq<char>): (r: Step)
    requires |s| > 0
    ensures r.Advance? ==> |r.next| < |s|
  {
    var c := s[0];
    if c == '"' then StringStep(s)
    else if IsStructural(c) then Advance([StructuralToken(c)], s[1..])
    else if c == '-' || IsDigit(c) then NumberStep(s)
    else if c == '\0' then Halt(Finished, s)
    else if c == 'n' then Advance([Null], Skip(s, 4))
    else if c == 't' then Advance([Boolean(true)], Skip(s, 4))
    else if c == 'f' then Advance([Boolean(false)], Skip(s, 5))
    else if IsAsciiWhitespace(c) then Halt(Stuck, s)
    else Halt(Panicked("Unexpected character: ;" + [c] + ";"), s)
  }

  /** A `"`: the quotes around the characters up to the next `"`. */
  function StringStep(s: seq<char>): (r: Step)
    requires |s| > 0
    ensures r.Advance? && |r.next| < |s|
  {
    var body := s[1..];
    var n := StringEnd(body);
    Advance([Quotes, String(body[..n]), Quotes], Skip(body, n + 1))
  }

  /** A `-` or a digit: the number its characters spell, ended by a
      terminator or by the end of the stream. */
  function NumberStep(s: seq<char>): (r: Step)
    requires |s| > 0 && IsNumberChar(s[0])
    ensures r.Advance? ==> |r.next| < |s|
  {
    var n := NumberPrefix(s);
    var rest := s[n..];
    if |rest| > 0 && !IsTerminator(rest[0]) then
      Halt(Panicked("Unexpected character while parsing number: " + [rest[0]]), rest)
    else
      match NumberOf(s[..n])
      case None => Halt(Failed, rest)
      case Some(num) => Advance([Number(num)], rest)
  }

  /** What one call of `tokenize_json` does to the character stream `s`:
      iterate `NextStep` until the stream runs out or a step stops. */
  function Scan(s: seq<char>): (r: ScanResult)
    decreases |s|
  {
    if |s| == 0 then ScanResult([], Finished, [])
    else
      match NextStep(s)
      case Advance(ts, next) => Prepend(ts, Scan(next))
      case Halt(status, rest) => ScanResult([], status, rest)
  }

  /** The tokenizer: the tokens emitted so far, and the characters its
      peekable iterator has not yet handed out. */
  class JsonTokenizer {
    var tokens: seq<Token>
    var stream: seq<char>

    /** `JsonTokenizer::from_bytes` / `new`, on the characters the reader
        produces. */
    constructor FromChars(chars: seq<char>)
      ensures tokens == [] && stream == chars
    {
      tokens := [];
      stream := chars;
    }

    /** `parse_string`: the characters up to the next `"`, which is consumed
        too; without a closing `"` the rest of the stream. There are no
        escapes. */
    method ParseString() returns (str: string)
      modifies this
      ensures var n := StringEnd(old(stream));
        && str == old(stream)[..n]
        && stream == Skip(old(stream), n + 1)
        && tokens == old(tokens)
    {
      ghost var start := stream;
      var chars: seq<char> := [];
      while |stream| > 0
        invariant start == chars + stream
        invariant forall i :: 0 <= i < |chars| ==> chars[i] != '"'
        invariant tokens == old(tokens)
        decreases |stream|
      {
        var c := stream[0];
        assert stream == [c] + stream[1..];
        AppendAssoc(chars, [c], stream[1..]);
        stream := stream[1..];
        if c == '"' {
          StringEndAt(start, |chars|);
          assert start[|chars| + 1..] == stream;
          return chars;
        }
        chars := chars + [c];
      }
      StringEndAt(start, |chars|);
      assert start[..|chars|] == chars;
      str := chars;
    }

    /** `parse_number`: consume `-`, digits and `.`; stop before `}`, `,`,
        `]`, `:` or at the end of the stream; panic on anything else. The
        text converts as an `f64` when a `.` was seen, as an `i64`
        otherwise; a failed conversion is `Err(())`. */
    method ParseNumber() returns (r: Outcome<Result<JsonValue.Number, ()>>)
      modifies this
      ensures var n := NumberPrefix(old(stream));
        && stream == old(stream)[n..]
        && tokens == old(tokens)
        && (r.Panic? <==> (n < |old(stream)| && !IsTerminator(old(stream)[n])))
        && (r.Panic? ==> r.reason == "Unexpected character while parsing number: " + [old(stream)[n]])
        && (r.Return? ==> (r.value.Ok? <==> NumberOf(old(stream)[..n]).Some?))
        && (r.Return? && r.value.Ok? ==> r.value.value == NumberOf(old(stream)[..n]).value)
    {
      ghost var start := stream;
      var chars: seq<char> := [];
      var isDecimal := false;
      while |stream| > 0
        invariant start == chars + stream
        invariant forall i :: 0 <= i < |chars| ==> IsNumberChar(chars[i])
        invariant isDecimal <==> '.' in chars
        invariant tokens == old(tokens)
        decreases |stream|
      {
        var c := stream[0];
        if c == '-' || IsDigit(c) || c == '.' {
          assert stream == [c] + stream[1..];
          AppendAssoc(chars, [c], stream[1..]);
          chars := chars + [c];
          if c == '.' {
            isDecimal := true;
          }
          stream := stream[1..];
        } else if IsTerminator(c) {
          break;
        } else {
          NumberPrefixAt(start, |chars|);
          assert start[|chars|..] == stream;
          return Panic("Unexpected character while parsing number: " + [c]);
        }
      }
      NumberPrefixAt(start, |chars|);
      assert start[..|chars|] == chars && start[|chars|..] == stream;
      if isDecimal {
        if IsFloatText(chars) {
          r := Return(Ok(JsonValue.F64(chars)));
        } else {
          r := Return(Err(()));
        }
      } else {
        match ParseI64(chars)
        case Some(i) => r := Return(Ok(JsonValue.I64(i)));
        case None => r := Return(Err(()));
      }
    }

    /** One iteration of the loop of `tokenize_json`, on the character its
        iterator peeks at: emit tokens and advance, or end the call. Where
        the source loops for ever on a whitespace character it does not
        consume, this ends the call as `Stuck` with that character unread. */
    method Step() returns (stop: Option<Status>)
      requires |stream| > 0
      modifies this
      ensures stop.None? ==> |stream| < |old(stream)|
      ensures stop.None? ==> old(tokens) + Scan(old(stream)).tokens == tokens + Scan(stream).tokens
      ensures stop.None? ==> Scan(stream).status == Scan(old(stream)).status && Scan(stream).rest == Scan(old(stream)).rest
      ensures stop.Some? ==> tokens == old(tokens) && Scan(old(stream)) == ScanResult([], stop.value, stream)
    {
      var c := stream[0];
      ghost var before := stream;
      if c == '"' {
        tokens := tokens + [Quotes];
        stream := stream[1..];
        var str := ParseString();
        tokens := tokens + [String(str), Quotes];
        StringStepIs(before);
        Emitted(before, old(tokens), stream, tokens);
        stop := None;
      } else if IsStructural(c) {
        tokens := tokens + [StructuralToken(c)];
        stream := stream[1..];
        Emitted(before, old(tokens), stream, tokens);
        stop := None;
      } else if c == '-' || IsDigit(c) {
        var r := ParseNumber();
        NumberStepIs(before);
        if r.Panic? {
          ScanStops(before, Panicked(r.reason), stream);
          return Some(Panicked(r.reason));
        }
        if r.value.Err? {
          ScanStops(before, Failed, stream);
          return Some(Failed);
        }
        tokens := tokens + [Number(r.value.value)];
        Emitted(before, old(tokens), stream, tokens);
        stop := None;
      } else if c == '\0' {
        stop := Some(Finished);
        ScanStops(before, Finished, stream);
      } else if c == 'n' || c == 't' || c == 'f' {
        tokens := tokens + [if c == 'n' then Null else Boolean(c == 't')];
        stream := Skip(stream, if c == 'f' then 5 else 4);
        Emitted(before, old(tokens), stream, tokens);
        stop := None;
      } else if IsAsciiWhitespace(c) {
        stop := Some(Stuck);
        ScanStops(before, Stuck, stream);
      } else {
        stop := Some(Panicked("Unexpected character: ;" + [c] + ";"));
        ScanStops(before, stop.value, stream);
      }
    }

    /** `tokenize_json`: run the loop until the stream runs out or a step
        ends the call; the tokens are appended to those of earlier calls. */
    method TokenizeJson() returns (status: Status)
      modifies this
      ensures tokens == old(tokens) + Scan(old(stream)).tokens
      ensures stream == Scan(old(stream)).rest
      ensures status == Scan(old(stream)).status
    {
      ghost var total := Scan(stream);
      while |stream| > 0
        invariant old(tokens) + total.tokens == tokens + Scan(stream).tokens
        invariant Scan(stream).status == total.status && Scan(stream).rest == total.rest
        decreases |stream|
      {
        var stop := Step();
        if stop.Some? {
          return stop.value;
        }
      }
      status := Finished;
    }
  }

  lemma {:induction false} StringEndAt(s: seq<char>, n: nat)
    requires n <= |s|
    requires forall i :: 0 <= i < n ==> s[i] != '"'
    requires n == |s| || s[n] == '"'
    ensures StringEnd(s) == n
  {
    if n > 0 {
      StringEndAt(s[1..], n - 1);
    }
  }

  lemma {:induction false} NumberPrefixAt(s: seq<char>, n: nat)
    requires n <= |s|
    requires forall i :: 0 <= i < n ==> IsNumberChar(s[i])
    requires n == |s| || !IsNumberChar(s[n])
    ensures NumberPrefix(s) == n
  {
    if n > 0 {
      NumberPrefixAt(s[1..], n - 1);
    }
  }

  lemma StringStepIs(s: seq<char>)
    requires |s| > 0 && s[0] == '"'
    ensures var n := StringEnd(s[1..]);
      NextStep(s) == Advance([Quotes, String(s[1..][..n]), Quotes], Skip(s[1..], n + 1))
  {
  }

  lemma NumberStepIs(s: seq<char>)
    requires |s| > 0 && (s[0] == '-' || IsDigit(s[0]))
    ensures var n := NumberPrefix(s);
      && (n < |s| && !IsTerminator(s[n]) ==>
            NextStep(s) == Halt(Panicked("Unexpected character while parsing number: " + [s[n]]), s[n..]))
      && ((n == |s| || IsTerminator(s[n])) && NumberOf(s[..n]).None? ==>
            NextStep(s) == Halt(Failed, s[n..]))
      && ((n == |s| || IsTerminator(s[n])) && NumberOf(s[..n]).Some? ==>
            NextStep(s) == Advance([Number(NumberOf(s[..n]).value)], s[n..]))
  {
  }

  /** The tokens emitted by one step of the loop, as `Scan` accounts for them. */
  lemma Emitted(s0: seq<char>, t0: seq<Token>, s1: seq<char>, t1: seq<Token>)
    requires |s0| > 0 && NextStep(s0).Advance? && t1 == t0 + NextStep(s0).ts && s1 == NextStep(s0).next
    ensures |s1| < |s0|
    ensures t0 + Scan(s0).tokens == t1 + Scan(s1).tokens
    ensures Scan(s1).status == Scan(s0).status && Scan(s1).rest == Scan(s0).rest
  {
    var ts := NextStep(s0).ts;
    ScanEmits(s0, ts, s1);
    var after := Scan(s1).tokens;
    assert Scan(s0).tokens == ts + after;
    AppendAssoc(t0, ts, after);
  }

  lemma AppendAssoc<T>(a: seq<T>, b: seq<T>, c: seq<T>)
    ensures a + (b + c) == (a + b) + c
  {
  }

  lemma ScanEmits(s: seq<char>, ts: seq<Token>, next: seq<char>)
    requires |s| > 0 && NextStep(s) == Advance(ts, next)
    ensures Scan(s) == Prepend(ts, Scan(next))
  {
  }

  lemma ScanStops(s: seq<char>, status: Status, rest: seq<char>)
    requires |s| > 0 && NextStep(s) == Halt(status, rest)
    ensures Scan(s) == ScanResult([], status, rest)
  {
  }

  /** Each of `{ } [ ] , :` emits its one token and consumes one character. */
  lemma ScanStructural(c: char, rest: seq<char>)
    requires IsStructural(c)
    ensures Scan([c] + rest) == Prepend([StructuralToken(c)], Scan(rest))
  {
    assert ([c] + rest)[1..] == rest;
  }

  /** A `"` emits `Quotes, String(body), Quotes` for the characters up to the
      next `"`, and consumes that `"` too. */
  lemma ScanString(body: string, rest: seq<char>)
    requires '"' !in body
    ensures Scan(['"'] + body + ['"'] + rest) == Prepend([Quotes, String(body), Quotes], Scan(rest))
  {
    var s := ['"'] + body + ['"'] + rest;
    var tail := s[1..];
    assert tail == body + (['"'] + rest);
    StringEndAt(tail, |body|);
    assert tail[..|body|] == body;
    assert Skip(tail, |body| + 1) == rest;
  }

  /** A string that is never closed takes the rest of the stream. */
  lemma ScanUnterminatedString(body: string)
    requires '"' !in body
    ensures Scan(['"'] + body) == ScanResult([Quotes, String(body), Quotes], Finished, [])
  {
    var s := ['"'] + body;
    assert s[1..] == body;
    StringEndAt(body, |body|);
    assert body[..|body|] == body;
  }

  /** `n` and `t` emit their token and skip four characters, `f` five,
      whatever the characters are. */
  lemma ScanKeyword(c: char, rest: seq<char>)
    requires c == 'n' || c == 't' || c == 'f'
    ensures var skipped := if c == 'f' then 4 else 3;
      Scan([c] + rest) == Prepend([if c == 'n' then Null else Boolean(c == 't')], Scan(Skip(rest, skipped)))
  {
    var s := [c] + rest;
    var n := if c == 'f' then 5 else 4;
    assert Skip(s, n) == Skip(rest, n - 1);
  }

  /** A number is the longest run of `-`, digits and `.`; a terminator or the
      end of the stream after it yields its token, or `Err` when the text
      does not convert. */
  lemma ScanNumber(text: string, rest: seq<char>)
    requires |text| > 0 && (text[0] == '-' || IsDigit(text[0]))
    requires forall i :: 0 <= i < |text| ==> IsNumberChar(text[i])
    requires rest == [] || IsTerminator(rest[0])
    ensures NumberOf(text).None? ==> Scan(text + rest) == ScanResult([], Failed, rest)
    ensures NumberOf(text).Some? ==> Scan(text + rest) == Prepend([Number(NumberOf(text).value)], Scan(rest))
  {
    var s := text + rest;
    NumberPrefixAt(s, |text|);
    assert s[..|text|] == text && s[|text|..] == rest;
  }

  /** Any other character inside a number panics. */
  lemma ScanNumberPanics(text: string, c: char, rest: seq<char>)
    requires |text| > 0 && (text[0] == '-' || IsDigit(text[0]))
    requires forall i :: 0 <= i < |text| ==> IsNumberChar(text[i])
    requires !IsNumberChar(c) && !IsTerminator(c)
    ensures Scan(text + [c] + rest).status == Panicked("Unexpected character while parsing number: " + [c])
    ensures Scan(text + [c] + rest).tokens == []
  {
    var s := text + [c] + rest;
    assert s[|text|] == c;
    assert forall i :: 0 <= i < |text| ==> s[i] == text[i];
    NumberPrefixAt(s, |text|);
    NumberStepIs(s);
  }

  /** `'\0'` ends the call with nothing emitted and the `'\0'` unread, so a
      later call ends the same way. */
  lemma ScanNul(rest: seq<char>)
    ensures Scan(['\0'] + rest) == ScanResult([], Finished, ['\0'] + rest)
  {
  }

  /** Whitespace outside a string is never consumed: the call is stuck on
      it, and running again from there makes no progress either. */
  lemma ScanWhitespace(c: char, rest: seq<char>)
    requires IsAsciiWhitespace(c)
    ensures Scan([c] + rest) == ScanResult([], Stuck, [c] + rest)
  {
  }

  /** Any other character panics. */
  lemma ScanUnexpected(c: char, rest: seq<char>)
    requires !IsStructural(c) && !IsNumberChar(c) && !IsAsciiWhitespace(c)
    requires c != '"' && c != '\0' && c != 'n' && c != 't' && c != 'f'
    ensures Scan([c] + rest) == ScanResult([], Panicked("Unexpected character: ;" + [c] + ";"), [c] + rest)
  {
  }

  /** What a call leaves unread is a suffix of its stream. */
  lemma {:induction false} ScanRestIsSuffix(s: seq<char>)
    ensures |Scan(s).rest| <= |s|
    ensures Scan(s).rest == s[|s| - |Scan(s).rest|..]
    decreases |s|
  {
    if |s| > 0 {
      match NextStep(s)
      case Advance(ts, next) =>
        ScanEmits(s, ts, next);
        ScanRestIsSuffix(next);
        NextIsSuffix(s);
      case Halt(status, rest) =>
        ScanStops(s, status, rest);
        StopIsSuffix(s);
    }
  }

  lemma NextIsSuffix(s: seq<char>)
    requires |s| > 0 && NextStep(s).Advance?
    ensures NextStep(s).next == s[|s| - |NextStep(s).next|..]
  {
    var c := s[0];
    if c == '"' {
      var body := s[1..];
      var n := StringEnd(body);
      if n + 1 <= |body| {
        assert body[n + 1..] == s[n + 2..];
      }
    } else if c == '-' || IsDigit(c) {
    } else if c == 'n' || c == 't' || c == 'f' {
    }
  }

  lemma StopIsSuffix(s: seq<char>)
    requires |s| > 0 && NextStep(s).Halt?
    ensures NextStep(s).rest == s[|s| - |NextStep(s).rest|..]
  {
  }

  /** A call that ended on `'\0'`, on whitespace or at the end of the stream
      leaves a stream on which the next call emits nothing and ends the
      same way: the whitespace case is the loop that never terminates. */
  lemma {:induction false} ScanAgain(s: seq<char>)
    requires Scan(s).status == Finished || Scan(s).status == Stuck
    ensures Scan(Scan(s).rest) == ScanResult([], Scan(s).status, Scan(s).rest)
    decreases |s|
  {
    if |s| > 0 {
      match NextStep(s)
      case Advance(ts, next) =>
        ScanEmits(s, ts, next);
        ScanAgain(next);
      case Halt(status, rest) =>
        ScanStops(s, status, rest);
        assert rest == s;
    }
  }
}
