/** The tokenizer on printed documents: scanning the text of a well-formed
    document emits exactly its tokens. */
module TokenizeText {
  import opened Common
  import opened Decimal
  import opened Tokens
  import opened JsonText
  import V = JsonValue

  lemma PrependPrepend(a: seq<Token>, b: seq<Token>, r: ScanResult)
    ensures Prepend(a, Prepend(b, r)) == Prepend(a + b, r)
  {
    AppendAssoc(a, b, r.tokens);
  }

  /** Printed integers are `-` and digits, and read back as themselves. */
  lemma IntegerText(i: int)
    requires I64_MIN <= i <= I64_MAX
    ensures var text := ShowInt(i);
      && |text| > 0 && (text[0] == '-' || IsDigit(text[0]))
      && (forall k :: 0 <= k < |text| ==> IsNumberChar(text[k]))
      && NumberOf(text) == Some(V.I64(i))
  {
    var text := ShowInt(i);
    ParseI64ShowInt(i);
    if i < 0 {
      var d := Show(-i);
      assert text == "-" + d;
      assert forall k :: 1 <= k < |text| ==> text[k] == d[k - 1];
    }
    assert forall k :: 0 <= k < |text| ==> IsNumberChar(text[k]);
    assert '.' !in text;
  }

  lemma ScanNumberText(n: V.Number, rest: seq<char>)
    requires PrintableNumber(n)
    requires rest == [] || IsTerminator(rest[0])
    ensures Scan(NumberText(n) + rest) == Prepend([Number(n)], Scan(rest))
  {
    match n
    case I64(i) =>
      IntegerText(i);
      ScanNumber(ShowInt(i), rest);
    case F64(text) =>
      ScanNumber(text, rest);
  }

  /** A well-formed document followed by a terminator or by nothing scans
      to its tokens, and scanning goes on after it. */
  lemma {:induction false} ScanPrint(t: Json, rest: seq<char>)
    requires WellFormed(t)
    requires rest == [] || IsTerminator(rest[0])
    ensures Scan(Print(t) + rest) == Prepend(Emit(t), Scan(rest))
    decreases t, 1
  {
    match t
    case JString(s) =>
      ScanString(s, rest);
    case JNumber(n) =>
      ScanNumberText(n, rest);
    case JBool(b) =>
      ScanKeywordText(t, rest);
    case JNull =>
      ScanKeywordText(t, rest);
    case JArray(items) =>
      ScanPrintArray(items, rest);
    case JObject(ms) =>
      ScanPrintObject(ms, rest);
  }

  lemma ScanKeywordText(t: Json, rest: seq<char>)
    requires t.JBool? || t.JNull?
    ensures Scan(Print(t) + rest) == Prepend(Emit(t), Scan(rest))
  {
    var c := Print(t)[0];
    var letters := Print(t)[1..];
    assert Print(t) + rest == [c] + (letters + rest);
    ScanKeyword(c, letters + rest);
    assert Skip(letters + rest, |letters|) == rest;
  }

  lemma {:induction false} ScanPrintArray(items: seq<Json>, rest: seq<char>)
    requires forall i :: 0 <= i < |items| ==> WellFormed(items[i])
    ensures Scan(Print(JArray(items)) + rest) == Prepend(Emit(JArray(items)), Scan(rest))
    decreases items, 3
  {
    var inner := PrintItems(items);
    var close := [']'] + rest;
    Bracketed('[', inner, ']', rest);
    ScanStructural('[', inner + close);
    ScanPrintItems(items, close);
    ScanStructural(']', rest);
    PrependPrepend(EmitItems(items), [ArrayClose], Scan(rest));
    PrependPrepend([ArrayOpen], EmitItems(items) + [ArrayClose], Scan(rest));
    AppendAssoc([ArrayOpen], EmitItems(items), [ArrayClose]);
  }

  /** The text of a bracketed list, followed by more text. */
  lemma Bracketed(open: char, inner: string, close: char, rest: seq<char>)
    ensures [open] + inner + [close] + rest == [open] + (inner + ([close] + rest))
  {
  }

  lemma {:induction false} ScanPrintObject(ms: seq<Member>, rest: seq<char>)
    requires forall i :: 0 <= i < |ms| ==> MemberWellFormed(ms[i])
    ensures Scan(Print(JObject(ms)) + rest) == Prepend(Emit(JObject(ms)), Scan(rest))
    decreases ms, 3
  {
    var inner := PrintMembers(ms);
    var close := ['}'] + rest;
    Bracketed('{', inner, '}', rest);
    ScanStructural('{', inner + close);
    ScanPrintMembers(ms, close);
    ScanStructural('}', rest);
    PrependPrepend(EmitMembers(ms), [CurlyClose], Scan(rest));
    PrependPrepend([CurlyOpen], EmitMembers(ms) + [CurlyClose], Scan(rest));
    AppendAssoc([CurlyOpen], EmitMembers(ms), [CurlyClose]);
  }

  lemma {:induction false} ScanPrintItems(items: seq<Json>, rest: seq<char>)
    requires forall i :: 0 <= i < |items| ==> WellFormed(items[i])
    requires rest == [] || IsTerminator(rest[0])
    ensures Scan(PrintItems(items) + rest) == Prepend(EmitItems(items), Scan(rest))
    decreases items, 0
  {
    if |items| == 0 {
      assert PrintItems(items) + rest == rest;
    } else if |items| == 1 {
      ScanPrint(items[0], rest);
    } else {
      var tail := PrintItems(items[1..]) + rest;
      assert PrintItems(items) + rest == Print(items[0]) + ([','] + tail);
      ScanPrint(items[0], [','] + tail);
      ScanStructural(',', tail);
      ScanPrintItems(items[1..], rest);
      PrependPrepend([Comma], EmitItems(items[1..]), Scan(rest));
      PrependPrepend(Emit(items[0]), [Comma] + EmitItems(items[1..]), Scan(rest));
      AppendAssoc(Emit(items[0]), [Comma], EmitItems(items[1..]));
    }
  }

  lemma {:induction false} ScanPrintMember(m: Member, rest: seq<char>)
    requires MemberWellFormed(m)
    requires rest == [] || IsTerminator(rest[0])
    ensures Scan(PrintMember(m) + rest) == Prepend(EmitMember(m), Scan(rest))
    decreases m, 0
  {
    var afterKey := [':'] + (Print(m.value) + rest);
    MemberParts(m, rest);
    ScanString(m.key, afterKey);
    ScanColon(m.value, rest);
    PrependPrepend([Quotes, String(m.key), Quotes], [Colon] + Emit(m.value), Scan(rest));
  }

  /** A member's text is its quoted key, then a colon and its value; so are
      its tokens. */
  lemma MemberParts(m: Member, rest: seq<char>)
    ensures PrintMember(m) + rest == ['"'] + m.key + ['"'] + ([':'] + (Print(m.value) + rest))
    ensures EmitMember(m) == [Quotes, String(m.key), Quotes] + ([Colon] + Emit(m.value))
  {
    var quoted := ['"'] + m.key + ['"'];
    assert PrintMember(m) == (quoted + [':']) + Print(m.value);
    AppendAssoc(quoted + [':'], Print(m.value), rest);
    AppendAssoc(quoted, [':'], Print(m.value) + rest);
  }

  lemma {:induction false} ScanColon(v: Json, rest: seq<char>)
    requires WellFormed(v)
    requires rest == [] || IsTerminator(rest[0])
    ensures Scan([':'] + (Print(v) + rest)) == Prepend([Colon] + Emit(v), Scan(rest))
    decreases v, 2
  {
    ScanStructural(':', Print(v) + rest);
    ScanPrint(v, rest);
    PrependPrepend([Colon], Emit(v), Scan(rest));
  }

  lemma {:induction false} ScanPrintMembers(ms: seq<Member>, rest: seq<char>)
    requires forall i :: 0 <= i < |ms| ==> MemberWellFormed(ms[i])
    requires rest == [] || IsTerminator(rest[0])
    ensures Scan(PrintMembers(ms) + rest) == Prepend(EmitMembers(ms), Scan(rest))
    decreases ms, 2
  {
    if |ms| == 0 {
      assert PrintMembers(ms) + rest == rest;
    } else if |ms| == 1 {
      ScanPrintMember(ms[0], rest);
    } else {
      var tail := PrintMembers(ms[1..]) + rest;
      assert PrintMembers(ms) + rest == PrintMember(ms[0]) + ([','] + tail);
      ScanPrintMember(ms[0], [','] + tail);
      ScanStructural(',', tail);
      ScanPrintMembers(ms[1..], rest);
      PrependPrepend([Comma], EmitMembers(ms[1..]), Scan(rest));
      PrependPrepend(EmitMember(ms[0]), [Comma] + EmitMembers(ms[1..]), Scan(rest));
      AppendAssoc(EmitMember(ms[0]), [Comma], EmitMembers(ms[1..]));
    }
  }

  /** The text of a well-formed document scans to exactly its tokens and
      reads the whole stream. */
  lemma ScanDocument(t: Json)
    requires WellFormed(t)
    ensures Scan(Print(t)) == ScanResult(Emit(t), Finished, [])
  {
    ScanPrint(t, []);
    assert Print(t) + [] == Print(t);
    assert Emit(t) + [] == Emit(t);
  }
}
