/** The tokenizer and the parser together, and the documents of the
    json-parser unit tests as syntax trees: what the pipeline reads from
    them, and the corner cases of the parser that those tests do not
    exercise. */
module Samples {
  import opened Common
  import opened Decimal
  import opened Tokens
  import opened Parser
  import opened JsonText
  import V = JsonValue
  import TokenizeText
  import ParseTokens
  import Utf8
  import Reader
  import ReaderChunks
  import TruncatedText

  /** `parse_from_bytes` after the reader: tokenizing the text of a
      well-formed document finishes with exactly its tokens, and building
      the value from them gives the document's meaning. This is about the
      text alone: the reader pads the last chunk with `'\0'`, so a document
      that is a bare number is followed by `'\0'` and its tokenizing panics
      (`TopLevelNumberPanics`). */
  lemma Pipeline(t: Json)
    requires WellFormed(t)
    ensures Scan(Print(t)).status == Finished
    ensures Scan(Print(t)).tokens == Emit(t)
    ensures TokensToValue(Scan(Print(t)).tokens) == Meaning(t)
  {
    TokenizeText.ScanDocument(t);
    ParseTokens.ParseDocument(t);
  }

  lemma NoPoint(s: string)
    requires AllDigits(s)
    ensures CountChar(s, '.') == 0
  {
  }

  lemma CountAppend(a: string, b: string, c: char)
    ensures CountChar(a + b, c) == CountChar(a, c) + CountChar(b, c)
  {
    if |a| == 0 {
      assert a + b == b;
    } else {
      assert (a + b)[0] == a[0];
      assert (a + b)[1..] == a[1..] + b;
      CountAppend(a[1..], b, c);
    }
  }

  /** The text of a fixed-point decimal: an optional `-`, the whole part, a
      point and the fraction, as the coordinates of the test inputs are
      written. */
  function FixedText(negative: bool, whole: string, fraction: string): string {
    (if negative then "-" else "") + whole + "." + fraction
  }

  lemma BodyShape(whole: string, fraction: string)
    requires |whole| > 0 && AllDigits(whole) && AllDigits(fraction)
    ensures var body := whole + "." + fraction;
      && (forall i :: 0 <= i < |body| ==> IsDigit(body[i]) || body[i] == '.')
      && CountChar(body, '.') == 1 && |body| > 1 && IsDigit(body[0]) && '.' in body
  {
    var body := whole + "." + fraction;
    CountAppend(whole, ".", '.');
    CountAppend(whole + ".", fraction, '.');
    NoPoint(whole);
    NoPoint(fraction);
    assert body[|whole|] == '.';
  }

  lemma PositiveShape(body: string)
    requires forall i :: 0 <= i < |body| ==> IsDigit(body[i]) || body[i] == '.'
    requires CountChar(body, '.') == 1 && |body| > 1 && IsDigit(body[0]) && '.' in body
    ensures PrintableNumber(V.F64(body))
  {
    assert IsFloatText(body);
  }

  lemma NegativeShape(body: string)
    requires forall i :: 0 <= i < |body| ==> IsDigit(body[i]) || body[i] == '.'
    requires CountChar(body, '.') == 1 && |body| > 1 && IsDigit(body[0]) && '.' in body
    ensures PrintableNumber(V.F64("-" + body))
  {
    var text := "-" + body;
    assert text[1..] == body;
    assert IsFloatText(text);
    assert forall i :: 0 <= i < |text| ==> IsNumberChar(text[i]) by {
      forall i | 0 <= i < |text|
        ensures IsNumberChar(text[i])
      {
        if i > 0 {
          assert text[i] == body[i - 1];
        }
      }
    }
  }

  /** Fixed-point text with at least one whole digit is a printable `f64`
      token. */
  lemma FixedPrintable(negative: bool, whole: string, fraction: string)
    requires |whole| > 0 && AllDigits(whole) && AllDigits(fraction)
    ensures PrintableNumber(V.F64(FixedText(negative, whole, fraction)))
  {
    BodyShape(whole, fraction);
    AppendAssoc(if negative then "-" else "", whole + ".", fraction);
    AppendAssoc(if negative then "-" else "", whole, ".");
    if negative {
      NegativeShape(whole + "." + fraction);
    } else {
      PositiveShape(whole + "." + fraction);
      assert "" + (whole + "." + fraction) == whole + "." + fraction;
    }
  }

  function Point(x0: string, y0: string, x1: string, y1: string): Json {
    JObject([
      Member("x0", JNumber(V.F64(x0))),
      Member("y0", JNumber(V.F64(y0))),
      Member("x1", JNumber(V.F64(x1))),
      Member("y1", JNumber(V.F64(y1)))])
  }

  function PointValue(x0: string, y0: string, x1: string, y1: string): V.Value {
    V.Object(map[
      "x0" := V.Number(V.F64(x0)),
      "y0" := V.Number(V.F64(y0)),
      "x1" := V.Number(V.F64(x1)),
      "y1" := V.Number(V.F64(y1))])
  }

  lemma InsertCons(acc: map<string, V.Value>, m: Member, ms: seq<Member>)
    ensures Insert(acc, [m] + ms) == Insert(acc[m.key := Meaning(m.value)], ms)
  {
    assert ([m] + ms)[1..] == ms;
  }

  lemma MeaningsCons(t: Json, ts: seq<Json>)
    ensures Meanings([t] + ts) == [Meaning(t)] + Meanings(ts)
  {
    assert ([t] + ts)[1..] == ts;
  }

  /** The meaning of a point is its four coordinates under their keys. */
  lemma PointMeaning(x0: string, y0: string, x1: string, y1: string)
    ensures Meaning(Point(x0, y0, x1, y1)) == PointValue(x0, y0, x1, y1)
  {
    var ms := Point(x0, y0, x1, y1).members;
    assert ms == [ms[0]] + ([ms[1]] + ([ms[2]] + ([ms[3]] + [])));
    InsertCons(map[], ms[0], [ms[1]] + ([ms[2]] + ([ms[3]] + [])));
    var a1 := map["x0" := V.Number(V.F64(x0))];
    InsertCons(a1, ms[1], [ms[2]] + ([ms[3]] + []));
    var a2 := a1["y0" := V.Number(V.F64(y0))];
    InsertCons(a2, ms[2], [ms[3]] + []);
    var a3 := a2["x1" := V.Number(V.F64(x1))];
    InsertCons(a3, ms[3], []);
  }

  /** A point whose coordinates are printable numbers is well formed. */
  lemma PointWellFormed(x0: string, y0: string, x1: string, y1: string)
    requires PrintableNumber(V.F64(x0)) && PrintableNumber(V.F64(y0))
    requires PrintableNumber(V.F64(x1)) && PrintableNumber(V.F64(y1))
    ensures WellFormed(Point(x0, y0, x1, y1))
  {
    var ms := Point(x0, y0, x1, y1).members;
    assert MemberWellFormed(ms[0]) && MemberWellFormed(ms[1]);
    assert MemberWellFormed(ms[2]) && MemberWellFormed(ms[3]);
  }

  function FirstPoint(): Json {
    Point(FixedText(false, "95", "26235434764715"), FixedText(true, "33", "78221816487377"),
          FixedText(false, "41", "844453001935875"), FixedText(true, "78", "10213222087448"))
  }

  function SecondPoint(): Json {
    Point(FixedText(false, "115", "42029308864215"), FixedText(false, "87", "52060937339934"),
          FixedText(false, "83", "39640643072113"), FixedText(false, "28", "643090267505812"))
  }

  /** The third element of the `pairs` array of the `parsed_json` test. */
  function Sample(): Json {
    JObject([Member("sample", JString("string sample")), Member("nullable", JNull)])
  }

  lemma FirstPointWellFormed()
    ensures WellFormed(FirstPoint())
  {
    FirstCoordinates();
    PointWellFormed(FixedText(false, "95", "26235434764715"), FixedText(true, "33", "78221816487377"),
                    FixedText(false, "41", "844453001935875"), FixedText(true, "78", "10213222087448"));
  }

  lemma FirstCoordinates()
    ensures PrintableNumber(V.F64(FixedText(false, "95", "26235434764715")))
    ensures PrintableNumber(V.F64(FixedText(true, "33", "78221816487377")))
    ensures PrintableNumber(V.F64(FixedText(false, "41", "844453001935875")))
    ensures PrintableNumber(V.F64(FixedText(true, "78", "10213222087448")))
  {
    FirstX();
    FirstY();
  }

  lemma FirstX()
    ensures PrintableNumber(V.F64(FixedText(false, "95", "26235434764715")))
    ensures PrintableNumber(V.F64(FixedText(false, "41", "844453001935875")))
  {
    FixedPrintable(false, "95", "26235434764715");
    FixedPrintable(false, "41", "844453001935875");
  }

  lemma FirstY()
    ensures PrintableNumber(V.F64(FixedText(true, "33", "78221816487377")))
    ensures PrintableNumber(V.F64(FixedText(true, "78", "10213222087448")))
  {
    FixedPrintable(true, "33", "78221816487377");
    FixedPrintable(true, "78", "10213222087448");
  }

  lemma SecondPointWellFormed()
    ensures WellFormed(SecondPoint())
  {
    SecondCoordinates();
    PointWellFormed(FixedText(false, "115", "42029308864215"), FixedText(false, "87", "52060937339934"),
                    FixedText(false, "83", "39640643072113"), FixedText(false, "28", "643090267505812"));
  }

  lemma SecondCoordinates()
    ensures PrintableNumber(V.F64(FixedText(false, "115", "42029308864215")))
    ensures PrintableNumber(V.F64(FixedText(false, "87", "52060937339934")))
    ensures PrintableNumber(V.F64(FixedText(false, "83", "39640643072113")))
    ensures PrintableNumber(V.F64(FixedText(false, "28", "643090267505812")))
  {
    SecondX();
    SecondY();
  }

  lemma SecondX()
    ensures PrintableNumber(V.F64(FixedText(false, "115", "42029308864215")))
    ensures PrintableNumber(V.F64(FixedText(false, "83", "39640643072113")))
  {
    FixedPrintable(false, "115", "42029308864215");
    FixedPrintable(false, "83", "39640643072113");
  }

  lemma SecondY()
    ensures PrintableNumber(V.F64(FixedText(false, "87", "52060937339934")))
    ensures PrintableNumber(V.F64(FixedText(false, "28", "643090267505812")))
  {
    FixedPrintable(false, "87", "52060937339934");
    FixedPrintable(false, "28", "643090267505812");
  }

  lemma SampleMeaning()
    ensures WellFormed(Sample())
    ensures Meaning(Sample()) == V.Object(map["sample" := V.String("string sample"), "nullable" := V.Null])
  {
    var ms := Sample().members;
    assert MemberWellFormed(ms[0]) && MemberWellFormed(ms[1]);
    assert ms == [ms[0]] + ([ms[1]] + []);
    InsertCons(map[], ms[0], [ms[1]] + []);
    InsertCons(map["sample" := V.String("string sample")], ms[1], []);
  }

  /** The document of the `parsed_json` test. */
  function PairsDocument(): Json {
    Pairs(FirstPoint(), SecondPoint(), Sample())
  }

  /** The value the `parsed_json` test expects. */
  function PairsValue(): V.Value {
    V.Object(map["pairs" := V.Array([
      PointValue(FixedText(false, "95", "26235434764715"), FixedText(true, "33", "78221816487377"),
                 FixedText(false, "41", "844453001935875"), FixedText(true, "78", "10213222087448")),
      PointValue(FixedText(false, "115", "42029308864215"), FixedText(false, "87", "52060937339934"),
                 FixedText(false, "83", "39640643072113"), FixedText(false, "28", "643090267505812")),
      V.Object(map["sample" := V.String("string sample"), "nullable" := V.Null])])])
  }

  function Pairs(a: Json, b: Json, c: Json): Json {
    JObject([Member("pairs", JArray([a, b, c]))])
  }

  /** The shape of the `parsed_json` document: one member `pairs` holding
      an array of three documents. */
  lemma PairsShape(a: Json, b: Json, c: Json)
    requires WellFormed(a) && WellFormed(b) && WellFormed(c)
    ensures WellFormed(Pairs(a, b, c))
    ensures Meaning(Pairs(a, b, c)) == V.Object(map["pairs" := V.Array([Meaning(a), Meaning(b), Meaning(c)])])
  {
    var items := [a, b, c];
    var t := Pairs(a, b, c);
    assert WellFormed(JArray(items));
    assert MemberWellFormed(t.members[0]);
    assert items == [a] + ([b] + ([c] + []));
    MeaningsCons(a, [b] + ([c] + []));
    MeaningsCons(b, [c] + []);
    MeaningsCons(c, []);
    assert [Meaning(a)] + ([Meaning(b)] + ([Meaning(c)] + [])) == [Meaning(a), Meaning(b), Meaning(c)];
    assert Meaning(JArray(items)) == V.Array([Meaning(a), Meaning(b), Meaning(c)]);
    assert t.members == [t.members[0]] + [];
    InsertCons(map[], t.members[0], []);
  }

  /** The text of the `parsed_json` test tokenizes completely and parses to
      the value the test expects. */
  lemma ParsedJson()
    ensures WellFormed(PairsDocument())
    ensures Scan(Print(PairsDocument())).status == Finished
    ensures TokensToValue(Scan(Print(PairsDocument())).tokens) == PairsValue()
  {
    FirstPointWellFormed();
    SecondPointWellFormed();
    SampleMeaning();
    PairsShape(FirstPoint(), SecondPoint(), Sample());
    Pipeline(PairsDocument());
    PointMeaning(FixedText(false, "95", "26235434764715"), FixedText(true, "33", "78221816487377"),
                 FixedText(false, "41", "844453001935875"), FixedText(true, "78", "10213222087448"));
    PointMeaning(FixedText(false, "115", "42029308864215"), FixedText(false, "87", "52060937339934"),
                 FixedText(false, "83", "39640643072113"), FixedText(false, "28", "643090267505812"));
  }

  /** The document of the `parse_utf8_json` test, as characters: the
      tokenizer and the parser alone pass strings through unchanged,
      whatever characters they hold. This is not what the test observes
      through the reader, which `Utf8JsonAsWritten` follows. */
  lemma ParseUtf8Json()
    ensures var t := JObject([
        Member("key1", JString("\U{0804}\U{0800}\U{0806}\U{0804}\U{0800}\U{0801}\U{0803}")),
        Member("key2", JString("value2"))]);
      && Scan(Print(t)).status == Finished
      && TokensToValue(Scan(Print(t)).tokens)
         == V.Object(map["key1" := V.String("\U{0804}\U{0800}\U{0806}\U{0804}\U{0800}\U{0801}\U{0803}"),
                         "key2" := V.String("value2")])
  {
    var t := JObject([
        Member("key1", JString("\U{0804}\U{0800}\U{0806}\U{0804}\U{0800}\U{0801}\U{0803}")),
        Member("key2", JString("value2"))]);
    var ms := t.members;
    assert MemberWellFormed(ms[0]) && MemberWellFormed(ms[1]);
    Pipeline(t);
    assert ms == [ms[0]] + ([ms[1]] + []);
    InsertCons(map[], ms[0], [ms[1]] + []);
    InsertCons(map["key1" := V.String("\U{0804}\U{0800}\U{0806}\U{0804}\U{0800}\U{0801}\U{0803}")], ms[1], []);
  }

  /** The text of the `parse_utf8_json` test input, written in three parts:
      nine ASCII characters, the four three-byte characters that the
      reader's chunks cut, and the rest. */
  const Utf8Text := "{\"key1\":\"" + "\U{0804}\U{0800}\U{0806}\U{0804}" + "\U{0800}\U{0801}\U{0803}\",\"key2\":\"value2\"}"

  /** The chunks the reader as written takes from the test input. */
  lemma Utf8TextChunks()
    ensures var bytes := Utf8.Encode(Utf8Text);
      && |bytes| >= 20
      && Utf8.Decode(Reader.Chunk(bytes)) == Some("{\"ke")
      && Utf8.Decode(Reader.Chunk(bytes[4..])) == Some("y1\":")
      && Utf8.Decode(Reader.Chunk(bytes[8..])) == Some("\"\U{0804}")
      && Utf8.Decode(Reader.Chunk(bytes[12..])) == None
      && Utf8.Decode(Reader.Chunk(bytes[16..])) == None
  {
    var a, w := "{\"key1\":\"", "\U{0804}\U{0800}\U{0806}\U{0804}";
    ReaderChunks.LeadingChunks(a, w, "\U{0800}\U{0801}\U{0803}\",\"key2\":\"value2\"}");
    assert a[..4] == "{\"ke";
    assert a[4..8] == "y1\":";
    assert a[8..] + w[..1] == "\"\U{0804}";
  }

  /** The `parse_utf8_json` test read through the reader as written. Its
      first three chunks decode to `{"ke`, `y1":` and `"` U+0804; the
      fourth, bytes 12 to 15, ends inside U+0806, so `next` returns None.
      That None ends the `for` loop of `parse_string`, and the tokenizer's
      next `peek` reads bytes 16 to 19, which start inside a character and
      give None again, ending `tokenize_json`. The tokenizer has then seen
      exactly the characters `{"key1":"` U+0804, and the value built from
      them holds one member, a one-character string, instead of the two
      members the test asserts. */
  lemma Utf8JsonAsWritten()
    ensures var bytes := Utf8.Encode(Utf8Text);
      && |bytes| >= 20
      && Utf8.Decode(Reader.Chunk(bytes)).Some?
      && Utf8.Decode(Reader.Chunk(bytes[4..])).Some?
      && Utf8.Decode(Reader.Chunk(bytes[8..])).Some?
      && Utf8.Decode(Reader.Chunk(bytes[12..])) == None
      && Utf8.Decode(Reader.Chunk(bytes[16..])) == None
      && var seen := Utf8.Decode(Reader.Chunk(bytes)).value + Utf8.Decode(Reader.Chunk(bytes[4..])).value
                     + Utf8.Decode(Reader.Chunk(bytes[8..])).value;
         && Scan(seen).status == Finished
         && TokensToValue(Scan(seen).tokens) == V.Object(map["key1" := V.String("\U{0804}")])
  {
    Utf8TextChunks();
    var bytes := Utf8.Encode(Utf8Text);
    var seen := Utf8.Decode(Reader.Chunk(bytes)).value + Utf8.Decode(Reader.Chunk(bytes[4..])).value
                + Utf8.Decode(Reader.Chunk(bytes[8..])).value;
    assert seen == "{\"ke" + "y1\":" + "\"\U{0804}";
    assert seen == ['{', '"'] + "key1" + ['"', ':', '"'] + "\U{0804}";
    TruncatedText.TruncatedDocument(seen, "key1", "\U{0804}");
  }

  /** A later member with the same key replaces the earlier one, as
      `HashMap::insert` does. */
  lemma DuplicateKeyLastWins(k: string, a: Json, b: Json)
    ensures TokensToValue(Emit(JObject([Member(k, a), Member(k, b)]))) == V.Object(map[k := Meaning(b)])
  {
    var ms := [Member(k, a), Member(k, b)];
    ParseTokens.ParseDocument(JObject(ms));
    assert ms == [ms[0]] + ([ms[1]] + []);
    InsertCons(map[], ms[0], [ms[1]] + []);
    InsertCons(map[k := Meaning(a)], ms[1], []);
  }

  /** The tokens after the key: `: { } , n }`. */
  lemma NestedThenNumber(k: string, n: V.Number)
    ensures ObjectLoop([Colon, CurlyOpen, CurlyClose, Comma, Number(n), CurlyClose], true, Some(k), map[])
         == (map[k := V.Number(n)], [])
  {
    var after := [Comma] + ([Number(n)] + [CurlyClose]);
    var r4 := [CurlyOpen] + ([CurlyClose] + after);
    ParseTokens.ObjectClose(after, true, None, map[]);
    ParseTokens.ObjectNested(CurlyOpen, [CurlyClose] + after, k, map[]);
    ParseTokens.ObjectMode(Colon, r4, true, Some(k), map[]);
    var acc := map[k := V.Object(map[])];
    ParseTokens.ObjectMode(Comma, [Number(n)] + [CurlyClose], false, Some(k), acc);
    ParseTokens.ObjectScalar(Number(n), [CurlyClose], k, acc);
    ParseTokens.ObjectClose([], false, None, acc[k := V.Number(n)]);
    assert [CurlyClose] + [] == [CurlyClose];
    assert ProcessObject([CurlyClose] + after) == (map[], after);
    assert acc[k := V.Number(n)] == map[k := V.Number(n)];
    assert [Colon] + r4 == [Colon, CurlyOpen, CurlyClose, Comma, Number(n), CurlyClose];
  }

  /** After a nested object, `process_object` keeps the key it was stored
      under (only arrays and scalars clear it), so in `{"k":{},n}` the
      stray number `n` overwrites the nested object. */
  lemma NestedObjectKeepsKey(k: string, n: V.Number)
    ensures TokensToValue([CurlyOpen, Quotes, String(k), Quotes, Colon, CurlyOpen, CurlyClose, Comma,
                           Number(n), CurlyClose])
         == V.Object(map[k := V.Number(n)])
  {
    var r3 := [Colon, CurlyOpen, CurlyClose, Comma, Number(n), CurlyClose];
    var r2 := [Quotes] + r3;
    var r1 := [String(k)] + r2;
    var body := [Quotes] + r1;
    NestedThenNumber(k, n);
    ParseTokens.ObjectSkip(Quotes, r3, true, Some(k), map[]);
    ParseTokens.ObjectKey(k, r2, None, map[]);
    ParseTokens.ObjectSkip(Quotes, r1, true, None, map[]);
    assert [CurlyOpen, Quotes, String(k), Quotes, Colon, CurlyOpen, CurlyClose, Comma, Number(n), CurlyClose]
        == [CurlyOpen] + body;
    ParseTokens.TopNested(CurlyOpen, body, V.Null);
  }

  /** The tokens the `test_tokenizer` test lists for one point. */
  function PointTokens(x0: string, y0: string, x1: string, y1: string): seq<Token> {
    [CurlyOpen,
     Quotes, String("x0"), Quotes, Colon, Number(V.F64(x0)), Comma,
     Quotes, String("y0"), Quotes, Colon, Number(V.F64(y0)), Comma,
     Quotes, String("x1"), Quotes, Colon, Number(V.F64(x1)), Comma,
     Quotes, String("y1"), Quotes, Colon, Number(V.F64(y1)),
     CurlyClose]
  }

  lemma NumberMemberEmit(k: string, x: string)
    ensures EmitMember(Member(k, JNumber(V.F64(x)))) == [Quotes, String(k), Quotes, Colon, Number(V.F64(x))]
  {
  }

  /** The tokens of one point, grouped by member. */
  lemma PointTokensByMember(x0: string, y0: string, x1: string, y1: string)
    ensures PointTokens(x0, y0, x1, y1)
      == [CurlyOpen]
       + ([Quotes, String("x0"), Quotes, Colon, Number(V.F64(x0))] + [Comma]
       + ([Quotes, String("y0"), Quotes, Colon, Number(V.F64(y0))] + [Comma]
       + ([Quotes, String("x1"), Quotes, Colon, Number(V.F64(x1))] + [Comma]
       +  [Quotes, String("y1"), Quotes, Colon, Number(V.F64(y1))])))
       + [CurlyClose]
  {
  }

  lemma PointEmit(x0: string, y0: string, x1: string, y1: string)
    ensures Emit(Point(x0, y0, x1, y1)) == PointTokens(x0, y0, x1, y1)
  {
    PointTokensByMember(x0, y0, x1, y1);
    var m0, m1 := Member("x0", JNumber(V.F64(x0))), Member("y0", JNumber(V.F64(y0)));
    var m2, m3 := Member("x1", JNumber(V.F64(x1))), Member("y1", JNumber(V.F64(y1)));
    assert Point(x0, y0, x1, y1).members == [m0, m1, m2, m3];
    NumberMemberEmit("x0", x0);
    NumberMemberEmit("y0", y0);
    NumberMemberEmit("x1", x1);
    NumberMemberEmit("y1", y1);
    var e0, e1, e2, e3 := EmitMember(m0), EmitMember(m1), EmitMember(m2), EmitMember(m3);
    assert [m0, m1, m2, m3][1..] == [m1, m2, m3];
    assert [m1, m2, m3][1..] == [m2, m3];
    assert [m2, m3][1..] == [m3];
    assert EmitMembers([m2, m3]) == e2 + [Comma] + e3;
    assert EmitMembers([m1, m2, m3]) == e1 + [Comma] + (e2 + [Comma] + e3);
    assert EmitMembers([m0, m1, m2, m3]) == e0 + [Comma] + (e1 + [Comma] + (e2 + [Comma] + e3));
  }

  /** The document of the `test_tokenizer` test: the first two points of
      `parsed_json`. */
  function TwoPairsDocument(): Json {
    JObject([Member("pairs", JArray([FirstPoint(), SecondPoint()]))])
  }

  lemma TwoPairsEmit(a: Json, b: Json)
    ensures Emit(JObject([Member("pairs", JArray([a, b]))]))
         == [CurlyOpen, Quotes, String("pairs"), Quotes, Colon, ArrayOpen]
            + Emit(a) + [Comma] + Emit(b) + [ArrayClose, CurlyClose]
  {
    assert [a, b][1..] == [b];
    var items := Emit(a) + [Comma] + Emit(b);
    assert EmitItems([a, b]) == items;
    var m := Member("pairs", JArray([a, b]));
    assert EmitMember(m) == [Quotes, String("pairs"), Quotes, Colon] + ([ArrayOpen] + items + [ArrayClose]);
    assert EmitMembers([m]) == EmitMember(m);
  }

  /** The text of the `test_tokenizer` test tokenizes completely to the
      tokens the test lists. */
  lemma TestTokenizer()
    ensures Scan(Print(TwoPairsDocument())).status == Finished
    ensures Scan(Print(TwoPairsDocument())).tokens
         == [CurlyOpen, Quotes, String("pairs"), Quotes, Colon, ArrayOpen]
            + PointTokens(FixedText(false, "95", "26235434764715"), FixedText(true, "33", "78221816487377"),
                          FixedText(false, "41", "844453001935875"), FixedText(true, "78", "10213222087448"))
            + [Comma]
            + PointTokens(FixedText(false, "115", "42029308864215"), FixedText(false, "87", "52060937339934"),
                          FixedText(false, "83", "39640643072113"), FixedText(false, "28", "643090267505812"))
            + [ArrayClose, CurlyClose]
  {
    var t := TwoPairsDocument();
    FirstPointWellFormed();
    SecondPointWellFormed();
    assert WellFormed(t) by {
      assert WellFormed(JArray([FirstPoint(), SecondPoint()]));
      assert MemberWellFormed(t.members[0]);
    }
    Pipeline(t);
    TwoPairsEmit(FirstPoint(), SecondPoint());
    PointEmit(FixedText(false, "95", "26235434764715"), FixedText(true, "33", "78221816487377"),
              FixedText(false, "41", "844453001935875"), FixedText(true, "78", "10213222087448"));
    PointEmit(FixedText(false, "115", "42029308864215"), FixedText(false, "87", "52060937339934"),
              FixedText(false, "83", "39640643072113"), FixedText(false, "28", "643090267505812"));
  }

  /** A top-level number is followed by the reader's `'\0'` padding, which
      is not among the characters that end a number, so tokenizing the
      document `1` panics instead of stopping. */
  lemma TopLevelNumberPanics()
    ensures Scan("1\0\0\0").status == Panicked("Unexpected character while parsing number: \0")
    ensures Scan("1\0\0\0").tokens == []
  {
    ScanNumberPanics("1", '\0', "\0\0");
    assert "1" + ['\0'] + "\0\0" == "1\0\0\0";
  }
}
