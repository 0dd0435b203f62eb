// A document cut inside its first string value, `{"k":"v`: what the
// tokenizer (json-parser/src/tokens.rs) and the parser
// (json-parser/src/parser.rs) make of it.

module TruncatedText {
  import opened Common
  import opened Tokens
  import opened Parser
  import opened ParseTokens
  import opened TokenizeText
  import V = JsonValue

  lemma Uncons<T>(s: seq<T>, i: nat)
    requires i < |s|
    ensures s[i..] == [s[i]] + s[i + 1..]
  {
  }

  lemma OneAndThree<T>(a: T, b: T, c: T, d: T)
    ensures [a] + [b, c, d] == [a, b, c, d]
  {
  }

  lemma FourAndFour<T>(a: T, b: T, c: T, d: T, e: T, f: T, g: T, h: T)
    ensures [a, b, c, d] + [e, f, g, h] == [a, b, c, d, e, f, g, h]
  {
  }

  /** `:"v` with `v` never closed scans to the tokens of a string value. */
  lemma ScanTruncatedValue(text: seq<char>, v: string)
    requires '"' !in v
    requires text == [':'] + (['"'] + v)
    ensures Scan(text) == ScanResult([Colon, Quotes, String(v), Quotes], Finished, [])
  {
    ScanUnterminatedString(v);
    ScanStructural(':', ['"'] + v);
  }

  /** `{"k"` in front of any text adds its four tokens. */
  lemma ScanOpenKey(text: seq<char>, k: string, rest: seq<char>)
    requires '"' !in k
    requires text == ['{'] + (['"'] + k + ['"'] + rest)
    ensures Scan(text) == Prepend([CurlyOpen, Quotes, String(k), Quotes], Scan(rest))
  {
    var body := ['"'] + k + ['"'] + rest;
    ScanString(k, rest);
    ScanStructural('{', body);
    PrependPrepend([CurlyOpen], [Quotes, String(k), Quotes], Scan(rest));
    OneAndThree(CurlyOpen, Quotes, String(k), Quotes);
  }

  /** Those tokens parse to an object holding that one member. */
  lemma ParseTruncatedMember(ts: seq<Token>, k: string, v: string)
    requires ts == [CurlyOpen, Quotes, String(k), Quotes, Colon, Quotes, String(v), Quotes]
    ensures TokensToValue(ts) == V.Object(map[k := V.String(v)])
  {
    var acc := map[k := V.String(v)];
    Uncons(ts, 0);
    Uncons(ts, 1);
    Uncons(ts, 2);
    Uncons(ts, 3);
    Uncons(ts, 4);
    Uncons(ts, 5);
    Uncons(ts, 6);
    Uncons(ts, 7);
    ObjectSkip(Quotes, ts[8..], false, None, acc);
    ObjectScalar(String(v), ts[7..], k, map[]);
    ObjectSkip(Quotes, ts[6..], false, Some(k), map[]);
    ObjectMode(Colon, ts[5..], true, Some(k), map[]);
    ObjectSkip(Quotes, ts[4..], true, Some(k), map[]);
    ObjectKey(k, ts[3..], None, map[]);
    ObjectSkip(Quotes, ts[2..], true, None, map[]);
    TopNested(CurlyOpen, ts[1..], V.Null);
  }

  /** The document `{"k":"v`, cut inside its first string value, scans to
      the tokens of one member whose string is closed by the end of the
      input. */
  lemma ScanTruncatedMember(text: string, k: string, v: string)
    requires '"' !in k && '"' !in v
    requires text == ['{', '"'] + k + ['"', ':', '"'] + v
    ensures Scan(text) == ScanResult([CurlyOpen, Quotes, String(k), Quotes, Colon, Quotes, String(v), Quotes], Finished, [])
  {
    var rest := [':'] + (['"'] + v);
    assert text == ['{'] + (['"'] + k + ['"'] + rest);
    ScanTruncatedValue(rest, v);
    ScanOpenKey(text, k, rest);
    FourAndFour(CurlyOpen, Quotes, String(k), Quotes, Colon, Quotes, String(v), Quotes);
  }

  /** The same document parses to an object holding that one member. */
  lemma TruncatedDocument(text: string, k: string, v: string)
    requires '"' !in k && '"' !in v
    requires text == ['{', '"'] + k + ['"', ':', '"'] + v
    ensures Scan(text).status == Finished
    ensures Scan(text).tokens == [CurlyOpen, Quotes, String(k), Quotes, Colon, Quotes, String(v), Quotes]
    ensures TokensToValue(Scan(text).tokens) == V.Object(map[k := V.String(v)])
  {
    ScanTruncatedMember(text, k, v);
    ParseTruncatedMember(Scan(text).tokens, k, v);
  }
}
