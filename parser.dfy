/** The parser from tokens to values (json-parser/src/parser.rs). The three
    functions of the source share one token iterator; here each takes the
    tokens still to be read and returns what it built together with the
    tokens it left, and each `while let` loop is a function whose
    parameters are the loop's variables. */
module Parser {
  import opened Common
  import opened Tokens
  import V = JsonValue

  /** Tokens that never start a value at the top level. */
  predicate IsSeparator(t: Token) {
    t.Comma? || t.CurlyClose? || t.Quotes? || t.Colon? || t.ArrayClose?
  }

  /** `process_object`: the members up to the matching `CurlyClose` or the
      end of the tokens, and the tokens after it. */
  function ProcessObject(ts: seq<Token>): (r: (map<string, V.Value>, seq<Token>))
    ensures |r.1| < |ts| || (ts == [] && r.1 == [])
    decreases |ts|, 1
  {
    ObjectLoop(ts, true, None, map[])
  }

  /** The loop of `process_object` with its variables `is_key`,
      `current_key` and `value`. */
  function ObjectLoop(ts: seq<Token>, isKey: bool, key: Option<string>, acc: map<string, V.Value>): (r: (map<string, V.Value>, seq<Token>))
    ensures |r.1| < |ts| || (ts == [] && r.1 == [])
    decreases |ts|, 0
  {
    if ts == [] then (acc, [])
    else
      var rest := ts[1..];
      match ts[0]
      case CurlyOpen =>
        if key.Some? then
          var (inner, after) := ProcessObject(rest);
          ObjectLoop(after, isKey, key, acc[key.value := V.Object(inner)])
        else ObjectLoop(rest, isKey, key, acc)
      case CurlyClose => (acc, rest)
      case Quotes => ObjectLoop(rest, isKey, key, acc)
      case ArrayClose => ObjectLoop(rest, isKey, key, acc)
      case Colon => ObjectLoop(rest, false, key, acc)
      case String(s) =>
        if isKey then ObjectLoop(rest, isKey, Some(s), acc)
        else if key.Some? then ObjectLoop(rest, isKey, None, acc[key.value := V.String(s)])
        else ObjectLoop(rest, isKey, key, acc)
      case Number(n) =>
        if key.Some? then ObjectLoop(rest, isKey, None, acc[key.value := V.Number(n)])
        else ObjectLoop(rest, isKey, key, acc)
      case ArrayOpen =>
        if key.Some? then
          var (items, after) := ProcessArray(rest);
          ObjectLoop(after, isKey, None, acc[key.value := V.Array(items)])
        else ObjectLoop(rest, isKey, key, acc)
      case Comma => ObjectLoop(rest, true, key, acc)
      case Boolean(b) =>
        if key.Some? then ObjectLoop(rest, isKey, None, acc[key.value := V.Boolean(b)])
        else ObjectLoop(rest, isKey, key, acc)
      case Null =>
        if key.Some? then ObjectLoop(rest, isKey, None, acc[key.value := V.Null])
        else ObjectLoop(rest, isKey, key, acc)
  }

  /** `process_array`: the elements up to the matching `ArrayClose` or the
      end of the tokens, and the tokens after it. */
  function ProcessArray(ts: seq<Token>): (r: (seq<V.Value>, seq<Token>))
    ensures |r.1| < |ts| || (ts == [] && r.1 == [])
    decreases |ts|, 1
  {
    ArrayLoop(ts, [])
  }

  /** The loop of `process_array` with its variable `internal_value`. */
  function ArrayLoop(ts: seq<Token>, acc: seq<V.Value>): (r: (seq<V.Value>, seq<Token>))
    ensures |r.1| < |ts| || (ts == [] && r.1 == [])
    decreases |ts|, 0
  {
    if ts == [] then (acc, [])
    else
      var rest := ts[1..];
      match ts[0]
      case CurlyOpen =>
        var (inner, after) := ProcessObject(rest);
        ArrayLoop(after, acc + [V.Object(inner)])
      case String(s) => ArrayLoop(rest, acc + [V.String(s)])
      case Number(n) => ArrayLoop(rest, acc + [V.Number(n)])
      case ArrayOpen =>
        var (items, after) := ProcessArray(rest);
        ArrayLoop(after, acc + [V.Array(items)])
      case ArrayClose => (acc, rest)
      case Boolean(b) => ArrayLoop(rest, acc + [V.Boolean(b)])
      case Null => ArrayLoop(rest, acc + [V.Null])
      case _ => ArrayLoop(rest, acc)
  }

  /** `tokens_to_value`: the value of the last top-level value, `Null` when
      there is none. */
  function TokensToValue(ts: seq<Token>): V.Value {
    TopLoop(ts, V.Null)
  }

  /** The loop of `tokens_to_value` with its variable `value`. */
  function TopLoop(ts: seq<Token>, value: V.Value): V.Value
    decreases |ts|
  {
    if ts == [] then value
    else
      var rest := ts[1..];
      match ts[0]
      case CurlyOpen =>
        var (inner, after) := ProcessObject(rest);
        TopLoop(after, V.Object(inner))
      case String(s) => TopLoop(rest, V.String(s))
      case Number(n) => TopLoop(rest, V.Number(n))
      case ArrayOpen =>
        var (items, after) := ProcessArray(rest);
        TopLoop(after, V.Array(items))
      case Boolean(b) => TopLoop(rest, V.Boolean(b))
      case Null => TopLoop(rest, V.Null)
      case _ => TopLoop(rest, value)
  }
}
