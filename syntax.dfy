/** JSON documents as the tokenizer and the parser are meant to read them:
    a syntax tree with its text (`Print`, no whitespace, which the tokenizer
    does not skip), the tokens the tokenizer should produce for it (`Emit`)
    and the value the parser should build (`Meaning`, where a later member
    with the same key replaces an earlier one, as `HashMap::insert` does). */
module JsonText {
  import opened Decimal
  import opened Tokens
  import V = JsonValue

  datatype Json =
    | JString(s: string)
    | JNumber(n: V.Number)
    | JBool(b: bool)
    | JNull
    | JArray(items: seq<Json>)
    | JObject(members: seq<Member>)

  datatype Member = Member(key: string, value: Json)

  /** The text of a number token: an `i64` printed in decimal, or `f64` text
      that the tokenizer reads back as is. */
  predicate PrintableNumber(n: V.Number) {
    match n
    case I64(i) => I64_MIN <= i <= I64_MAX
    case F64(text) =>
      && |text| > 0 && (text[0] == '-' || IsDigit(text[0]))
      && (forall i :: 0 <= i < |text| ==> IsNumberChar(text[i]))
      && '.' in text && IsFloatText(text)
  }

  /** Documents whose strings hold no `"` (there are no escapes) and whose
      numbers are printable. */
  predicate WellFormed(t: Json)
    decreases t, 0
  {
    match t
    case JString(s) => '"' !in s
    case JNumber(n) => PrintableNumber(n)
    case JBool(_) => true
    case JNull => true
    case JArray(items) => forall i :: 0 <= i < |items| ==> WellFormed(items[i])
    case JObject(members) => forall i :: 0 <= i < |members| ==> MemberWellFormed(members[i])
  }

  predicate MemberWellFormed(m: Member)
    decreases m, 1
  {
    '"' !in m.key && WellFormed(m.value)
  }

  function NumberText(n: V.Number): string {
    match n
    case I64(i) => ShowInt(i)
    case F64(text) => text
  }

  function Print(t: Json): string
    decreases t, 1
  {
    match t
    case JString(s) => ['"'] + s + ['"']
    case JNumber(n) => NumberText(n)
    case JBool(b) => if b then "true" else "false"
    case JNull => "null"
    case JArray(items) => "[" + PrintItems(items) + "]"
    case JObject(members) => "{" + PrintMembers(members) + "}"
  }

  function PrintItems(items: seq<Json>): string
    decreases items, 0
  {
    if |items| == 0 then []
    else if |items| == 1 then Print(items[0])
    else Print(items[0]) + "," + PrintItems(items[1..])
  }

  function PrintMember(m: Member): string
    decreases m, 0
  {
    ['"'] + m.key + ['"'] + ":" + Print(m.value)
  }

  function PrintMembers(ms: seq<Member>): string
    decreases ms, 2
  {
    if |ms| == 0 then []
    else if |ms| == 1 then PrintMember(ms[0])
    else PrintMember(ms[0]) + "," + PrintMembers(ms[1..])
  }

  function Emit(t: Json): seq<Token>
    decreases t, 1
  {
    match t
    case JString(s) => [Quotes, String(s), Quotes]
    case JNumber(n) => [Number(n)]
    case JBool(b) => [Boolean(b)]
    case JNull => [Null]
    case JArray(items) => [ArrayOpen] + EmitItems(items) + [ArrayClose]
    case JObject(members) => [CurlyOpen] + EmitMembers(members) + [CurlyClose]
  }

  function EmitItems(items: seq<Json>): seq<Token>
    decreases items, 0
  {
    if |items| == 0 then []
    else if |items| == 1 then Emit(items[0])
    else Emit(items[0]) + [Comma] + EmitItems(items[1..])
  }

  function EmitMember(m: Member): seq<Token>
    decreases m, 0
  {
    [Quotes, String(m.key), Quotes, Colon] + Emit(m.value)
  }

  function EmitMembers(ms: seq<Member>): seq<Token>
    decreases ms, 2
  {
    if |ms| == 0 then []
    else if |ms| == 1 then EmitMember(ms[0])
    else EmitMember(ms[0]) + [Comma] + EmitMembers(ms[1..])
  }

  function Meaning(t: Json): V.Value
    decreases t, 1
  {
    match t
    case JString(s) => V.String(s)
    case JNumber(n) => V.Number(n)
    case JBool(b) => V.Boolean(b)
    case JNull => V.Null
    case JArray(items) => V.Array(Meanings(items))
    case JObject(members) => V.Object(Insert(map[], members))
  }

  function Meanings(items: seq<Json>): seq<V.Value>
    decreases items, 0
  {
    if |items| == 0 then [] else [Meaning(items[0])] + Meanings(items[1..])
  }

  /** `acc` with the members inserted in order. */
  function Insert(acc: map<string, V.Value>, ms: seq<Member>): map<string, V.Value>
    decreases ms, 2
  {
    if |ms| == 0 then acc else Insert(acc[ms[0].key := Meaning(ms[0].value)], ms[1..])
  }
}
