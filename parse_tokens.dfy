/** The parser on the tokens of a document: parsing the tokens `Emit`
    produces builds exactly the document's `Meaning`. */
module ParseTokens {
  import opened Common
  import opened Tokens
  import opened Parser
  import opened JsonText
  import V = JsonValue

  /** The key `process_object` still holds after reading a member's value:
      a nested object leaves it set, every other value clears it. */
  function KeyAfter(k: string, v: Json): Option<string> {
    if v.JObject? then Some(k) else None
  }

  predicate IsScalar(t: Token) {
    t.String? || t.Number? || t.Boolean? || t.Null?
  }

  /** The value a scalar token stands for. */
  function ScalarValue(t: Token): V.Value
    requires IsScalar(t)
  {
    match t
    case String(s) => V.String(s)
    case Number(n) => V.Number(n)
    case Boolean(b) => V.Boolean(b)
    case Null => V.Null
  }

  /** The tokens of a document that is not an array or an object. */
  lemma ScalarTokens(t: Json, rest: seq<Token>)
    requires !t.JArray? && !t.JObject?
    ensures !t.JString? ==> |Emit(t)| == 1 && IsScalar(Emit(t)[0]) && ScalarValue(Emit(t)[0]) == Meaning(t)
    ensures !t.JString? ==> Emit(t) + rest == [Emit(t)[0]] + rest
    ensures t.JString? ==> Emit(t) + rest == [Quotes] + ([String(t.s)] + ([Quotes] + rest))
  {
  }

  lemma ArraySkip(t: Token, rest: seq<Token>, acc: seq<V.Value>)
    requires t.Comma? || t.CurlyClose? || t.Quotes? || t.Colon?
    ensures ArrayLoop([t] + rest, acc) == ArrayLoop(rest, acc)
  {
    assert ([t] + rest)[1..] == rest;
  }

  lemma ArrayScalar(t: Token, rest: seq<Token>, acc: seq<V.Value>)
    requires IsScalar(t)
    ensures ArrayLoop([t] + rest, acc) == ArrayLoop(rest, acc + [ScalarValue(t)])
  {
    assert ([t] + rest)[1..] == rest;
  }

  lemma ArrayNested(t: Token, rest: seq<Token>, acc: seq<V.Value>)
    requires t.CurlyOpen? || t.ArrayOpen?
    ensures t.CurlyOpen? ==> (ArrayLoop([t] + rest, acc)
      == ArrayLoop(ProcessObject(rest).1, acc + [V.Object(ProcessObject(rest).0)]))
    ensures t.ArrayOpen? ==> (ArrayLoop([t] + rest, acc)
      == ArrayLoop(ProcessArray(rest).1, acc + [V.Array(ProcessArray(rest).0)]))
  {
    assert ([t] + rest)[1..] == rest;
  }

  lemma ObjectSkip(t: Token, rest: seq<Token>, isKey: bool, key: Option<string>, acc: map<string, V.Value>)
    requires t.Quotes? || t.ArrayClose?
    ensures ObjectLoop([t] + rest, isKey, key, acc) == ObjectLoop(rest, isKey, key, acc)
  {
    assert ([t] + rest)[1..] == rest;
  }

  lemma ObjectMode(t: Token, rest: seq<Token>, isKey: bool, key: Option<string>, acc: map<string, V.Value>)
    requires t.Colon? || t.Comma?
    ensures ObjectLoop([t] + rest, isKey, key, acc) == ObjectLoop(rest, t.Comma?, key, acc)
  {
    assert ([t] + rest)[1..] == rest;
  }

  lemma ObjectKey(s: string, rest: seq<Token>, key: Option<string>, acc: map<string, V.Value>)
    ensures ObjectLoop([String(s)] + rest, true, key, acc) == ObjectLoop(rest, true, Some(s), acc)
  {
    assert ([String(s)] + rest)[1..] == rest;
  }

  lemma ObjectScalar(t: Token, rest: seq<Token>, k: string, acc: map<string, V.Value>)
    requires IsScalar(t)
    ensures ObjectLoop([t] + rest, false, Some(k), acc) == ObjectLoop(rest, false, None, acc[k := ScalarValue(t)])
  {
    assert ([t] + rest)[1..] == rest;
  }

  lemma ObjectNested(t: Token, rest: seq<Token>, k: string, acc: map<string, V.Value>)
    requires t.CurlyOpen? || t.ArrayOpen?
    ensures t.CurlyOpen? ==> (ObjectLoop([t] + rest, false, Some(k), acc)
      == ObjectLoop(ProcessObject(rest).1, false, Some(k), acc[k := V.Object(ProcessObject(rest).0)]))
    ensures t.ArrayOpen? ==> (ObjectLoop([t] + rest, false, Some(k), acc)
      == ObjectLoop(ProcessArray(rest).1, false, None, acc[k := V.Array(ProcessArray(rest).0)]))
  {
    assert ([t] + rest)[1..] == rest;
  }

  lemma ObjectClose(rest: seq<Token>, isKey: bool, key: Option<string>, acc: map<string, V.Value>)
    ensures ObjectLoop([CurlyClose] + rest, isKey, key, acc) == (acc, rest)
  {
    assert ([CurlyClose] + rest)[1..] == rest;
  }

  lemma TopSkip(t: Token, rest: seq<Token>, value: V.Value)
    requires IsSeparator(t)
    ensures TopLoop([t] + rest, value) == TopLoop(rest, value)
  {
    assert ([t] + rest)[1..] == rest;
  }

  lemma TopScalar(t: Token, rest: seq<Token>, value: V.Value)
    requires IsScalar(t)
    ensures TopLoop([t] + rest, value) == TopLoop(rest, ScalarValue(t))
  {
    assert ([t] + rest)[1..] == rest;
  }

  lemma TopNested(t: Token, rest: seq<Token>, value: V.Value)
    requires t.CurlyOpen? || t.ArrayOpen?
    ensures t.CurlyOpen? ==> (TopLoop([t] + rest, value)
      == TopLoop(ProcessObject(rest).1, V.Object(ProcessObject(rest).0)))
    ensures t.ArrayOpen? ==> (TopLoop([t] + rest, value)
      == TopLoop(ProcessArray(rest).1, V.Array(ProcessArray(rest).0)))
  {
    assert ([t] + rest)[1..] == rest;
  }

  /** The tokens of an array after its `ArrayOpen`, and of an object after
      its `CurlyOpen`. */
  lemma ArrayBody(items: seq<Json>, rest: seq<Token>)
    ensures Emit(JArray(items)) + rest == [ArrayOpen] + (EmitItems(items) + [ArrayClose] + rest)
  {
  }

  lemma ObjectBody(ms: seq<Member>, rest: seq<Token>)
    ensures Emit(JObject(ms)) + rest == [CurlyOpen] + (EmitMembers(ms) + [CurlyClose] + rest)
  {
  }

  /** In an array, the tokens of a document add its meaning as one element. */
  lemma {:induction false} ArrayElement(t: Json, rest: seq<Token>, acc: seq<V.Value>)
    ensures ArrayLoop(Emit(t) + rest, acc) == ArrayLoop(rest, acc + [Meaning(t)])
    decreases t, 1
  {
    match t
    case JArray(items) =>
      ArrayBody(items, rest);
      ArrayNested(ArrayOpen, EmitItems(items) + [ArrayClose] + rest, acc);
      ArrayItems(items, rest, []);
      assert [] + Meanings(items) == Meanings(items);
    case JObject(ms) =>
      ObjectBody(ms, rest);
      ArrayNested(CurlyOpen, EmitMembers(ms) + [CurlyClose] + rest, acc);
      ObjectMembers(ms, rest, None, map[]);
    case JString(s) =>
      ScalarTokens(t, rest);
      ArraySkip(Quotes, [String(s)] + ([Quotes] + rest), acc);
      ArrayScalar(String(s), [Quotes] + rest, acc);
      ArraySkip(Quotes, rest, acc + [V.String(s)]);
    case _ =>
      ScalarTokens(t, rest);
      ArrayScalar(Emit(t)[0], rest, acc);
  }

  /** The elements and the closing `ArrayClose` of an array. */
  lemma {:induction false} ArrayItems(items: seq<Json>, rest: seq<Token>, acc: seq<V.Value>)
    ensures ArrayLoop(EmitItems(items) + [ArrayClose] + rest, acc) == (acc + Meanings(items), rest)
    decreases items, 0
  {
    if |items| == 0 {
      assert EmitItems(items) + [ArrayClose] + rest == [ArrayClose] + rest;
      assert ([ArrayClose] + rest)[1..] == rest;
      assert acc + [] == acc;
    } else if |items| == 1 {
      AppendAssoc(Emit(items[0]), [ArrayClose], rest);
      ArrayElement(items[0], [ArrayClose] + rest, acc);
      assert ([ArrayClose] + rest)[1..] == rest;
      assert Meanings(items) == [Meaning(items[0])];
    } else {
      var tail := EmitItems(items[1..]) + [ArrayClose] + rest;
      assert EmitItems(items) + [ArrayClose] + rest == Emit(items[0]) + ([Comma] + tail);
      ArrayElement(items[0], [Comma] + tail, acc);
      ArraySkip(Comma, tail, acc + [Meaning(items[0])]);
      ArrayItems(items[1..], rest, acc + [Meaning(items[0])]);
      AppendAssoc(acc, [Meaning(items[0])], Meanings(items[1..]));
    }
  }

  /** In an object, after the key and the `Colon`, the tokens of a document
      store its meaning under the key. */
  lemma {:induction false} ObjectValue(v: Json, k: string, rest: seq<Token>, acc: map<string, V.Value>)
    ensures ObjectLoop(Emit(v) + rest, false, Some(k), acc)
         == ObjectLoop(rest, false, KeyAfter(k, v), acc[k := Meaning(v)])
    decreases v, 1
  {
    match v
    case JArray(items) =>
      ArrayBody(items, rest);
      ObjectNested(ArrayOpen, EmitItems(items) + [ArrayClose] + rest, k, acc);
      ArrayItems(items, rest, []);
      assert [] + Meanings(items) == Meanings(items);
    case JObject(ms) =>
      ObjectBody(ms, rest);
      ObjectNested(CurlyOpen, EmitMembers(ms) + [CurlyClose] + rest, k, acc);
      ObjectMembers(ms, rest, None, map[]);
    case JString(s) =>
      ScalarTokens(v, rest);
      ObjectSkip(Quotes, [String(s)] + ([Quotes] + rest), false, Some(k), acc);
      ObjectScalar(String(s), [Quotes] + rest, k, acc);
      ObjectSkip(Quotes, rest, false, None, acc[k := V.String(s)]);
    case _ =>
      ScalarTokens(v, rest);
      ObjectScalar(Emit(v)[0], rest, k, acc);
  }

  /** A member: its key in key mode, the `Colon`, then its value. */
  lemma {:induction false} ObjectMember(m: Member, rest: seq<Token>, key: Option<string>, acc: map<string, V.Value>)
    ensures ObjectLoop(EmitMember(m) + rest, true, key, acc)
         == ObjectLoop(rest, false, KeyAfter(m.key, m.value), acc[m.key := Meaning(m.value)])
    decreases m, 0
  {
    var value := Emit(m.value) + rest;
    assert EmitMember(m) + rest == [Quotes] + ([String(m.key)] + ([Quotes] + ([Colon] + value)));
    ObjectSkip(Quotes, [String(m.key)] + ([Quotes] + ([Colon] + value)), true, key, acc);
    ObjectKey(m.key, [Quotes] + ([Colon] + value), key, acc);
    ObjectSkip(Quotes, [Colon] + value, true, Some(m.key), acc);
    ObjectMode(Colon, value, true, Some(m.key), acc);
    ObjectValue(m.value, m.key, rest, acc);
  }

  /** The members and the closing `CurlyClose` of an object, entered in key
      mode with whatever key is left over. */
  lemma {:induction false} ObjectMembers(ms: seq<Member>, rest: seq<Token>, key: Option<string>, acc: map<string, V.Value>)
    ensures ObjectLoop(EmitMembers(ms) + [CurlyClose] + rest, true, key, acc) == (Insert(acc, ms), rest)
    decreases ms, 2
  {
    if |ms| == 0 {
      assert EmitMembers(ms) + [CurlyClose] + rest == [CurlyClose] + rest;
      ObjectClose(rest, true, key, acc);
    } else if |ms| == 1 {
      var m := ms[0];
      var acc' := acc[m.key := Meaning(m.value)];
      MembersText(ms, rest);
      ObjectMember(m, [CurlyClose] + rest, key, acc);
      ObjectClose(rest, false, KeyAfter(m.key, m.value), acc');
      assert ms[1..] == [];
      assert Insert(acc, ms) == Insert(acc', []);
    } else {
      var m := ms[0];
      var acc' := acc[m.key := Meaning(m.value)];
      var tail := EmitMembers(ms[1..]) + [CurlyClose] + rest;
      MembersText(ms, rest);
      ObjectMember(m, [Comma] + tail, key, acc);
      ObjectMode(Comma, tail, false, KeyAfter(m.key, m.value), acc');
      ObjectMembers(ms[1..], rest, KeyAfter(m.key, m.value), acc');
    }
  }

  /** The tokens of the members of an object, split after the first one. */
  lemma MembersText(ms: seq<Member>, rest: seq<Token>)
    requires |ms| > 0
    ensures |ms| == 1 ==> EmitMembers(ms) + [CurlyClose] + rest == EmitMember(ms[0]) + ([CurlyClose] + rest)
    ensures |ms| > 1 ==>
      EmitMembers(ms) + [CurlyClose] + rest == EmitMember(ms[0]) + ([Comma] + (EmitMembers(ms[1..]) + [CurlyClose] + rest))
  {
    var a := EmitMember(ms[0]);
    var x := [CurlyClose] + rest;
    AppendAssoc(EmitMembers(ms), [CurlyClose], rest);
    if |ms| > 1 {
      var b := EmitMembers(ms[1..]);
      assert EmitMembers(ms) == (a + [Comma]) + b;
      AppendAssoc(a + [Comma], b, x);
      AppendAssoc(a, [Comma], b + x);
      AppendAssoc(b, [CurlyClose], rest);
    }
  }

  /** At the top level, the tokens of a document replace the value so far
      by its meaning. */
  lemma TopDocument(t: Json, rest: seq<Token>, value: V.Value)
    ensures TopLoop(Emit(t) + rest, value) == TopLoop(rest, Meaning(t))
  {
    match t
    case JArray(items) =>
      ArrayBody(items, rest);
      TopNested(ArrayOpen, EmitItems(items) + [ArrayClose] + rest, value);
      ArrayItems(items, rest, []);
      assert [] + Meanings(items) == Meanings(items);
    case JObject(ms) =>
      ObjectBody(ms, rest);
      TopNested(CurlyOpen, EmitMembers(ms) + [CurlyClose] + rest, value);
      ObjectMembers(ms, rest, None, map[]);
    case JString(s) =>
      ScalarTokens(t, rest);
      TopSkip(Quotes, [String(s)] + ([Quotes] + rest), value);
      TopScalar(String(s), [Quotes] + rest, value);
      TopSkip(Quotes, rest, V.String(s));
    case _ =>
      ScalarTokens(t, rest);
      TopScalar(Emit(t)[0], rest, value);
  }

  /** Parsing the tokens of a document gives its meaning. */
  lemma ParseDocument(t: Json)
    ensures TokensToValue(Emit(t)) == Meaning(t)
  {
    TopDocument(t, [], V.Null);
    assert Emit(t) + [] == Emit(t);
  }

  /** With several top-level documents, the last one wins. */
  lemma LastDocumentWins(t1: Json, t2: Json)
    ensures TokensToValue(Emit(t1) + Emit(t2)) == Meaning(t2)
  {
    TopDocument(t1, Emit(t2), V.Null);
    TopDocument(t2, [], Meaning(t1));
    assert Emit(t2) + [] == Emit(t2);
  }

  /** Separators alone leave the value as it was: `Null` when nothing else
      is read. */
  lemma {:induction false} SeparatorsOnly(ts: seq<Token>, value: V.Value)
    requires forall i :: 0 <= i < |ts| ==> IsSeparator(ts[i])
    ensures TopLoop(ts, value) == value
    decreases |ts|
  {
    if ts != [] {
      SeparatorsOnly(ts[1..], value);
    }
  }
}
