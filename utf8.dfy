/** UTF-8 as RFC 3629 defines it: the encoding of section 3 and the byte
    syntax of section 4 (which excludes overlong forms, surrogates and code
    points above U+10FFFF). `Decode` is what Rust's `std::str::from_utf8`
    accepts: it succeeds exactly on well-formed input. */
module Utf8 {
  import opened Common

  type byte = b: int | 0 <= b < 256

  /** A continuation byte: `10xxxxxx`. */
  predicate IsTail(b: byte) {
    0x80 <= b <= 0xBF
  }

  /** The first character of `s` and the number of bytes it takes, or None
      when `s` does not start with a well-formed sequence (RFC 3629,
      section 4: UTF8-1, UTF8-2, UTF8-3, UTF8-4). */
  function DecodeFirst(s: seq<byte>): (r: Option<(char, nat)>)
    ensures r.Some? ==> 1 <= r.value.1 <= 4 && r.value.1 <= |s|
  {
    if |s| == 0 then None
    else if s[0] < 0x80 then Some((s[0] as char, 1))
    else if 0xC2 <= s[0] <= 0xDF then DecodeTwo(s)
    else if 0xE0 <= s[0] <= 0xEF then DecodeThree(s)
    else if 0xF0 <= s[0] <= 0xF4 then DecodeFour(s)
    else None
  }

  /** UTF8-2: a lead byte C2..DF and one continuation byte. */
  function DecodeTwo(s: seq<byte>): (r: Option<(char, nat)>)
    requires |s| > 0 && 0xC2 <= s[0] <= 0xDF
    ensures r.Some? ==> r.value.1 == 2 <= |s|
  {
    if |s| >= 2 && IsTail(s[1]) then
      var b0: int, b1: int := s[0], s[1];
      Some((((b0 - 0xC0) * 64 + (b1 - 0x80)) as char, 2))
    else None
  }

  /** UTF8-3: a lead byte E0..EF and two continuation bytes, the first of
      them A0..BF after E0 (no overlong forms) and 80..9F after ED (no
      surrogates). */
  function DecodeThree(s: seq<byte>): (r: Option<(char, nat)>)
    requires |s| > 0 && 0xE0 <= s[0] <= 0xEF
    ensures r.Some? ==> r.value.1 == 3 <= |s|
  {
    var lo := if s[0] == 0xE0 then 0xA0 else 0x80;
    var hi := if s[0] == 0xED then 0x9F else 0xBF;
    if |s| >= 3 && lo <= s[1] <= hi && IsTail(s[2]) then
      var b0: int, b1: int, b2: int := s[0], s[1], s[2];
      var cp := (b0 - 0xE0) * 4096 + (b1 - 0x80) * 64 + (b2 - 0x80);
      assert 0x800 <= cp <= 0xFFFF && (cp < 0xD800 || 0xE000 <= cp);
      Some((cp as char, 3))
    else None
  }

  /** UTF8-4: a lead byte F0..F4 and three continuation bytes, the first of
      them 90..BF after F0 (no overlong forms) and 80..8F after F4 (nothing
      above U+10FFFF). */
  function DecodeFour(s: seq<byte>): (r: Option<(char, nat)>)
    requires |s| > 0 && 0xF0 <= s[0] <= 0xF4
    ensures r.Some? ==> r.value.1 == 4 <= |s|
  {
    var lo := if s[0] == 0xF0 then 0x90 else 0x80;
    var hi := if s[0] == 0xF4 then 0x8F else 0xBF;
    if |s| >= 4 && lo <= s[1] <= hi && IsTail(s[2]) && IsTail(s[3]) then
      var b0: int, b1: int, b2: int, b3: int := s[0], s[1], s[2], s[3];
      var cp := (b0 - 0xF0) * 262144 + (b1 - 0x80) * 4096 + (b2 - 0x80) * 64 + (b3 - 0x80);
      assert 0x10000 <= cp <= 0x10FFFF;
      Some((cp as char, 4))
    else None
  }

  /** The characters `s` encodes, or None when `s` is not well-formed. */
  function Decode(s: seq<byte>): (r: Option<string>)
    ensures r.Some? ==> |r.value| <= |s|
    ensures r.Some? ==> (|r.value| == 0 <==> |s| == 0)
    decreases |s|
  {
    if |s| == 0 then Some([])
    else
      match DecodeFirst(s)
      case None => None
      case Some((c, n)) =>
        match Decode(s[n..])
        case None => None
        case Some(rest) => Some([c] + rest)
  }

  /** The encoding of one character (RFC 3629, section 3). */
  function EncodeChar(c: char): (bs: seq<byte>)
    ensures 1 <= |bs| <= 4
  {
    var x := c as int;
    if x < 0x80 then [x]
    else if x < 0x800 then [0xC0 + x / 64, 0x80 + x % 64]
    else if x < 0x10000 then [0xE0 + x / 4096, 0x80 + (x / 64) % 64, 0x80 + x % 64]
    else [0xF0 + x / 262144, 0x80 + (x / 4096) % 64, 0x80 + (x / 64) % 64, 0x80 + x % 64]
  }

  function Encode(s: string): (bs: seq<byte>)
    ensures |bs| >= |s|
  {
    if |s| == 0 then [] else EncodeChar(s[0]) + Encode(s[1..])
  }

  /** ASCII characters are their own one-byte encodings. */
  predicate IsAscii(s: seq<byte>) {
    forall i :: 0 <= i < |s| ==> s[i] < 0x80
  }

  function AsciiChars(s: seq<byte>): (cs: string)
    requires IsAscii(s)
    ensures |cs| == |s|
    ensures forall i :: 0 <= i < |s| ==> cs[i] as int == s[i]
  {
    if |s| == 0 then [] else [s[0] as char] + AsciiChars(s[1..])
  }

  lemma DivMod64(x: int)
    requires 0 <= x
    ensures x == (x / 64) * 64 + x % 64
    ensures x / 64 == (x / 4096) * 64 + (x / 64) % 64
    ensures x / 4096 == (x / 262144) * 64 + (x / 4096) % 64
  {
  }

  /** Decoding undoes the encoding of one character, whatever follows it. */
  lemma DecodeFirstEncodeChar(c: char, rest: seq<byte>)
    ensures DecodeFirst(EncodeChar(c) + rest) == Some((c, |EncodeChar(c)|))
  {
    var x := c as int;
    DivMod64(x);
    if x < 0x80 {
    } else if x < 0x800 {
      DecodeTwoChar(c, rest);
    } else if x < 0x10000 {
      DecodeThreeChar(c, rest);
    } else {
      DecodeFourChar(c, rest);
    }
  }

  lemma DecodeTwoChar(c: char, rest: seq<byte>)
    requires 0x80 <= c as int < 0x800
    ensures DecodeFirst(EncodeChar(c) + rest) == Some((c, 2))
  {
    var x := c as int;
    DivMod64(x);
    var s := EncodeChar(c) + rest;
    assert s[0] == 0xC0 + x / 64 && s[1] == 0x80 + x % 64;
    var b0: int, b1: int := s[0], s[1];
    assert (b0 - 0xC0) * 64 + (b1 - 0x80) == x;
  }

  lemma DecodeThreeChar(c: char, rest: seq<byte>)
    requires 0x800 <= c as int < 0x10000
    ensures DecodeFirst(EncodeChar(c) + rest) == Some((c, 3))
  {
    var x := c as int;
    DivMod64(x);
    var s := EncodeChar(c) + rest;
    assert s[0] == 0xE0 + x / 4096 && s[1] == 0x80 + (x / 64) % 64 && s[2] == 0x80 + x % 64;
    assert x < 0xD800 || 0xE000 <= x;
    var b0: int, b1: int, b2: int := s[0], s[1], s[2];
    assert (b0 - 0xE0) * 4096 + (b1 - 0x80) * 64 + (b2 - 0x80) == x;
  }

  lemma DecodeFourChar(c: char, rest: seq<byte>)
    requires 0x10000 <= c as int
    ensures DecodeFirst(EncodeChar(c) + rest) == Some((c, 4))
  {
    var x := c as int;
    DivMod64(x);
    var s := EncodeChar(c) + rest;
    assert s[0] == 0xF0 + x / 262144 && s[1] == 0x80 + (x / 4096) % 64;
    assert s[2] == 0x80 + (x / 64) % 64 && s[3] == 0x80 + x % 64;
    var b0: int, b1: int, b2: int, b3: int := s[0], s[1], s[2], s[3];
    assert (b0 - 0xF0) * 262144 + (b1 - 0x80) * 4096 + (b2 - 0x80) * 64 + (b3 - 0x80) == x;
  }

  /** Round trip: every string decodes back from its encoding. */
  lemma {:induction false} DecodeEncode(s: string)
    ensures Decode(Encode(s)) == Some(s)
  {
    if |s| > 0 {
      var e := EncodeChar(s[0]);
      var tail := Encode(s[1..]);
      DecodeFirstEncodeChar(s[0], tail);
      assert Encode(s) == e + tail;
      assert (e + tail)[|e|..] == tail;
      DecodeEncode(s[1..]);
      assert [s[0]] + s[1..] == s;
    }
  }

  lemma DivModUnique(x: int, q: int, r: int)
    requires 0 <= q && 0 <= r < 64 && x == q * 64 + r
    ensures x / 64 == q && x % 64 == r
  {
  }

  lemma Encode2(b0: int, b1: int)
    requires 0xC2 <= b0 <= 0xDF && 0x80 <= b1 <= 0xBF
    ensures EncodeChar(((b0 - 0xC0) * 64 + (b1 - 0x80)) as char) == [b0, b1]
  {
    DivModUnique((b0 - 0xC0) * 64 + (b1 - 0x80), b0 - 0xC0, b1 - 0x80);
  }

  lemma Encode3(b0: int, b1: int, b2: int)
    requires 0xE0 <= b0 <= 0xEF && 0x80 <= b1 <= 0xBF && 0x80 <= b2 <= 0xBF
    requires b0 == 0xE0 ==> 0xA0 <= b1
    requires b0 == 0xED ==> b1 <= 0x9F
    ensures var x := (b0 - 0xE0) * 4096 + (b1 - 0x80) * 64 + (b2 - 0x80);
            (x < 0xD800 || 0xE000 <= x) && 0x800 <= x < 0x10000 &&
            EncodeChar(x as char) == [b0, b1, b2]
  {
    var x := (b0 - 0xE0) * 4096 + (b1 - 0x80) * 64 + (b2 - 0x80);
    var hi := (b0 - 0xE0) * 64 + (b1 - 0x80);
    assert x == hi * 64 + (b2 - 0x80);
    DivModUnique(x, hi, b2 - 0x80);
    DivModUnique(hi, b0 - 0xE0, b1 - 0x80);
    assert x / 4096 == hi / 64;
  }

  lemma Encode4(b0: int, b1: int, b2: int, b3: int)
    requires 0xF0 <= b0 <= 0xF4 && 0x80 <= b1 <= 0xBF && 0x80 <= b2 <= 0xBF && 0x80 <= b3 <= 0xBF
    requires b0 == 0xF0 ==> 0x90 <= b1
    requires b0 == 0xF4 ==> b1 <= 0x8F
    ensures var x := (b0 - 0xF0) * 262144 + (b1 - 0x80) * 4096 + (b2 - 0x80) * 64 + (b3 - 0x80);
            0x10000 <= x <= 0x10FFFF && EncodeChar(x as char) == [b0, b1, b2, b3]
  {
    var x := (b0 - 0xF0) * 262144 + (b1 - 0x80) * 4096 + (b2 - 0x80) * 64 + (b3 - 0x80);
    var mid := (b0 - 0xF0) * 64 + (b1 - 0x80);
    var hi := mid * 64 + (b2 - 0x80);
    assert x == hi * 64 + (b3 - 0x80);
    DivModUnique(x, hi, b3 - 0x80);
    DivModUnique(hi, mid, b2 - 0x80);
    DivModUnique(mid, b0 - 0xF0, b1 - 0x80);
    assert x / 4096 == hi / 64;
    assert x / 262144 == mid / 64;
  }

  /** A decoded character re-encodes to exactly the bytes it was read from:
      the decoder accepts no overlong or otherwise alternative forms. */
  lemma EncodeCharDecodeFirst(s: seq<byte>)
    requires DecodeFirst(s).Some?
    ensures EncodeChar(DecodeFirst(s).value.0) == s[..DecodeFirst(s).value.1]
  {
    var n := DecodeFirst(s).value.1;
    var b0: int := s[0];
    if n == 2 {
      Encode2(b0, s[1]);
    } else if n == 3 {
      Encode3(b0, s[1], s[2]);
    } else if n == 4 {
      Encode4(b0, s[1], s[2], s[3]);
    }
  }

  /** The converse round trip: whatever decodes is the encoding of what it
      decodes to, so `Decode` succeeds exactly on encodings of strings. */
  lemma {:induction false} EncodeDecode(s: seq<byte>)
    requires Decode(s).Some?
    ensures Encode(Decode(s).value) == s
    decreases |s|
  {
    if |s| > 0 {
      var c, n := FirstChar(s);
      var rest := Decode(s[n..]).value;
      var cs := Decode(s).value;
      EncodeDecode(s[n..]);
      assert cs[0] == c && cs[1..] == rest;
      EncodeCons(cs);
      assert Encode(cs) == s[..n] + s[n..];
      assert s == s[..n] + s[n..];
    }
  }

  /** The first character of well-formed bytes, its encoding, and the rest
      of the text from the rest of the bytes. */
  lemma FirstChar(s: seq<byte>) returns (c: char, n: nat)
    requires Decode(s).Some? && |s| > 0
    ensures 0 < n <= |s| && EncodeChar(c) == s[..n]
    ensures Decode(s[n..]).Some?
    ensures Decode(s).value == [c] + Decode(s[n..]).value
  {
    c, n := DecodeFirst(s).value.0, DecodeFirst(s).value.1;
    EncodeCharDecodeFirst(s);
  }

  /** The encoding of a concatenation is the concatenation of the
      encodings. */
  lemma {:induction false} EncodeAppend(a: string, b: string)
    ensures Encode(a + b) == Encode(a) + Encode(b)
  {
    if |a| > 0 {
      assert (a + b)[0] == a[0] && (a + b)[1..] == a[1..] + b;
      EncodeAppend(a[1..], b);
      calc {
        Encode(a + b);
        EncodeChar(a[0]) + Encode(a[1..] + b);
        EncodeChar(a[0]) + (Encode(a[1..]) + Encode(b));
        (EncodeChar(a[0]) + Encode(a[1..])) + Encode(b);
        Encode(a) + Encode(b);
      }
    } else {
      assert a + b == b;
    }
  }

  /** ASCII text encodes one byte per character. */
  lemma {:induction false} EncodeAsciiLength(s: string)
    requires forall i :: 0 <= i < |s| ==> s[i] as int < 0x80
    ensures |Encode(s)| == |s|
  {
    if |s| > 0 {
      EncodeAsciiLength(s[1..]);
    }
  }

  /** A character from U+0800 to U+FFFF encodes as a lead byte E0..EF and
      two continuation bytes. */
  lemma ThreeByteChar(c: char)
    requires 0x800 <= c as int < 0x10000
    ensures var e := EncodeChar(c); |e| == 3 && 0xE0 <= e[0] <= 0xEF && IsTail(e[1]) && IsTail(e[2])
  {
  }

  lemma EncodeCons(cs: string)
    requires |cs| > 0
    ensures Encode(cs) == EncodeChar(cs[0]) + Encode(cs[1..])
  {
  }

  /** ASCII bytes always decode, one character per byte. */
  lemma {:induction false} DecodeAscii(s: seq<byte>)
    requires IsAscii(s)
    ensures Decode(s) == Some(AsciiChars(s))
  {
    if |s| > 0 {
      DecodeAscii(s[1..]);
    }
  }
}
