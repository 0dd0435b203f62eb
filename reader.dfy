/** The character iterator of the JSON reader (json-parser/src/reader.rs):
    a queue of decoded characters, refilled from the underlying byte reader
    four bytes at a time. */
module Reader {
  import opened Common
  import Utf8

  type byte = Utf8.byte

  function Min(a: nat, b: nat): nat {
    if a <= b then a else b
  }

  /** `k` zero bytes, the padding of a short chunk. */
  function Zeros(k: nat): (z: seq<byte>)
    ensures |z| == k && forall i :: 0 <= i < k ==> z[i] == 0
  {
    seq(k, _ => 0)
  }

  /** `k` `'\0'` characters. */
  function Nuls(k: nat): (z: string)
    ensures |z| == k && forall i :: 0 <= i < k ==> z[i] == '\0'
  {
    seq(k, _ => '\0')
  }

  /** The buffer `next` hands to `from_utf8`: a zeroed four-byte array into
      which the read has copied the first (at most four) unread bytes. */
  function Chunk(input: seq<byte>): (c: seq<byte>)
    ensures |c| == 4
    ensures forall i :: 0 <= i < 4 ==> c[i] == (if i < |input| then input[i] else 0)
  {
    var n := Min(4, |input|);
    input[..n] + Zeros(4 - n)
  }

  /** The longest prefix of `chunk` that is well-formed UTF-8 (what
      `Utf8Error::valid_up_to` reports). */
  function ValidUpTo(chunk: seq<byte>): (k: nat)
    ensures k <= |chunk| && Utf8.Decode(chunk[..k]).Some?
    decreases |chunk|
  {
    if Utf8.Decode(chunk).Some? then
      assert chunk[..|chunk|] == chunk;
      |chunk|
    else
      var k := ValidUpTo(chunk[..|chunk| - 1]);
      assert chunk[..|chunk| - 1][..k] == chunk[..k];
      k
  }

  /** No longer prefix of `chunk` is well-formed. */
  lemma {:induction false} ValidUpToIsLongest(chunk: seq<byte>, j: nat)
    requires j <= |chunk| && Utf8.Decode(chunk[..j]).Some?
    ensures j <= ValidUpTo(chunk)
    decreases |chunk|
  {
    if Utf8.Decode(chunk).None? {
      assert chunk[..|chunk|] == chunk;
      assert j < |chunk|;
      assert chunk[..|chunk| - 1][..j] == chunk[..j];
      ValidUpToIsLongest(chunk[..|chunk| - 1], j);
    }
  }

  class JsonReader {
    /** The bytes the underlying reader has not yet delivered. */
    var input: seq<byte>
    /** `character_buffer`: decoded characters not yet returned. */
    var characterBuffer: seq<char>

    /** `JsonReader::from_bytes` / `JsonReader::new`: nothing read, nothing queued. */
    constructor FromBytes(bytes: seq<byte>)
      ensures input == bytes && characterBuffer == []
    {
      input := bytes;
      characterBuffer := [];
    }

    /** `Iterator::next` as written: a queued character if there is one;
        otherwise read a zero-padded four-byte chunk and, if all four bytes
        are well-formed UTF-8, queue their characters and return the first;
        if not, return None with the queue left empty. */
    method Next() returns (c: Option<char>)
      modifies this
      ensures old(characterBuffer) != [] ==>
        && c == Some(old(characterBuffer)[0])
        && characterBuffer == old(characterBuffer)[1..]
        && input == old(input)
      ensures old(characterBuffer) == [] ==>
        && input == old(input)[Min(4, |old(input)|)..]
        && match Utf8.Decode(Chunk(old(input)))
           case Some(cs) => c == Some(cs[0]) && characterBuffer == cs[1..]
           case None => c == None && characterBuffer == []
    {
      if characterBuffer != [] {
        c := Some(characterBuffer[0]);
        characterBuffer := characterBuffer[1..];
        return;
      }
      var chunk := Chunk(input);
      input := input[Min(4, |input|)..];
      var decoded := Utf8.Decode(chunk);
      if decoded.Some? {
        characterBuffer := decoded.value[1..];
        c := Some(decoded.value[0]);
      } else {
        c := None;
      }
    }

    /** The characters the reader still has to hand out when its input is
        well-formed: the queue, then the decoding of the unread bytes. */
    ghost function Pending(): string
      reads this
      requires Utf8.Decode(input).Some?
    {
      characterBuffer + Utf8.Decode(input).value
    }

    /** The `i`-th character the iterator will return from now on. */
    ghost function StreamAt(i: nat): char
      reads this
      requires Utf8.Decode(input).Some?
    {
      CharAt(Pending(), i)
    }

    /** `next` as the TODO in its error branch intends: when the chunk is not
        well-formed, queue the characters of its valid prefix and give the
        remaining bytes back to the reader, so a character that straddles two
        chunks is read whole by the next refill. On well-formed input it
        returns the decoded characters in order, and endless `'\0'` after
        them. */
    method NextResuming() returns (c: Option<char>)
      requires Utf8.Decode(input).Some?
      modifies this
      ensures Utf8.Decode(input).Some?
      ensures c == Some(old(StreamAt(0)))
      ensures forall i: nat :: StreamAt(i) == old(StreamAt(i + 1))
    {
      if characterBuffer != [] {
        c := Some(characterBuffer[0]);
        characterBuffer := characterBuffer[1..];
        return;
      }
      ghost var before := input;
      var chunk := Chunk(input);
      var n := Min(4, |input|);
      var k := ValidUpTo(chunk);
      ChunkSplit(input, k);
      var cs := Utf8.Decode(chunk[..k]).value;
      input := input[Min(k, n)..];
      characterBuffer := cs[1..];
      c := Some(cs[0]);
      ShiftPadded(Utf8.Decode(before).value, Padding(before), cs, Utf8.Decode(input).value);
    }
  }

  /** The `i`-th character of `p`, or `'\0'` past its end. */
  ghost function CharAt(p: string, i: nat): char {
    if i < |p| then p[i] else '\0'
  }

  /** Handing out the first of `cs`, when `cs` and the characters after it
      are `d` followed by padding, leaves `d` shifted by one. */
  lemma ShiftPadded(d: string, pad: string, cs: string, rest: string)
    requires |cs| >= 1 && cs + rest == d + pad
    requires forall i :: 0 <= i < |pad| ==> pad[i] == '\0'
    ensures cs[0] == CharAt(d, 0)
    ensures forall i: nat :: CharAt(cs[1..] + rest, i) == CharAt(d, i + 1)
  {
    var w := cs + rest;
    assert w[0] == cs[0];
    forall i: nat ensures CharAt(cs[1..] + rest, i) == CharAt(d, i + 1) {
      assert cs[1..] + rest == w[1..];
      if i + 1 < |w| && i + 1 >= |d| {
        assert w[i + 1] == pad[i + 1 - |d|];
      }
    }
  }

  /** The first character of well-formed input is determined by its own
      bytes: what follows them does not matter. */
  lemma DecodeFirstPrefix(a: seq<byte>, b: seq<byte>)
    requires Utf8.DecodeFirst(a).Some?
    ensures Utf8.DecodeFirst(a + b) == Utf8.DecodeFirst(a)
  {
    var s := a + b;
    assert s[0] == a[0];
    assert |a| > 1 ==> s[1] == a[1];
    assert |a| > 2 ==> s[2] == a[2];
    assert |a| > 3 ==> s[3] == a[3];
  }

  lemma DecodeFirstOwnBytes(s: seq<byte>)
    requires Utf8.DecodeFirst(s).Some?
    ensures Utf8.DecodeFirst(s[..Utf8.DecodeFirst(s).value.1]) == Utf8.DecodeFirst(s)
  {
    var m := Utf8.DecodeFirst(s).value.1;
    var t := s[..m];
    assert t[0] == s[0];
    assert m > 1 ==> t[1] == s[1];
    assert m > 2 ==> t[2] == s[2];
    assert m > 3 ==> t[3] == s[3];
  }

  /** Decoding a well-formed prefix and then the rest is decoding the whole. */
  lemma {:induction false} DecodeAppend(a: seq<byte>, b: seq<byte>)
    requires Utf8.Decode(a).Some?
    ensures Utf8.Decode(b).Some? <==> Utf8.Decode(a + b).Some?
    ensures Utf8.Decode(b).Some? ==> Utf8.Decode(a + b).value == Utf8.Decode(a).value + Utf8.Decode(b).value
    decreases |a|
  {
    if |a| == 0 {
      assert a + b == b;
    } else {
      var (c, n) := Utf8.DecodeFirst(a).value;
      DecodeFirstPrefix(a, b);
      assert (a + b)[n..] == a[n..] + b;
      DecodeAppend(a[n..], b);
      assert Utf8.Decode(a).value == [c] + Utf8.Decode(a[n..]).value;
      if Utf8.Decode(b).Some? {
        assert Utf8.Decode(a + b).value == [c] + Utf8.Decode(a[n..] + b).value;
      }
    }
  }

  lemma DecodeZeros(n: nat)
    ensures Utf8.Decode(Zeros(n)) == Some(Nuls(n))
  {
    var z: seq<byte> := Zeros(n);
    Utf8.DecodeAscii(z);
    assert Utf8.AsciiChars(z) == Nuls(n);
  }

  /** The `'\0'` characters the zero padding of a short last chunk adds. */
  function Padding(input: seq<byte>): (p: string)
    ensures forall i :: 0 <= i < |p| ==> p[i] == '\0'
  {
    Nuls(if |input| < 4 then 4 - |input| else 0)
  }

  /** A short last chunk (fewer than four bytes left) of well-formed input is
      well-formed as a whole: its zero padding is. */
  lemma ShortChunkDecodes(input: seq<byte>)
    requires Utf8.Decode(input).Some? && |input| < 4
    ensures Utf8.Decode(Chunk(input)) == Some(Utf8.Decode(input).value + Padding(input))
  {
    var k: nat := 4 - |input|;
    var t := Utf8.Decode(input).value;
    ShortChunkShape(input);
    DecodePadded(Chunk(input), input, t, k);
    assert Utf8.Decode(Chunk(input)) == Some(t + Nuls(k));
    assert Padding(input) == Nuls(k);
    assert t + Padding(input) == t + Nuls(k);
  }

  lemma DecodePadded(c: seq<byte>, a: seq<byte>, text: string, k: nat)
    requires c == a + Zeros(k) && Utf8.Decode(a) == Some(text)
    ensures Utf8.Decode(c) == Some(text + Nuls(k))
  {
    AppendZeros(a, k);
  }

  /** Zero bytes after well-formed UTF-8 decode as `'\0'` characters. */
  lemma AppendZeros(a: seq<byte>, k: nat)
    requires Utf8.Decode(a).Some?
    ensures Utf8.Decode(a + Zeros(k)) == Some(Utf8.Decode(a).value + Nuls(k))
  {
    DecodeZeros(k);
    DecodeAppend(a, Zeros(k));
  }

  lemma ShortChunkShape(input: seq<byte>)
    requires |input| < 4
    ensures Chunk(input) == input + Zeros(4 - |input|)
    ensures Padding(input) == Nuls(4 - |input|)
  {
    assert input[..|input|] == input;
  }

  /** In a full chunk of well-formed input, the bytes of the first character
      form a well-formed prefix, so the valid prefix is not empty. */
  lemma FullChunkHasValidPrefix(input: seq<byte>)
    requires Utf8.Decode(input).Some? && |input| >= 4
    ensures ValidUpTo(Chunk(input)) >= 1
  {
    var chunk := Chunk(input);
    assert chunk == input[..4];
    var m := Utf8.DecodeFirst(input).value.1;
    DecodeFirstOwnBytes(input);
    var first := input[..m];
    assert first[m..] == [];
    assert Utf8.Decode(first).Some?;
    assert chunk[..m] == first;
    ValidUpToIsLongest(chunk, m);
  }

  lemma ValidUpToWhole(chunk: seq<byte>)
    requires Utf8.Decode(chunk).Some?
    ensures ValidUpTo(chunk) == |chunk|
  {
  }

  lemma ShortChunkWhole(input: seq<byte>)
    requires Utf8.Decode(input).Some? && |input| < 4
    ensures ValidUpTo(Chunk(input)) == 4
  {
    ShortChunkDecodes(input);
    ValidUpToWhole(Chunk(input));
  }

  lemma ShortChunkChars(input: seq<byte>)
    requires Utf8.Decode(input).Some? && |input| < 4
    ensures Utf8.Decode(Chunk(input)[..4]) == Some(Utf8.Decode(input).value + Padding(input))
  {
    ShortChunkDecodes(input);
    assert Chunk(input)[..4] == Chunk(input);
  }

  lemma ShortChunkSplit(input: seq<byte>, k: nat)
    requires Utf8.Decode(input).Some? && |input| < 4
    requires k == ValidUpTo(Chunk(input))
    ensures k == 4
    ensures Utf8.Decode(input[Min(k, Min(4, |input|))..]) == Some([])
    ensures Utf8.Decode(Chunk(input)[..k]).value == Utf8.Decode(input).value + Padding(input)
  {
    ShortChunkWhole(input);
    ShortChunkChars(input);
    assert input[|input|..] == [];
  }

  lemma FullChunkPrefix(input: seq<byte>, k: nat)
    requires 1 <= k <= 4 <= |input|
    ensures Chunk(input)[..k] == input[..k]
  {
  }

  lemma SplitDecodes(input: seq<byte>, k: nat)
    requires k <= |input| && Utf8.Decode(input).Some? && Utf8.Decode(input[..k]).Some?
    ensures Utf8.Decode(input[k..]).Some?
    ensures Utf8.Decode(input[..k]).value + Utf8.Decode(input[k..]).value == Utf8.Decode(input).value
  {
    SliceJoin(input, k);
    DecodeJoin(input[..k], input[k..], input);
  }

  lemma SliceJoin(s: seq<byte>, k: nat)
    requires k <= |s|
    ensures s[..k] + s[k..] == s
  {
  }

  lemma DecodeJoin(a: seq<byte>, b: seq<byte>, s: seq<byte>)
    requires s == a + b && Utf8.Decode(s).Some? && Utf8.Decode(a).Some?
    ensures Utf8.Decode(b).Some?
    ensures Utf8.Decode(a).value + Utf8.Decode(b).value == Utf8.Decode(s).value
  {
    DecodeAppend(a, b);
  }

  lemma FullChunkSplit(input: seq<byte>, k: nat)
    requires Utf8.Decode(input).Some? && |input| >= 4
    requires k == ValidUpTo(Chunk(input))
    ensures 1 <= k <= 4
    ensures Utf8.Decode(input[k..]).Some?
    ensures Utf8.Decode(Chunk(input)[..k]).value + Utf8.Decode(input[k..]).value == Utf8.Decode(input).value
  {
    FullChunkHasValidPrefix(input);
    FullChunkPrefix(input, k);
    SplitDecodes(input, k);
  }

  /** Splitting well-formed input after the chunk's valid prefix leaves a
      well-formed remainder, and the prefix's characters followed by the
      remainder's are all of the input's characters (with the chunk's zero
      padding, when it had any). */
  lemma ChunkSplit(input: seq<byte>, k: nat)
    requires Utf8.Decode(input).Some?
    requires k == ValidUpTo(Chunk(input))
    ensures k >= 1
    ensures Utf8.Decode(input[Min(k, Min(4, |input|))..]).Some?
    ensures Utf8.Decode(Chunk(input)[..k]).value + Utf8.Decode(input[Min(k, Min(4, |input|))..]).value
      == Utf8.Decode(input).value + Padding(input)
  {
    if |input| < 4 {
      ShortChunkCase(input, k);
    } else {
      FullChunkCase(input, k);
    }
  }

  lemma ShortChunkCase(input: seq<byte>, k: nat)
    requires Utf8.Decode(input).Some? && |input| < 4
    requires k == ValidUpTo(Chunk(input))
    ensures k >= 1
    ensures Utf8.Decode(input[Min(k, Min(4, |input|))..]).Some?
    ensures Utf8.Decode(Chunk(input)[..k]).value + Utf8.Decode(input[Min(k, Min(4, |input|))..]).value
      == Utf8.Decode(input).value + Padding(input)
  {
    ShortChunkSplit(input, k);
  }

  lemma FullChunkCase(input: seq<byte>, k: nat)
    requires Utf8.Decode(input).Some? && |input| >= 4
    requires k == ValidUpTo(Chunk(input))
    ensures k >= 1
    ensures Utf8.Decode(input[Min(k, Min(4, |input|))..]).Some?
    ensures Utf8.Decode(Chunk(input)[..k]).value + Utf8.Decode(input[Min(k, Min(4, |input|))..]).value
      == Utf8.Decode(input).value + Padding(input)
  {
    FullChunkSplit(input, k);
    assert Min(k, Min(4, |input|)) == k;
    assert Padding(input) == [];
  }

  /** Where at least four bytes are left, the chunk is those bytes. */
  lemma FullChunk(bytes: seq<byte>, k: nat)
    requires k + 4 <= |bytes|
    ensures Chunk(bytes[k..]) == bytes[k..k + 4]
  {
  }

  /** A chunk holding a whole three-byte character and the lead byte of the
      next one is not well-formed, so `next` returns None on it. */
  lemma ChunkEndsInLead(c: char, d: char)
    requires 0x800 <= c as int < 0x10000 && 0x800 <= d as int < 0x10000
    ensures Utf8.Decode(Utf8.EncodeChar(c) + Utf8.EncodeChar(d)[..1]) == None
  {
    Utf8.ThreeByteChar(c);
    Utf8.ThreeByteChar(d);
    var s := Utf8.EncodeChar(c) + Utf8.EncodeChar(d)[..1];
    Utf8.DecodeFirstEncodeChar(c, Utf8.EncodeChar(d)[..1]);
    assert s[3..] == Utf8.EncodeChar(d)[..1];
  }

  /** A chunk that starts after the lead byte of a three-byte character
      begins with a continuation byte and is not well-formed. */
  lemma ChunkStartsInside(c: char, rest: seq<byte>)
    requires 0x800 <= c as int < 0x10000
    ensures Utf8.Decode(Utf8.EncodeChar(c)[1..] + rest) == None
  {
    Utf8.ThreeByteChar(c);
    var s := Utf8.EncodeChar(c)[1..] + rest;
    assert s[0] == Utf8.EncodeChar(c)[1];
  }

  /** On well-formed input of at least four bytes, `next` as written
      returns None exactly when its chunk ends inside a character, that is
      when the chunk's valid prefix is shorter than the chunk; and then
      characters are left behind it, so the stream ends early. */
  lemma ChunkSplitsCharacter(input: seq<byte>)
    requires Utf8.Decode(input).Some? && |input| >= 4
    ensures Utf8.Decode(Chunk(input)) == None <==> ValidUpTo(Chunk(input)) < 4
    ensures var k := ValidUpTo(Chunk(input));
      k < 4 ==>
        && Utf8.Decode(input[k..]).Some? && |Utf8.Decode(input[k..]).value| > 0
        && Utf8.Decode(Chunk(input)[..k]).value + Utf8.Decode(input[k..]).value == Utf8.Decode(input).value
  {
    var chunk, k := Chunk(input), ValidUpTo(Chunk(input));
    assert chunk[..4] == chunk;
    if Utf8.Decode(chunk).Some? {
      ValidUpToWhole(chunk);
    }
    if k < 4 {
      FullChunkSplit(input, k);
    }
  }

  /** `next` as written loses well-formed input: the bytes of U+0804 U+0800
      are E0 A0 84 E0 A0 80, and the first four-byte chunk ends inside the
      second character, so `from_utf8` rejects it and `next` reports the end
      of the input although two characters are there to be read. */
  lemma SplitCharacterExample()
    ensures var bytes: seq<byte> := [0xE0, 0xA0, 0x84, 0xE0, 0xA0, 0x80];
      && Utf8.Decode(bytes) == Some(['\U{0804}', '\U{0800}'])
      && Utf8.Decode(Chunk(bytes)) == None
      && ValidUpTo(Chunk(bytes)) == 3
  {
    var bytes: seq<byte> := [0xE0, 0xA0, 0x84, 0xE0, 0xA0, 0x80];
    var second := bytes[3..];
    assert second == [0xE0, 0xA0, 0x80];
    assert second[3..] == [];
    assert Utf8.Decode(second[3..]) == Some([]);
    assert Utf8.DecodeFirst(second) == Some(('\U{0800}', 3));
    assert ['\U{0800}'] + [] == ['\U{0800}'];
    assert Utf8.Decode(second) == Some(['\U{0800}']);
    assert Utf8.DecodeFirst(bytes) == Some(('\U{0804}', 3));
    assert ['\U{0804}'] + ['\U{0800}'] == ['\U{0804}', '\U{0800}'];
    var chunk := Chunk(bytes);
    assert chunk == [0xE0, 0xA0, 0x84, 0xE0];
    assert chunk[3..] == [0xE0];
    assert chunk[..3] == [0xE0, 0xA0, 0x84];
    assert chunk[..3][3..] == [];
  }
}
