// How the reader's four-byte chunks fall on a text of nine ASCII
// characters followed by four three-byte characters, the layout of the
// `parse_utf8_json` test input (json-parser/src/tokens.rs).

module ReaderChunks {
  import opened Common
  import opened Utf8
  import opened Reader

  /** The encoding of four three-byte characters, character by character. */
  lemma EncodeFourWide(w: string)
    requires |w| == 4 && forall i :: 0 <= i < 4 ==> 0x800 <= w[i] as int < 0x10000
    ensures Encode(w) == EncodeChar(w[0]) + EncodeChar(w[1]) + EncodeChar(w[2]) + EncodeChar(w[3])
  {
    EncodeCons(w);
    EncodeCons(w[1..]);
    EncodeCons(w[2..]);
    EncodeCons(w[3..]);
    assert w[1..][0] == w[1] && w[2..][0] == w[2] && w[3..][0] == w[3];
    assert w[1..][1..] == w[2..] && w[2..][1..] == w[3..] && w[3..][1..] == [];
  }

  /** Where the first five chunks fall in `a + w + r`, for nine bytes `a`
      and twelve bytes `w`. */
  lemma Windows(a: seq<byte>, w: seq<byte>, r: seq<byte>)
    requires |a| == 9 && |w| == 12
    ensures var bytes := a + w + r;
      && bytes[0..4] == a[..4] && bytes[4..8] == a[4..8] && bytes[8..12] == a[8..] + w[..3]
      && bytes[12..16] == w[3..7] && bytes[16..20] == w[7..11]
  {
  }

  lemma AsciiWindows(e0: seq<byte>, e1: seq<byte>, e2: seq<byte>)
    requires |e0| == 4 && |e1| == 4 && |e2| == 1
    ensures var a := e0 + e1 + e2; a[..4] == e0 && a[4..8] == e1 && a[8..] == e2
  {
  }

  lemma WideWindows(c0: seq<byte>, c1: seq<byte>, c2: seq<byte>, c3: seq<byte>)
    requires |c0| == 3 && |c1| == 3 && |c2| == 3 && |c3| == 3
    ensures var w := c0 + c1 + c2 + c3;
      w[..3] == c0 && w[3..7] == c1 + c2[..1] && w[7..11] == c2[1..] + c3[..2]
  {
    var w := c0 + c1 + c2 + c3;
    assert w[3..7] == c1 + c2[..1] by {
      forall i | 0 <= i < 4 ensures w[3..7][i] == (c1 + c2[..1])[i] {
        assert w[3 + i] == if i < 3 then c1[i] else c2[0];
      }
    }
    assert w[7..11] == c2[1..] + c3[..2] by {
      forall i | 0 <= i < 4 ensures w[7..11][i] == (c2[1..] + c3[..2])[i] {
        assert w[7 + i] == if i < 2 then c2[1 + i] else c3[i - 2];
      }
    }
  }

  /** Nine ASCII characters encode to nine bytes, cut by the chunks into
      the encodings of four, four and one of them. */
  lemma AsciiLayout(a: string)
    requires |a| == 9 && forall i :: 0 <= i < 9 ==> a[i] as int < 0x80
    ensures var e := Encode(a);
      |e| == 9 && e[..4] == Encode(a[..4]) && e[4..8] == Encode(a[4..8]) && e[8..] == Encode(a[8..])
  {
    assert a == a[..4] + a[4..8] + a[8..];
    EncodeAppend(a[..4] + a[4..8], a[8..]);
    EncodeAppend(a[..4], a[4..8]);
    EncodeAsciiLength(a[..4]);
    EncodeAsciiLength(a[4..8]);
    EncodeAsciiLength(a[8..]);
    AsciiWindows(Encode(a[..4]), Encode(a[4..8]), Encode(a[8..]));
  }

  /** Four three-byte characters encode to twelve bytes; after nine bytes
      of ASCII the chunks cut them after the first character, inside the
      third and inside the fourth. */
  lemma WideLayout(w: string)
    requires |w| == 4 && forall i :: 0 <= i < 4 ==> 0x800 <= w[i] as int < 0x10000
    ensures var e := Encode(w);
      && |e| == 12 && e[..3] == EncodeChar(w[0])
      && e[3..7] == EncodeChar(w[1]) + EncodeChar(w[2])[..1]
      && e[7..11] == EncodeChar(w[2])[1..] + EncodeChar(w[3])[..2]
  {
    EncodeFourWide(w);
    ThreeByteChar(w[0]);
    ThreeByteChar(w[1]);
    ThreeByteChar(w[2]);
    ThreeByteChar(w[3]);
    WideWindows(EncodeChar(w[0]), EncodeChar(w[1]), EncodeChar(w[2]), EncodeChar(w[3]));
  }

  /** The bytes of the first five chunks the reader takes from nine ASCII
      characters followed by four three-byte characters. */
  lemma LeadingWindows(a: string, w: string, rest: string)
    requires |a| == 9 && forall i :: 0 <= i < 9 ==> a[i] as int < 0x80
    requires |w| == 4 && forall i :: 0 <= i < 4 ==> 0x800 <= w[i] as int < 0x10000
    ensures var bytes := Encode(a + w + rest);
      && |bytes| >= 20
      && Chunk(bytes) == Encode(a[..4])
      && Chunk(bytes[4..]) == Encode(a[4..8])
      && Chunk(bytes[8..]) == Encode(a[8..] + w[..1])
      && Chunk(bytes[12..]) == EncodeChar(w[1]) + EncodeChar(w[2])[..1]
      && Chunk(bytes[16..]) == EncodeChar(w[2])[1..] + EncodeChar(w[3])[..2]
  {
    var bytes := Encode(a + w + rest);
    EncodeAppend(a + w, rest);
    EncodeAppend(a, w);
    AsciiLayout(a);
    WideLayout(w);
    Windows(Encode(a), Encode(w), Encode(rest));
    FullChunk(bytes, 0);
    FullChunk(bytes, 4);
    FullChunk(bytes, 8);
    FullChunk(bytes, 12);
    FullChunk(bytes, 16);
    assert bytes[0..] == bytes;
    EncodeAppend(a[8..], w[..1]);
    EncodeCons(w[..1]);
    assert w[..1][0] == w[0] && w[..1][1..] == [];
  }

  /** The first five chunks the reader takes from nine ASCII characters
      followed by four three-byte characters: three decode, to the ASCII
      characters and the first wide one, and the fourth and the fifth,
      which cut a character, do not. */
  lemma LeadingChunks(a: string, w: string, rest: string)
    requires |a| == 9 && forall i :: 0 <= i < 9 ==> a[i] as int < 0x80
    requires |w| == 4 && forall i :: 0 <= i < 4 ==> 0x800 <= w[i] as int < 0x10000
    ensures var bytes := Encode(a + w + rest);
      && |bytes| >= 20
      && Decode(Chunk(bytes)) == Some(a[..4])
      && Decode(Chunk(bytes[4..])) == Some(a[4..8])
      && Decode(Chunk(bytes[8..])) == Some(a[8..] + w[..1])
      && Decode(Chunk(bytes[12..])) == None
      && Decode(Chunk(bytes[16..])) == None
  {
    LeadingWindows(a, w, rest);
    DecodeEncode(a[..4]);
    DecodeEncode(a[4..8]);
    DecodeEncode(a[8..] + w[..1]);
    ChunkEndsInLead(w[1], w[2]);
    ChunkStartsInside(w[2], EncodeChar(w[3])[..2]);
  }
}
