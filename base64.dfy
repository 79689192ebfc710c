/** Base 64 encoding as in section 4 of RFC 4648 (the alphabet of its
    Table 1, "=" padding), which Python's base64.b64encode produces; with
    the matching decoder, so that the encoding can be shown to lose nothing. */
module Base64 {
  import opened Common

  type Byte = bv8

  const Pad: char := '='

  /** The character for a 6-bit value: Table 1 of RFC 4648 is A-Z, a-z,
      0-9, "+" and "/" in that order. */
  function Char6(v: Byte): (c: char)
    requires v < 64
  {
    if v < 26 then ((v as int) + ('A' as int)) as char
    else if v < 52 then ((v as int) - 26 + ('a' as int)) as char
    else if v < 62 then ((v as int) - 52 + ('0' as int)) as char
    else if v == 62 then '+'
    else '/'
  }

  /** The 6-bit value of an alphabet character; None for any other character. */
  function Value6(c: char): (r: Option<Byte>)
    ensures r.Some? ==> r.value < 64
  {
    if 'A' <= c <= 'Z' then Some(((c as int) - ('A' as int)) as Byte)
    else if 'a' <= c <= 'z' then Some(((c as int) - ('a' as int) + 26) as Byte)
    else if '0' <= c <= '9' then Some(((c as int) - ('0' as int) + 52) as Byte)
    else if c == '+' then Some(62)
    else if c == '/' then Some(63)
    else None
  }

  lemma Value6OfChar6(v: Byte)
    requires v < 64
    ensures Value6(Char6(v)) == Some(v)
  {
    if v < 26 {
      UpperRoundTrip(v);
    } else if v < 52 {
      LowerRoundTrip(v);
    } else if v < 62 {
      NumeralRoundTrip(v);
    }
  }

  lemma UpperRoundTrip(v: Byte)
    requires v < 26
    ensures Value6(Char6(v)) == Some(v)
  {
    var c := Char6(v);
    assert c as int == v as int + 65;
  }

  lemma LowerRoundTrip(v: Byte)
    requires 26 <= v < 52
    ensures Value6(Char6(v)) == Some(v)
  {
    var c := Char6(v);
    assert c as int == v as int + 71;
  }

  lemma NumeralRoundTrip(v: Byte)
    requires 52 <= v < 62
    ensures Value6(Char6(v)) == Some(v)
  {
    var c := Char6(v);
    assert c as int == v as int - 4;
  }

  /** The characters an encoding may contain. */
  predicate IsEncodingChar(c: char)
  {
    Value6(c).Some? || c == Pad
  }

  lemma Char6IsEncodingChar(v: Byte)
    requires v < 64
    ensures IsEncodingChar(Char6(v)) && Char6(v) != Pad
  {
    Value6OfChar6(v);
  }

  /** Three bytes make four characters (the 24-bit groups of section 4 of
      RFC 4648). */
  function EncodeGroup(b0: Byte, b1: Byte, b2: Byte): string
  {
    [Char6(b0 >> 2), Char6(((b0 & 3) << 4) | (b1 >> 4)),
     Char6(((b1 & 15) << 2) | (b2 >> 6)), Char6(b2 & 63)]
  }

  /** The final quantum: one or two bytes, padded with "=" to four characters. */
  function EncodeTail(bs: seq<Byte>): string
    requires 1 <= |bs| <= 2
  {
    if |bs| == 1 then [Char6(bs[0] >> 2), Char6((bs[0] & 3) << 4), Pad, Pad]
    else [Char6(bs[0] >> 2), Char6(((bs[0] & 3) << 4) | (bs[1] >> 4)), Char6((bs[1] & 15) << 2), Pad]
  }

  /** base64.b64encode. */
  function Encode(bs: seq<Byte>): (s: string)
    ensures |s| == 4 * ((|bs| + 2) / 3)
    ensures |bs| > 0 ==> |s| >= 4
    decreases |bs|
  {
    if |bs| == 0 then []
    else if |bs| <= 2 then EncodeTail(bs)
    else EncodeGroup(bs[0], bs[1], bs[2]) + Encode(bs[3..])
  }

  /** Four characters without padding make three bytes. */
  function DecodeGroup(s: string): Option<seq<Byte>>
    requires |s| == 4
  {
    var v0, v1, v2, v3 := Value6(s[0]), Value6(s[1]), Value6(s[2]), Value6(s[3]);
    if v0.Some? && v1.Some? && v2.Some? && v3.Some? then
      Some([(v0.value << 2) | (v1.value >> 4),
            ((v1.value & 15) << 4) | (v2.value >> 2),
            ((v2.value & 3) << 6) | v3.value])
    else None
  }

  /** The last quantum may end in "==" (one byte) or "=" (two bytes); the
      bits beyond the data must be zero. */
  function DecodeLast(s: string): Option<seq<Byte>>
    requires |s| == 4
  {
    var v0, v1, v2 := Value6(s[0]), Value6(s[1]), Value6(s[2]);
    if s[2] == Pad && s[3] == Pad then
      if v0.Some? && v1.Some? && v1.value & 15 == 0
      then Some([(v0.value << 2) | (v1.value >> 4)])
      else None
    else if s[3] == Pad then
      if v0.Some? && v1.Some? && v2.Some? && v2.value & 3 == 0
      then Some([(v0.value << 2) | (v1.value >> 4), ((v1.value & 15) << 4) | (v2.value >> 2)])
      else None
    else DecodeGroup(s)
  }

  /** Decoding of a padded encoding; None for anything that is not one. */
  function Decode(s: string): Option<seq<Byte>>
    decreases |s|
  {
    if s == [] then Some([])
    else if |s| < 4 then None
    else if |s| == 4 then DecodeLast(s)
    else
      match DecodeGroup(s[..4])
      case None => None
      case Some(group) =>
        match Decode(s[4..])
        case None => None
        case Some(rest) => Some(group + rest)
  }

  lemma GroupRoundTrip(b0: Byte, b1: Byte, b2: Byte)
    ensures DecodeGroup(EncodeGroup(b0, b1, b2)) == Some([b0, b1, b2])
  {
    var s := EncodeGroup(b0, b1, b2);
    Value6OfChar6(b0 >> 2);
    Value6OfChar6(((b0 & 3) << 4) | (b1 >> 4));
    Value6OfChar6(((b1 & 15) << 2) | (b2 >> 6));
    Value6OfChar6(b2 & 63);
    assert ((b0 >> 2) << 2) | ((((b0 & 3) << 4) | (b1 >> 4)) >> 4) == b0;
    assert (((((b0 & 3) << 4) | (b1 >> 4)) & 15) << 4) | ((((b1 & 15) << 2) | (b2 >> 6)) >> 2) == b1;
    assert ((((((b1 & 15) << 2) | (b2 >> 6)) & 3) << 6) | (b2 & 63)) == b2;
  }

  lemma OneByteRoundTrip(b0: Byte)
    ensures DecodeLast(EncodeTail([b0])) == Some([b0])
  {
    OneByteChars(b0);
    OneByteBits(b0);
    DecodeLastTwoPads(EncodeTail([b0]), b0 >> 2, (b0 & 3) << 4);
  }

  /** The one-byte quantum, character by character. */
  lemma OneByteChars(b0: Byte)
    ensures var s := EncodeTail([b0]);
            |s| == 4 && s[2] == Pad && s[3] == Pad
            && Value6(s[0]) == Some(b0 >> 2) && Value6(s[1]) == Some((b0 & 3) << 4)
  {
    Value6OfChar6(b0 >> 2);
    Value6OfChar6((b0 & 3) << 4);
  }

  lemma OneByteBits(b0: Byte)
    ensures ((b0 & 3) << 4) & 15 == 0
    ensures ((b0 >> 2) << 2) | (((b0 & 3) << 4) >> 4) == b0
  {
  }

  /** DecodeLast on a quantum ending in two pads, given the values of its
      first two characters. */
  lemma DecodeLastTwoPads(s: string, v0: Byte, v1: Byte)
    requires |s| == 4 && s[2] == Pad && s[3] == Pad
    requires Value6(s[0]) == Some(v0) && Value6(s[1]) == Some(v1)
    requires v1 & 15 == 0
    ensures DecodeLast(s) == Some([(v0 << 2) | (v1 >> 4)])
  {
  }

  /** DecodeLast on a quantum whose only pad is the last character, given
      the values of its first three characters. */
  lemma DecodeLastOnePad(s: string, v0: Byte, v1: Byte, v2: Byte)
    requires |s| == 4 && s[2] != Pad && s[3] == Pad
    requires Value6(s[0]) == Some(v0) && Value6(s[1]) == Some(v1) && Value6(s[2]) == Some(v2)
    requires v2 & 3 == 0
    ensures DecodeLast(s) == Some([(v0 << 2) | (v1 >> 4), ((v1 & 15) << 4) | (v2 >> 2)])
  {
  }

  lemma TwoBytesRoundTrip(b0: Byte, b1: Byte)
    ensures DecodeLast(EncodeTail([b0, b1])) == Some([b0, b1])
  {
    var c0 := b0 >> 2;
    var c1 := ((b0 & 3) << 4) | (b1 >> 4);
    var c2 := (b1 & 15) << 2;
    TwoBytesChars(b0, b1);
    Char6IsEncodingChar(c2);
    TwoBytesBits(b0, b1);
    DecodeLastOnePad(EncodeTail([b0, b1]), c0, c1, c2);
  }

  /** The two-byte quantum, character by character. */
  lemma TwoBytesChars(b0: Byte, b1: Byte)
    ensures var c0, c1, c2 := b0 >> 2, ((b0 & 3) << 4) | (b1 >> 4), (b1 & 15) << 2;
            var s := EncodeTail([b0, b1]);
            |s| == 4 && s[2] == Char6(c2) && s[3] == Pad
            && Value6(s[0]) == Some(c0) && Value6(s[1]) == Some(c1) && Value6(s[2]) == Some(c2)
  {
    Value6OfChar6(b0 >> 2);
    Value6OfChar6(((b0 & 3) << 4) | (b1 >> 4));
    Value6OfChar6((b1 & 15) << 2);
  }

  lemma TwoBytesBits(b0: Byte, b1: Byte)
    ensures ((b1 & 15) << 2) & 3 == 0
    ensures ((b0 >> 2) << 2) | ((((b0 & 3) << 4) | (b1 >> 4)) >> 4) == b0
    ensures (((((b0 & 3) << 4) | (b1 >> 4)) & 15) << 4) | (((b1 & 15) << 2) >> 2) == b1
  {
  }

  /** Decoding undoes encoding: the payload of a data URI is recoverable bit
      for bit. */
  lemma {:induction false} DecodeEncode(bs: seq<Byte>)
    ensures Decode(Encode(bs)) == Some(bs)
    decreases |bs|
  {
    if 1 <= |bs| <= 3 {
      LastQuantumRoundTrip(bs);
    } else if |bs| > 3 {
      EncodeFirstGroup(bs);
      GroupRoundTrip(bs[0], bs[1], bs[2]);
      DecodeEncode(bs[3..]);
      DecodeGroupThen(EncodeGroup(bs[0], bs[1], bs[2]), Encode(bs[3..]));
      assert [bs[0], bs[1], bs[2]] + bs[3..] == bs;
    }
  }

  /** One to three bytes are a single quantum. */
  lemma LastQuantumRoundTrip(bs: seq<Byte>)
    requires 1 <= |bs| <= 3
    ensures Decode(Encode(bs)) == Some(bs)
  {
    if |bs| == 1 {
      OneByteDecode(bs);
    } else if |bs| == 2 {
      TwoBytesDecode(bs);
    } else {
      ThreeBytesDecode(bs);
    }
  }

  lemma OneByteDecode(bs: seq<Byte>)
    requires |bs| == 1
    ensures Decode(Encode(bs)) == Some(bs)
  {
    assert bs == [bs[0]];
    assert Encode(bs) == EncodeTail([bs[0]]);
    OneByteRoundTrip(bs[0]);
  }

  lemma TwoBytesDecode(bs: seq<Byte>)
    requires |bs| == 2
    ensures Decode(Encode(bs)) == Some(bs)
  {
    assert bs == [bs[0], bs[1]];
    assert Encode(bs) == EncodeTail([bs[0], bs[1]]);
    TwoBytesRoundTrip(bs[0], bs[1]);
  }

  lemma ThreeBytesDecode(bs: seq<Byte>)
    requires |bs| == 3
    ensures Decode(Encode(bs)) == Some(bs)
  {
    var g := EncodeGroup(bs[0], bs[1], bs[2]);
    EncodeFirstGroup(bs);
    assert bs[3..] == [];
    assert Encode(bs) == g + [];
    assert g + [] == g;
    LastFullGroup(bs[0], bs[1], bs[2]);
    assert bs == [bs[0], bs[1], bs[2]];
  }

  lemma EncodeFirstGroup(bs: seq<Byte>)
    requires |bs| >= 3
    ensures Encode(bs) == EncodeGroup(bs[0], bs[1], bs[2]) + Encode(bs[3..])
  {
  }

  /** A last quantum without padding decodes as a full group. */
  lemma LastFullGroup(b0: Byte, b1: Byte, b2: Byte)
    ensures Decode(EncodeGroup(b0, b1, b2)) == Some([b0, b1, b2])
  {
    var g := EncodeGroup(b0, b1, b2);
    GroupRoundTrip(b0, b1, b2);
    Char6IsEncodingChar(((b1 & 15) << 2) | (b2 >> 6));
    Char6IsEncodingChar(b2 & 63);
    assert DecodeLast(g) == DecodeGroup(g);
  }

  /** A leading unpadded group followed by a decodable remainder. */
  lemma DecodeGroupThen(g: string, rest: string)
    requires |g| == 4 && |rest| >= 4
    requires DecodeGroup(g).Some? && Decode(rest).Some?
    ensures Decode(g + rest) == Some(DecodeGroup(g).value + Decode(rest).value)
  {
    assert (g + rest)[..4] == g;
    assert (g + rest)[4..] == rest;
  }

  /** Every character of an encoding is from Table 1 or the pad. */
  lemma {:induction false} EncodeAlphabet(bs: seq<Byte>)
    ensures forall i :: 0 <= i < |Encode(bs)| ==> IsEncodingChar(Encode(bs)[i])
    decreases |bs|
  {
    if 1 <= |bs| <= 2 {
      TailAlphabet(bs);
    } else if |bs| > 2 {
      EncodeFirstGroup(bs);
      GroupAlphabet(bs[0], bs[1], bs[2]);
      EncodeAlphabet(bs[3..]);
      var g := EncodeGroup(bs[0], bs[1], bs[2]);
      var rest := Encode(bs[3..]);
      forall i | 0 <= i < |g + rest| ensures IsEncodingChar((g + rest)[i]) {
        if i >= 4 {
          assert (g + rest)[i] == rest[i - 4];
        }
      }
    }
  }

  lemma GroupAlphabet(b0: Byte, b1: Byte, b2: Byte)
    ensures forall i :: 0 <= i < 4 ==> IsEncodingChar(EncodeGroup(b0, b1, b2)[i])
  {
    Char6IsEncodingChar(b0 >> 2);
    Char6IsEncodingChar(((b0 & 3) << 4) | (b1 >> 4));
    Char6IsEncodingChar(((b1 & 15) << 2) | (b2 >> 6));
    Char6IsEncodingChar(b2 & 63);
  }

  lemma TailAlphabet(bs: seq<Byte>)
    requires 1 <= |bs| <= 2
    ensures forall i :: 0 <= i < |Encode(bs)| ==> IsEncodingChar(Encode(bs)[i])
  {
    assert Encode(bs) == EncodeTail(bs);
    Char6IsEncodingChar(bs[0] >> 2);
    if |bs| == 1 {
      Char6IsEncodingChar((bs[0] & 3) << 4);
    } else {
      Char6IsEncodingChar(((bs[0] & 3) << 4) | (bs[1] >> 4));
      Char6IsEncodingChar((bs[1] & 15) << 2);
    }
  }

  /** In particular an encoding never contains a comma. */
  lemma EncodeHasNoComma(bs: seq<Byte>)
    ensures ',' !in Encode(bs)
  {
    EncodeAlphabet(bs);
  }
}
