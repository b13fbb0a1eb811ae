/** base64.urlsafe_b64encode and base64.urlsafe_b64decode: the alphabet of
    section 5 of RFC 4648 ("base64url"), with '=' padding on encoding. The
    decoder is the non-strict loop of CPython's binascii.a2b_base64 after
    urlsafe_b64decode has mapped '-' to '+' and '_' to '/': bytes outside the
    alphabet are skipped, and a '=' ends the input once enough padding for
    the current quantum has been seen. */
module Base64 {
  import opened Wrappers
  import opened Utf8

  const Pad: char := '='

  /** The character for a six-bit value. */
  function Digit(i: nat): (c: char)
    requires i < 64
    ensures IsUrlSafe(c)
  {
    if i < 26 then ('A' as int + i) as char
    else if i < 52 then ('a' as int + (i - 26)) as char
    else if i < 62 then ('0' as int + (i - 52)) as char
    else if i == 62 then '-'
    else '_'
  }

  /** Letters, digits, '-' and '_'. */
  predicate IsUrlSafe(c: char) {
    'A' <= c <= 'Z' || 'a' <= c <= 'z' || '0' <= c <= '9' || c == '-' || c == '_'
  }

  /** The six-bit value of an input byte, 64 for a byte outside the alphabet.
      Both the URL-safe and the standard characters for 62 and 63 decode. */
  function Value(b: Byte): (v: nat)
    ensures v <= 64
  {
    if 'A' as int <= b <= 'Z' as int then b - 'A' as int
    else if 'a' as int <= b <= 'z' as int then b - 'a' as int + 26
    else if '0' as int <= b <= '9' as int then b - '0' as int + 52
    else if b == '-' as int || b == '+' as int then 62
    else if b == '_' as int || b == '/' as int then 63
    else 64
  }

  /** The byte of the character for a six-bit value. */
  function DigitByte(i: nat): Byte
    requires i < 64
  {
    Digit(i) as int
  }

  lemma ValueOfDigit(i: nat)
    requires i < 64
    ensures Digit(i) as int < 0x80 && Value(DigitByte(i)) == i
  {
  }

  /** Number of '=' characters at the end of the encoding of n bytes. */
  function PadLength(n: nat): nat {
    (3 - n % 3) % 3
  }

  /** The four characters for three bytes. */
  function EncodeGroup(b0: Byte, b1: Byte, b2: Byte): (r: string)
    ensures |r| == 4 && forall k :: 0 <= k < 4 ==> IsUrlSafe(r[k]) && r[k] != Pad
  {
    [Digit(b0 / 4), Digit(b0 % 4 * 16 + b1 / 16), Digit(b1 % 16 * 4 + b2 / 64), Digit(b2 % 64)]
  }

  /** The last group of one byte: two characters and two '='. */
  function EncodeTail1(b0: Byte): (r: string)
    ensures |r| == 4 && IsUrlSafe(r[0]) && IsUrlSafe(r[1]) && r[2] == Pad && r[3] == Pad
  {
    [Digit(b0 / 4), Digit(b0 % 4 * 16), Pad, Pad]
  }

  /** The last group of two bytes: three characters and one '='. */
  function EncodeTail2(b0: Byte, b1: Byte): (r: string)
    ensures |r| == 4 && IsUrlSafe(r[0]) && IsUrlSafe(r[1]) && IsUrlSafe(r[2]) && r[3] == Pad
  {
    [Digit(b0 / 4), Digit(b0 % 4 * 16 + b1 / 16), Digit(b1 % 16 * 4), Pad]
  }

  /** urlsafe_b64encode(bs), as text. */
  function Encode(bs: seq<Byte>): (r: string)
    ensures |r| == 4 * ((|bs| + 2) / 3)
    ensures forall k :: 0 <= k < |r| ==> IsUrlSafe(r[k]) || r[k] == Pad
    ensures forall k :: 0 <= k < |r| ==> (r[k] == Pad <==> k >= |r| - PadLength(|bs|))
    decreases |bs|
  {
    if |bs| == 0 then []
    else if |bs| == 1 then EncodeTail1(bs[0])
    else if |bs| == 2 then EncodeTail2(bs[0], bs[1])
    else
      var head := EncodeGroup(bs[0], bs[1], bs[2]);
      var tail := Encode(bs[3..]);
      GroupThenRest(head, tail, |bs|);
      head + tail
  }

  /** A full group followed by the encoding of the remaining n - 3 bytes has
      the shape of the encoding of n bytes. */
  lemma GroupThenRest(head: string, tail: string, n: nat)
    requires |head| == 4 && forall k :: 0 <= k < 4 ==> IsUrlSafe(head[k]) && head[k] != Pad
    requires n >= 3 && |tail| == 4 * ((n - 3 + 2) / 3)
    requires forall k :: 0 <= k < |tail| ==> IsUrlSafe(tail[k]) || tail[k] == Pad
    requires forall k :: 0 <= k < |tail| ==> (tail[k] == Pad <==> k >= |tail| - PadLength(n - 3))
    ensures |head + tail| == 4 * ((n + 2) / 3)
    ensures forall k :: 0 <= k < |head + tail| ==> IsUrlSafe((head + tail)[k]) || (head + tail)[k] == Pad
    ensures forall k :: 0 <= k < |head + tail| ==> ((head + tail)[k] == Pad <==> k >= |head + tail| - PadLength(n))
  {
    assert PadLength(n) == PadLength(n - 3);
    assert forall k :: 4 <= k < |head + tail| ==> (head + tail)[k] == tail[k - 4];
  }

  /** The encoding never holds '+' or '/', and it ends in padding exactly
      when the byte count is not a multiple of three. */
  lemma EncodePadding(bs: seq<Byte>)
    ensures PadLength(|bs|) <= 2
    ensures '+' !in Encode(bs) && '/' !in Encode(bs)
    ensures Pad in Encode(bs) <==> |bs| % 3 != 0
  {
    var r := Encode(bs);
    var n := |bs|;
    PadLengthBounds(n);
    forall k | 0 <= k < |r|
      ensures r[k] != '+' && r[k] != '/'
    {
      assert IsUrlSafe(r[k]) || r[k] == Pad;
    }
    if n % 3 != 0 {
      assert r[|r| - 1] == Pad;
    } else {
      forall k | 0 <= k < |r|
        ensures r[k] != Pad
      {
        assert r[k] == Pad <==> k >= |r| - PadLength(n);
      }
    }
  }

  lemma PadLengthBounds(n: nat)
    ensures PadLength(n) <= 2
    ensures PadLength(n) == 0 <==> n % 3 == 0
    ensures n % 3 != 0 ==> 4 * ((n + 2) / 3) >= 4
  {
  }

  datatype DecodeError =
    | OneExtraCharacter   // "number of data characters cannot be 1 more than a multiple of 4"
    | IncorrectPadding

  /** The decoding loop. `quadPos` is the position within the current group
      of four characters, `left` the bits carried over from the previous
      character, `pads` the '=' characters counted since the last data
      character (a data character resets it; a byte outside the alphabet
      leaves it as it is). */
  function Scan(input: seq<Byte>, quadPos: nat, left: nat, pads: nat, out: seq<Byte>): Result<seq<Byte>, DecodeError>
    requires quadPos < 4
    requires quadPos == 0 ==> left == 0
    requires quadPos == 1 ==> left < 64
    requires quadPos == 2 ==> left < 16
    requires quadPos == 3 ==> left < 4
    decreases |input|
  {
    if input == [] then
      if quadPos == 0 then Ok(out)
      else if quadPos == 1 then Err(OneExtraCharacter)
      else Err(IncorrectPadding)
    else
      var b := input[0];
      if b == Pad as int then
        if quadPos >= 2 && quadPos + pads + 1 >= 4 then Ok(out)
        else Scan(input[1..], quadPos, left, if quadPos >= 2 then pads + 1 else pads, out)
      else
        var v := Value(b);
        if v == 64 then Scan(input[1..], quadPos, left, pads, out)
        else if quadPos == 0 then Scan(input[1..], 1, v, 0, out)
        else if quadPos == 1 then Scan(input[1..], 2, v % 16, 0, out + [left * 4 + v / 16])
        else if quadPos == 2 then Scan(input[1..], 3, v % 4, 0, out + [left * 16 + v / 4])
        else Scan(input[1..], 0, 0, 0, out + [left * 64 + v])
  }

  /** urlsafe_b64decode(input): the bytes, or the binascii.Error raised. */
  function Decode(input: seq<Byte>): Result<seq<Byte>, DecodeError> {
    Scan(input, 0, 0, 0, [])
  }

  /** Padding counts only when the '=' characters are adjacent: in "QU=ExQQ="
      the first '=' is followed by data, so the final one alone does not
      complete the second group's padding. */
  lemma SeparatedPadsIncomplete()
    ensures Decode([81, 85, 61, 69, 120, 81, 81, 61]) == Err(IncorrectPadding)
  {
  }

  /** One data byte at each position of a group: position 0 keeps all six
      bits, positions 1 to 3 complete a byte and carry the remaining bits. */
  lemma Scan0(x: Byte, rest: seq<Byte>, pads: nat, out: seq<Byte>, v: nat)
    requires Value(x) == v < 64
    ensures Scan([x] + rest, 0, 0, pads, out) == Scan(rest, 1, v, 0, out)
  {
    assert ([x] + rest)[1..] == rest;
  }

  lemma Scan1(x: Byte, rest: seq<Byte>, left: nat, pads: nat, out: seq<Byte>, carry: nat, b: Byte)
    requires Value(x) < 64 && left < 64
    requires carry == Value(x) % 16 && b == left * 4 + Value(x) / 16
    ensures Scan([x] + rest, 1, left, pads, out) == Scan(rest, 2, carry, 0, out + [b])
  {
    assert ([x] + rest)[1..] == rest;
  }

  lemma Scan2(x: Byte, rest: seq<Byte>, left: nat, pads: nat, out: seq<Byte>, carry: nat, b: Byte)
    requires Value(x) < 64 && left < 16
    requires carry == Value(x) % 4 && b == left * 16 + Value(x) / 4
    ensures Scan([x] + rest, 2, left, pads, out) == Scan(rest, 3, carry, 0, out + [b])
  {
    assert ([x] + rest)[1..] == rest;
  }

  lemma Scan3(x: Byte, rest: seq<Byte>, left: nat, pads: nat, out: seq<Byte>, b: Byte)
    requires Value(x) < 64 && left < 4
    requires b == left * 64 + Value(x)
    ensures Scan([x] + rest, 3, left, pads, out) == Scan(rest, 0, 0, 0, out + [b])
  {
    assert ([x] + rest)[1..] == rest;
  }

  /** The byte sequence of four ASCII characters followed by more text. */
  lemma EncodeQuad(g: string, rest: string)
    requires |g| == 4 && forall k :: 0 <= k < 4 ==> g[k] as int < 0x80
    ensures Utf8.Encode(g + rest) == [g[0] as int, g[1] as int, g[2] as int, g[3] as int] + Utf8.Encode(rest)
  {
    var s3 := [g[3]] + rest;
    var s2 := [g[2]] + s3;
    var s1 := [g[1]] + s2;
    var s0 := [g[0]] + s1;
    EncodeAsciiCons(g[3], rest);
    EncodeAsciiCons(g[2], s3);
    EncodeAsciiCons(g[1], s2);
    EncodeAsciiCons(g[0], s1);
    assert g + rest == s0;
  }

  /** The bit arithmetic of one group: the decoder's shifts undo the encoder's. */
  lemma GroupArith(b0: Byte, b1: Byte, b2: Byte, c0: nat, c1: nat, c2: nat, c3: nat)
    requires c0 == b0 / 4 && c1 == b0 % 4 * 16 + b1 / 16 && c2 == b1 % 16 * 4 + b2 / 64 && c3 == b2 % 64
    ensures c0 < 64 && c1 < 64 && c2 < 64 && c3 < 64
    ensures c1 % 16 == b1 / 16 && b0 == c0 * 4 + c1 / 16
    ensures c2 % 4 == b2 / 64 && b1 == b1 / 16 * 16 + c2 / 4
    ensures b2 == b2 / 64 * 64 + c3
  {
  }

  /** The bytes of the text of one group, followed by more text. */
  lemma GroupBytes(b0: Byte, b1: Byte, b2: Byte, c0: nat, c1: nat, c2: nat, c3: nat, rest: string)
    requires c0 == b0 / 4 && c1 == b0 % 4 * 16 + b1 / 16 && c2 == b1 % 16 * 4 + b2 / 64 && c3 == b2 % 64
    requires c0 < 64 && c1 < 64 && c2 < 64 && c3 < 64
    ensures Utf8.Encode(EncodeGroup(b0, b1, b2) + rest)
         == [DigitByte(c0)] + ([DigitByte(c1)] + ([DigitByte(c2)] + ([DigitByte(c3)] + Utf8.Encode(rest))))
  {
    var g := EncodeGroup(b0, b1, b2);
    ValueOfDigit(c0); ValueOfDigit(c1); ValueOfDigit(c2); ValueOfDigit(c3);
    EncodeQuad(g, rest);
  }

  /** A full group of four characters decodes to its three bytes. */
  lemma ScanGroup(b0: Byte, b1: Byte, b2: Byte, rest: string, out: seq<Byte>)
    ensures Scan(Utf8.Encode(EncodeGroup(b0, b1, b2) + rest), 0, 0, 0, out)
         == Scan(Utf8.Encode(rest), 0, 0, 0, out + [b0, b1, b2])
  {
    var c0, c1, c2, c3 := b0 / 4, b0 % 4 * 16 + b1 / 16, b1 % 16 * 4 + b2 / 64, b2 % 64;
    GroupArith(b0, b1, b2, c0, c1, c2, c3);
    GroupBytes(b0, b1, b2, c0, c1, c2, c3, rest);
    ValueOfDigit(c0); ValueOfDigit(c1); ValueOfDigit(c2); ValueOfDigit(c3);
    var r := Utf8.Encode(rest);
    var x0, x1, x2, x3 := DigitByte(c0), DigitByte(c1), DigitByte(c2), DigitByte(c3);
    Scan0(x0, [x1] + ([x2] + ([x3] + r)), 0, out, c0);
    Scan1(x1, [x2] + ([x3] + r), c0, 0, out, b1 / 16, b0);
    Scan2(x2, [x3] + r, b1 / 16, 0, out + [b0], b2 / 64, b1);
    Scan3(x3, r, b2 / 64, 0, out + [b0] + [b1], b2);
    assert out + [b0] + [b1] + [b2] == out + [b0, b1, b2];
  }

  /** A final group of one byte: two characters and two '='. */
  lemma ScanTail1(b0: Byte, out: seq<Byte>)
    ensures Scan(Utf8.Encode(Encode([b0])), 0, 0, 0, out) == Ok(out + [b0])
  {
    var c0, c1 := b0 / 4, b0 % 4 * 16;
    GroupArith(b0, 0, 0, c0, c1, 0, 0);
    ValueOfDigit(c0); ValueOfDigit(c1);
    var e := Encode([b0]);
    EncodeQuad(e, []);
    assert e + [] == e;
    var pad: Byte := Pad as int;
    var x0, x1 := DigitByte(c0), DigitByte(c1);
    assert Utf8.Encode(e) == [x0] + ([x1] + [pad, pad]);
    Scan0(x0, [x1] + [pad, pad], 0, out, c0);
    Scan1(x1, [pad, pad], c0, 0, out, 0, b0);
    assert [pad, pad][1..] == [pad];
  }

  /** The bytes of the encoding of two bytes: three digits and one '='. */
  lemma Tail2Bytes(b0: Byte, b1: Byte)
    ensures b0 / 4 < 64 && b0 % 4 * 16 + b1 / 16 < 64 && b1 % 16 * 4 < 64
    ensures Utf8.Encode(Encode([b0, b1]))
         == [DigitByte(b0 / 4)] + ([DigitByte(b0 % 4 * 16 + b1 / 16)] + ([DigitByte(b1 % 16 * 4)] + [Pad as int]))
  {
    var c0, c1, c2 := b0 / 4, b0 % 4 * 16 + b1 / 16, b1 % 16 * 4;
    GroupArith(b0, b1, 0, c0, c1, c2, 0);
    ValueOfDigit(c0); ValueOfDigit(c1); ValueOfDigit(c2);
    var e := Encode([b0, b1]);
    assert e == [Digit(c0), Digit(c1), Digit(c2), Pad];
    EncodeQuad(e, []);
    assert e + [] == e;
    assert Utf8.Encode(e) == [DigitByte(c0), DigitByte(c1), DigitByte(c2), Pad as int] + [];
  }

  /** A final group of two bytes: three characters and one '='. */
  lemma ScanTail2(b0: Byte, b1: Byte, out: seq<Byte>)
    ensures Scan(Utf8.Encode(Encode([b0, b1])), 0, 0, 0, out) == Ok(out + [b0, b1])
  {
    var c0, c1, c2 := b0 / 4, b0 % 4 * 16 + b1 / 16, b1 % 16 * 4;
    GroupArith(b0, b1, 0, c0, c1, c2, 0);
    ValueOfDigit(c0); ValueOfDigit(c1); ValueOfDigit(c2);
    Tail2Bytes(b0, b1);
    var pad: Byte := Pad as int;
    var x0, x1, x2 := DigitByte(c0), DigitByte(c1), DigitByte(c2);
    Scan0(x0, [x1] + ([x2] + [pad]), 0, out, c0);
    Scan1(x1, [x2] + [pad], c0, 0, out, b1 / 16, b0);
    Scan2(x2, [pad], b1 / 16, 0, out + [b0], 0, b1);
    assert Scan([pad], 3, 0, 0, out + [b0] + [b1]) == Ok(out + [b0] + [b1]);
    assert out + [b0] + [b1] == out + [b0, b1];
  }

  /** Zero, one or two bytes: no group, or a final padded group. */
  lemma DecodeEncodeShort(bs: seq<Byte>, out: seq<Byte>)
    requires |bs| < 3
    ensures Scan(Utf8.Encode(Encode(bs)), 0, 0, 0, out) == Ok(out + bs)
  {
    if |bs| == 0 {
      assert out + bs == out;
    } else if |bs| == 1 {
      assert bs == [bs[0]];
      ScanTail1(bs[0], out);
    } else {
      assert bs == [bs[0], bs[1]];
      ScanTail2(bs[0], bs[1], out);
    }
  }

  lemma EncodeUnfold(bs: seq<Byte>)
    requires |bs| >= 3
    ensures Encode(bs) == EncodeGroup(bs[0], bs[1], bs[2]) + Encode(bs[3..])
  {
  }

  /** The first group of an encoding of three or more bytes. */
  lemma ScanFirstGroup(bs: seq<Byte>, out: seq<Byte>)
    requires |bs| >= 3
    ensures Scan(Utf8.Encode(Encode(bs)), 0, 0, 0, out) == Scan(Utf8.Encode(Encode(bs[3..])), 0, 0, 0, out + bs[..3])
  {
    EncodeUnfold(bs);
    ScanGroup(bs[0], bs[1], bs[2], Encode(bs[3..]), out);
    assert bs[..3] == [bs[0], bs[1], bs[2]];
  }

  /** Decoding the text of an encoding gives the bytes back. */
  lemma {:induction false} DecodeEncodeFrom(bs: seq<Byte>, out: seq<Byte>)
    ensures Scan(Utf8.Encode(Encode(bs)), 0, 0, 0, out) == Ok(out + bs)
    decreases |bs|
  {
    if |bs| < 3 {
      DecodeEncodeShort(bs, out);
    } else {
      ScanFirstGroup(bs, out);
      DecodeEncodeFrom(bs[3..], out + bs[..3]);
      assert out + bs[..3] + bs[3..] == out + bs;
    }
  }

  lemma DecodeEncode(bs: seq<Byte>)
    ensures Decode(Utf8.Encode(Encode(bs))) == Ok(bs)
  {
    DecodeEncodeFrom(bs, []);
    assert [] + bs == bs;
  }
}
