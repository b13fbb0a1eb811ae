/** UTF-8, as Python's str.encode() and bytes.decode() use it by default:
    encoding never fails on a Dafny string (whose characters are Unicode
    scalar values), and the decoder is strict: truncated sequences, stray
    continuation bytes, overlong forms, surrogates and code points above
    U+10FFFF are errors. */
module Utf8 {
  import opened Wrappers

  type Byte = b: int | 0 <= b < 256

  /** The one to four bytes of a single character. */
  function EncodeChar(c: char): (r: seq<Byte>)
    ensures 1 <= |r| <= 4
    ensures (|r| == 1) == (c as int < 0x80)
  {
    var n := c as int;
    if n < 0x80 then [n]
    else if n < 0x800 then [0xC0 + n / 64, 0x80 + n % 64]
    else if n < 0x10000 then [0xE0 + n / 4096, 0x80 + n / 64 % 64, 0x80 + n % 64]
    else [0xF0 + n / 0x40000, 0x80 + n / 4096 % 64, 0x80 + n / 64 % 64, 0x80 + n % 64]
  }

  /** s.encode(): the characters' byte sequences, in order. */
  function Encode(s: string): (r: seq<Byte>)
    ensures |r| >= |s|
  {
    if s == [] then [] else EncodeChar(s[0]) + Encode(s[1..])
  }

  predicate IsContinuation(b: Byte) {
    0x80 <= b < 0xC0
  }

  /** The character at the start of `bs` and the number of bytes it takes,
      or None when the leading bytes are not a well-formed UTF-8 sequence. */
  function DecodeFirst(bs: seq<Byte>): (r: Option<(char, nat)>)
    requires bs != []
    ensures r.Some? ==> 1 <= r.value.1 <= |bs|
  {
    var b0: int := bs[0];
    if b0 < 0x80 then Some((b0 as char, 1))
    else if 0xC2 <= b0 < 0xE0 then
      if |bs| >= 2 && IsContinuation(bs[1]) then Some((Join2(b0, bs[1]) as char, 2))
      else None
    else if 0xE0 <= b0 < 0xF0 then
      if |bs| >= 3 && IsContinuation(bs[1]) && IsContinuation(bs[2]) then
        var n := Join3(b0, bs[1], bs[2]);
        if n < 0x800 || 0xD800 <= n < 0xE000 then None else Some((n as char, 3))
      else None
    else if 0xF0 <= b0 < 0xF5 then
      if |bs| >= 4 && IsContinuation(bs[1]) && IsContinuation(bs[2]) && IsContinuation(bs[3]) then
        var n := Join4(b0, bs[1], bs[2], bs[3]);
        if n < 0x10000 || n > 0x10FFFF then None else Some((n as char, 4))
      else None
    else None
  }

  /** The code point carried by a two-, three- or four-byte sequence: the
      payload bits of the lead byte followed by six bits per continuation. */
  function Join2(b0: int, b1: int): (n: int)
    requires 0xC2 <= b0 < 0xE0 && 0x80 <= b1 < 0xC0
    ensures 0x80 <= n < 0x800
  {
    (b0 - 0xC0) * 64 + (b1 - 0x80)
  }

  function Join3(b0: int, b1: int, b2: int): (n: int)
    requires 0xE0 <= b0 < 0xF0 && 0x80 <= b1 < 0xC0 && 0x80 <= b2 < 0xC0
    ensures 0 <= n < 0x10000
  {
    (b0 - 0xE0) * 4096 + (b1 - 0x80) * 64 + (b2 - 0x80)
  }

  function Join4(b0: int, b1: int, b2: int, b3: int): (n: int)
    requires 0xF0 <= b0 < 0xF5 && 0x80 <= b1 < 0xC0 && 0x80 <= b2 < 0xC0 && 0x80 <= b3 < 0xC0
    ensures 0 <= n < 0x140000
  {
    (b0 - 0xF0) * 0x40000 + (b1 - 0x80) * 4096 + (b2 - 0x80) * 64 + (b3 - 0x80)
  }

  /** bytes.decode(): the string, or None where Python raises
      UnicodeDecodeError. */
  function Decode(bs: seq<Byte>): Option<string>
    decreases |bs|
  {
    if bs == [] then Some([])
    else match DecodeFirst(bs)
      case None => None
      case Some((c, w)) =>
        match Decode(bs[w..])
        case None => None
        case Some(rest) => Some([c] + rest)
  }

  /** Splitting n into six-bit digits and joining them again gives n. */
  lemma SixBitDigits(n: nat)
    ensures n == n / 64 * 64 + n % 64
    ensures n / 64 == n / 4096 * 64 + n / 64 % 64
    ensures n / 4096 == n / 0x40000 * 64 + n / 4096 % 64
  {
  }

  lemma DecodeFirstOfEncodeChar(c: char, rest: seq<Byte>)
    ensures DecodeFirst(EncodeChar(c) + rest) == Some((c, |EncodeChar(c)|))
  {
    var n := c as int;
    var bs := EncodeChar(c) + rest;
    SixBitDigits(n);
    if n < 0x80 {
    } else if n < 0x800 {
      assert bs[0] == 0xC0 + n / 64 && bs[1] == 0x80 + n % 64;
      assert Join2(bs[0], bs[1]) == n;
    } else if n < 0x10000 {
      assert bs[0] == 0xE0 + n / 4096 && bs[1] == 0x80 + n / 64 % 64 && bs[2] == 0x80 + n % 64;
      assert Join3(bs[0], bs[1], bs[2]) == n;
    } else {
      assert bs[0] == 0xF0 + n / 0x40000 && bs[1] == 0x80 + n / 4096 % 64;
      assert bs[2] == 0x80 + n / 64 % 64 && bs[3] == 0x80 + n % 64;
      assert Join4(bs[0], bs[1], bs[2], bs[3]) == n;
    }
  }

  /** Decoding an encoding gives the string back. */
  lemma {:induction false} DecodeEncode(s: string)
    ensures Decode(Encode(s)) == Some(s)
  {
    if s != [] {
      var e := EncodeChar(s[0]);
      var bs := e + Encode(s[1..]);
      assert Encode(s) == bs;
      DecodeFirstOfEncodeChar(s[0], Encode(s[1..]));
      assert bs[|e|..] == Encode(s[1..]);
      DecodeEncode(s[1..]);
      assert DecodeFirst(bs).Some? && DecodeFirst(bs).value.0 == s[0] && DecodeFirst(bs).value.1 == |e|;
      assert Decode(bs) == Some([s[0]] + s[1..]);
      assert [s[0]] + s[1..] == s;
    }
  }

  lemma EncodeCharOfDecodeFirst(bs: seq<Byte>)
    requires bs != [] && DecodeFirst(bs).Some?
    ensures EncodeChar(DecodeFirst(bs).value.0) == bs[..DecodeFirst(bs).value.1]
  {
    var b0: int := bs[0];
    if 0xC2 <= b0 < 0xE0 {
      EncodeJoin2(bs[0], bs[1]);
      assert bs[..2] == [bs[0], bs[1]];
    } else if 0xE0 <= b0 < 0xF0 {
      EncodeJoin3(bs[0], bs[1], bs[2]);
      assert bs[..3] == [bs[0], bs[1], bs[2]];
    } else if 0xF0 <= b0 < 0xF5 {
      EncodeJoin4(bs[0], bs[1], bs[2], bs[3]);
      assert bs[..4] == [bs[0], bs[1], bs[2], bs[3]];
    }
  }

  /** Re-encoding the code point of a well-formed two-, three- or four-byte
      sequence gives back those bytes. */
  lemma EncodeJoin2(b0: Byte, b1: Byte)
    requires 0xC2 <= b0 < 0xE0 && IsContinuation(b1)
    ensures EncodeChar(Join2(b0, b1) as char) == [b0, b1]
  {
    var n := Join2(b0, b1);
    assert n / 64 == b0 - 0xC0 && n % 64 == b1 - 0x80;
  }

  lemma EncodeJoin3(b0: Byte, b1: Byte, b2: Byte)
    requires 0xE0 <= b0 < 0xF0 && IsContinuation(b1) && IsContinuation(b2)
    requires var n := Join3(b0, b1, b2); 0x800 <= n && !(0xD800 <= n < 0xE000)
    ensures EncodeChar(Join3(b0, b1, b2) as char) == [b0, b1, b2]
  {
    var n := Join3(b0, b1, b2);
    assert n / 64 == (b0 - 0xE0) * 64 + (b1 - 0x80) && n % 64 == b2 - 0x80;
    assert n / 4096 == b0 - 0xE0 && n / 64 % 64 == b1 - 0x80;
  }

  lemma EncodeJoin4(b0: Byte, b1: Byte, b2: Byte, b3: Byte)
    requires 0xF0 <= b0 < 0xF5 && IsContinuation(b1) && IsContinuation(b2) && IsContinuation(b3)
    requires var n := Join4(b0, b1, b2, b3); 0x10000 <= n <= 0x10FFFF
    ensures EncodeChar(Join4(b0, b1, b2, b3) as char) == [b0, b1, b2, b3]
  {
    var n := Join4(b0, b1, b2, b3);
    assert n / 64 == (b0 - 0xF0) * 4096 + (b1 - 0x80) * 64 + (b2 - 0x80) && n % 64 == b3 - 0x80;
    assert n / 4096 == (b0 - 0xF0) * 64 + (b1 - 0x80) && n / 64 % 64 == b2 - 0x80;
    assert n / 0x40000 == b0 - 0xF0 && n / 4096 % 64 == b1 - 0x80;
  }

  /** The decoder accepts only what the encoder produces: a successful decode
      re-encodes to exactly the bytes it was given. */
  lemma {:induction false} EncodeDecode(bs: seq<Byte>)
    requires Decode(bs).Some?
    ensures Encode(Decode(bs).value) == bs
  {
    EncodeOfDecoded(bs, Decode(bs).value);
  }

  lemma {:induction false} EncodeOfDecoded(bs: seq<Byte>, s: string)
    requires Decode(bs) == Some(s)
    ensures Encode(s) == bs
    decreases |bs|
  {
    if bs != [] {
      var w, rest := EncodeFirstDecoded(bs, s);
      EncodeOfDecoded(bs[w..], rest);
    }
  }

  /** One step of EncodeDecode: the re-encoding of a decoded input starts
      with exactly the bytes of its first character. */
  lemma EncodeFirstDecoded(bs: seq<Byte>, s: string) returns (w: nat, rest: string)
    requires bs != [] && Decode(bs) == Some(s)
    ensures 1 <= w <= |bs| && Decode(bs[w..]) == Some(rest)
    ensures Encode(s) == bs[..w] + Encode(rest) && bs == bs[..w] + bs[w..]
  {
    var c;
    c, w, rest := DecodeStep(bs);
    EncodeCharOfDecodeFirst(bs);
    assert s[0] == c && s[1..] == rest;
  }

  /** A successful decode of a non-empty input: its first character, the
      bytes that character takes, and the decode of what follows. */
  lemma DecodeStep(bs: seq<Byte>) returns (c: char, w: nat, rest: string)
    requires bs != [] && Decode(bs).Some?
    ensures DecodeFirst(bs) == Some((c, w)) && 1 <= w <= |bs|
    ensures Decode(bs[w..]) == Some(rest) && Decode(bs).value == [c] + rest
  {
    c, w := DecodeFirst(bs).value.0, DecodeFirst(bs).value.1;
    rest := Decode(bs[w..]).value;
  }

  lemma {:induction false} EncodeAppend(a: string, b: string)
    ensures Encode(a + b) == Encode(a) + Encode(b)
  {
    if a != [] {
      assert (a + b)[0] == a[0] && (a + b)[1..] == a[1..] + b;
      EncodeAppend(a[1..], b);
      calc {
        Encode(a + b);
        EncodeChar(a[0]) + Encode(a[1..] + b);
        EncodeChar(a[0]) + (Encode(a[1..]) + Encode(b));
        (EncodeChar(a[0]) + Encode(a[1..])) + Encode(b);
      }
    } else {
      assert a + b == b;
    }
  }

  /** A character below U+0080 is its own single byte. */
  lemma EncodeAsciiCons(c: char, rest: string)
    requires c as int < 0x80
    ensures Encode([c] + rest) == [c as int] + Encode(rest)
  {
    assert ([c] + rest)[1..] == rest;
  }
}
