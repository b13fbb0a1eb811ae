/** helper.py: str_to_b64 and b64_to_str, the text-level base64url codec
    the access tokens are built with. get_current_time is the clock; the
    model passes the current time in as a parameter wherever it is read. */
module Helper {
  import opened Wrappers
  import Utf8
  import Base64

  /** str_to_b64(s): the base64url text of the UTF-8 bytes of `s`. */
  function StrToB64(s: string): (r: string)
    ensures |r| == 4 * ((|Utf8.Encode(s)| + 2) / 3)
    ensures forall k :: 0 <= k < |r| ==> Base64.IsUrlSafe(r[k]) || r[k] == '='
    ensures '+' !in r && '/' !in r
    ensures forall k :: 0 <= k < |r| ==> (r[k] == '=' <==> k >= |r| - Base64.PadLength(|Utf8.Encode(s)|))
    ensures '=' in r <==> |Utf8.Encode(s)| % 3 != 0
    ensures s == [] <==> r == []
  {
    var bs := Utf8.Encode(s);
    assert bs == [] <==> s == [];
    assert bs != [] ==> (|bs| + 2) / 3 >= 1;
    Base64.EncodePadding(bs);
    Base64.Encode(bs)
  }

  datatype DecodeError =
    | Binascii(reason: Base64.DecodeError)   // binascii.Error from the base64 layer
    | UnicodeDecode                          // the bytes are not UTF-8

  /** b64_to_str(t): the text whose UTF-8 bytes the base64 text `t` stands
      for, or the exception Python raises. */
  function B64ToStr(t: string): (r: Result<string, DecodeError>)
    ensures Base64.Decode(Utf8.Encode(t)).Err? ==> r == Err(Binascii(Base64.Decode(Utf8.Encode(t)).error))
    ensures Base64.Decode(Utf8.Encode(t)).Ok? && Utf8.Decode(Base64.Decode(Utf8.Encode(t)).value).None?
      ==> r == Err(UnicodeDecode)
    ensures r.Ok? <==> Base64.Decode(Utf8.Encode(t)).Ok? && Utf8.Decode(Base64.Decode(Utf8.Encode(t)).value).Some?
    ensures r.Ok? ==> Base64.Decode(Utf8.Encode(t)) == Ok(Utf8.Encode(r.value))
  {
    match Base64.Decode(Utf8.Encode(t))
    case Err(e) => Err(Binascii(e))
    case Ok(bs) =>
      match Utf8.Decode(bs)
      case None => Err(UnicodeDecode)
      case Some(s) => Utf8.EncodeDecode(bs); Ok(s)
  }

  /** b64_to_str(str_to_b64(s)) == s for every string. */
  lemma RoundTrip(s: string)
    ensures B64ToStr(StrToB64(s)) == Ok(s)
  {
    Base64.DecodeEncode(Utf8.Encode(s));
    Utf8.DecodeEncode(s);
  }

  /** Distinct strings have distinct encodings. */
  lemma StrToB64Injective(a: string, b: string)
    requires StrToB64(a) == StrToB64(b)
    ensures a == b
  {
    RoundTrip(a);
    RoundTrip(b);
  }
}
