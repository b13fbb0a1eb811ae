/** The Python string built-ins the bot relies on: str.isspace, str.strip,
    str.split, str.join, str.replace (with an empty replacement), the `in`
    substring test, str(int) and int(str). */
module PyText {
  import opened Wrappers

  /** str.isspace for a single character. */
  predicate IsSpace(c: char) {
    || ('\U{9}' <= c <= '\U{D}')
    || ('\U{1C}' <= c <= '\U{20}')
    || c == '\U{85}' || c == '\U{A0}' || c == '\U{1680}'
    || ('\U{2000}' <= c <= '\U{200A}')
    || c == '\U{2028}' || c == '\U{2029}' || c == '\U{202F}'
    || c == '\U{205F}' || c == '\U{3000}'
  }

  /** The whitespace int() skips around a number: the ASCII characters 9 to
      13 and the space, and every non-ASCII character str.isspace accepts.
      The ASCII separators 0x1C to 0x1F count for str.isspace but not here. */
  predicate IsIntSpace(c: char) {
    IsSpace(c) && !IsSeparator(c)
  }

  /** The ASCII file, group, record and unit separators. */
  predicate IsSeparator(c: char) {
    '\U{1C}' <= c <= '\U{1F}'
  }

  /** Number of characters satisfying `space` at the start of `s`. */
  function LeadingSpace(s: string, space: char -> bool): (n: nat)
    ensures n <= |s|
    ensures forall k :: 0 <= k < n ==> space(s[k])
    ensures n < |s| ==> !space(s[n])
  {
    if s == [] || !space(s[0]) then 0 else 1 + LeadingSpace(s[1..], space)
  }

  /** Number of characters satisfying `space` at the end of `s`. */
  function TrailingSpace(s: string, space: char -> bool): (n: nat)
    ensures n <= |s|
    ensures forall k :: |s| - n <= k < |s| ==> space(s[k])
    ensures n < |s| ==> !space(s[|s| - n - 1])
  {
    if s == [] || !space(s[|s| - 1]) then 0 else 1 + TrailingSpace(s[..|s| - 1], space)
  }

  /** `s` without the characters satisfying `space` at either end. */
  function Trim(s: string, space: char -> bool): (r: string)
    ensures LeadingSpace(s, space) + |r| <= |s|
    ensures r == s[LeadingSpace(s, space)..LeadingSpace(s, space) + |r|]
    ensures forall k :: LeadingSpace(s, space) + |r| <= k < |s| ==> space(s[k])
    ensures r != [] ==> !space(r[0]) && !space(r[|r| - 1])
  {
    var t := s[LeadingSpace(s, space)..];
    t[..|t| - TrailingSpace(t, space)]
  }

  /** str.strip() with no argument. */
  function Strip(s: string): (r: string)
    ensures LeadingSpace(s, IsSpace) + |r| <= |s|
    ensures r == s[LeadingSpace(s, IsSpace)..LeadingSpace(s, IsSpace) + |r|]
    ensures forall k :: 0 <= k < LeadingSpace(s, IsSpace) ==> IsSpace(s[k])
    ensures forall k :: LeadingSpace(s, IsSpace) + |r| <= k < |s| ==> IsSpace(s[k])
    ensures r != [] ==> !IsSpace(r[0]) && !IsSpace(r[|r| - 1])
  {
    Trim(s, IsSpace)
  }

  /** A string is blank when str.strip() leaves nothing of it. */
  predicate IsBlank(s: string) {
    Strip(s) == []
  }

  lemma StripBlank(s: string)
    ensures IsBlank(s) <==> forall k :: 0 <= k < |s| ==> IsSpace(s[k])
  {
    if !IsBlank(s) {
      var r := Strip(s);
      assert r[0] == s[LeadingSpace(s, IsSpace)];
    }
  }

  /** Nothing to trim when neither end is whitespace. */
  lemma TrimUnpadded(s: string, space: char -> bool)
    requires s != [] && !space(s[0]) && !space(s[|s| - 1])
    ensures Trim(s, space) == s
  {
  }

  /** Index of the first occurrence of `sep` in `s`. */
  function IndexOf(s: string, sep: char): (i: nat)
    requires sep in s
    ensures i < |s| && s[i] == sep && sep !in s[..i]
  {
    if s[0] == sep then 0 else 1 + IndexOf(s[1..], sep)
  }

  /** s.split(sep) for a one-character separator: always one more piece than
      there are separators, empty pieces included. */
  function Split(s: string, sep: char): (parts: seq<string>)
    ensures |parts| >= 1
    ensures forall k :: 0 <= k < |parts| ==> sep !in parts[k]
    decreases |s|
  {
    if sep !in s then [s]
    else
      var i := IndexOf(s, sep);
      [s[..i]] + Split(s[i + 1..], sep)
  }

  /** sep.join(parts) for a one-character separator. */
  function Join(parts: seq<string>, sep: char): string {
    if parts == [] then []
    else if |parts| == 1 then parts[0]
    else parts[0] + [sep] + Join(parts[1..], sep)
  }

  /** Joining the pieces of a split gives the string back. */
  lemma {:induction false} JoinSplit(s: string, sep: char)
    ensures Join(Split(s, sep), sep) == s
    decreases |s|
  {
    if sep in s {
      var i := IndexOf(s, sep);
      var rest := Split(s[i + 1..], sep);
      var parts := Split(s, sep);
      assert parts == [s[..i]] + rest;
      assert parts[1..] == rest;
      JoinSplit(s[i + 1..], sep);
      assert Join(parts, sep) == s[..i] + [sep] + Join(rest, sep);
      assert s == s[..i] + [sep] + s[i + 1..];
    }
  }

  /** Splitting a join of separator-free pieces gives the pieces back. */
  lemma {:induction false} SplitJoin(parts: seq<string>, sep: char)
    requires |parts| >= 1
    requires forall k :: 0 <= k < |parts| ==> sep !in parts[k]
    ensures Split(Join(parts, sep), sep) == parts
  {
    if |parts| > 1 {
      var s := Join(parts, sep);
      SplitJoin(parts[1..], sep);
      assert s == parts[0] + [sep] + Join(parts[1..], sep);
      assert s[|parts[0]|] == sep;
      assert s[..|parts[0]|] == parts[0];
      assert IndexOf(s, sep) == |parts[0]|;
      assert s[|parts[0]| + 1..] == Join(parts[1..], sep);
    }
  }

  /** `pat in s` for strings: some slice of `s` equals `pat`. */
  predicate Contains(s: string, pat: string)
    decreases |s|
  {
    if pat <= s then true
    else if s == [] then false
    else Contains(s[1..], pat)
  }

  /** s.replace(pat, "") for a non-empty `pat`: occurrences are removed from
      left to right, without overlap. */
  function RemoveAll(s: string, pat: string): (r: string)
    requires pat != []
    ensures |r| <= |s|
    decreases |s|
  {
    if s == [] then []
    else if pat <= s then RemoveAll(s[|pat|..], pat)
    else [s[0]] + RemoveAll(s[1..], pat)
  }

  /** Without an occurrence there is nothing to remove. */
  lemma {:induction false} RemoveAllAbsent(s: string, pat: string)
    requires pat != [] && !Contains(s, pat)
    ensures RemoveAll(s, pat) == s
    decreases |s|
  {
    if s != [] {
      RemoveAllAbsent(s[1..], pat);
    }
  }

  /** With an occurrence, something is removed. */
  lemma {:induction false} RemoveAllPresent(s: string, pat: string)
    requires pat != [] && Contains(s, pat)
    ensures |RemoveAll(s, pat)| < |s|
    decreases |s|
  {
    if !(pat <= s) {
      RemoveAllPresent(s[1..], pat);
    }
  }

  predicate IsDigit(c: char) {
    '0' <= c <= '9'
  }

  function DigitChar(d: nat): (c: char)
    requires d < 10
    ensures IsDigit(c)
  {
    ('0' as int + d) as char
  }

  function DigitValue(c: char): (d: nat)
    requires IsDigit(c)
    ensures d < 10
  {
    c as int - '0' as int
  }

  /** str(n) for n >= 0: decimal digits, no leading zero. */
  function NatToString(n: nat): (s: string)
    ensures s != [] && forall k :: 0 <= k < |s| ==> IsDigit(s[k])
    ensures s[0] == '0' ==> n == 0
  {
    if n < 10 then [DigitChar(n)] else NatToString(n / 10) + [DigitChar(n % 10)]
  }

  /** str(n): a minus sign, then the digits of |n|. */
  function IntToString(n: int): (s: string)
    ensures s != [] && (s[0] == '-' || IsDigit(s[0])) && IsDigit(s[|s| - 1])
    ensures forall k :: 0 <= k < |s| ==> s[k] == '-' || IsDigit(s[k])
  {
    if n < 0 then "-" + NatToString(-n) else NatToString(n)
  }

  predicate AllDigits(s: string) {
    forall k :: 0 <= k < |s| ==> IsDigit(s[k])
  }

  /** The number a string of decimal digits denotes. */
  function DigitsValue(s: string): nat
    requires AllDigits(s)
  {
    if s == [] then 0 else DigitsValue(s[..|s| - 1]) * 10 + DigitValue(s[|s| - 1])
  }

  lemma {:induction false} DigitsValueOfNatToString(n: nat)
    ensures DigitsValue(NatToString(n)) == n
  {
    if n >= 10 {
      var s := NatToString(n);
      assert s[..|s| - 1] == NatToString(n / 10);
      DigitsValueOfNatToString(n / 10);
    }
  }

  /** Digits with single underscores between them, as int() accepts. */
  predicate IsDigitGroups(s: string)
    decreases |s|
  {
    && s != []
    && IsDigit(s[0])
    && (|s| == 1 || (if s[1] == '_' then |s| > 2 && IsDigitGroups(s[2..]) else IsDigitGroups(s[1..])))
  }

  /** The digits of a digit-group string, underscores dropped. */
  function GroupDigits(s: string): (d: string)
    ensures AllDigits(d)
  {
    if s == [] then []
    else if IsDigit(s[0]) then [s[0]] + GroupDigits(s[1..])
    else GroupDigits(s[1..])
  }

  lemma {:induction false} DigitsAreGroups(s: string)
    requires s != [] && AllDigits(s)
    ensures IsDigitGroups(s) && GroupDigits(s) == s
  {
    if |s| > 1 {
      DigitsAreGroups(s[1..]);
    }
  }

  /** Every character of a digit-group string is a digit or an underscore. */
  lemma {:induction false} DigitGroupsChars(s: string)
    requires IsDigitGroups(s)
    ensures forall k :: 0 <= k < |s| ==> IsDigit(s[k]) || s[k] == '_'
    decreases |s|
  {
    if |s| > 1 {
      var skip := if s[1] == '_' then 2 else 1;
      DigitGroupsChars(s[skip..]);
      assert forall k :: skip <= k < |s| ==> s[k] == s[skip..][k - skip];
    }
  }

  /** CPython's default limit on the decimal digits int() and str() convert
      (sys.int_info.default_max_str_digits); past it both raise ValueError. */
  const MaxStrDigits: nat := 4300

  /** int(s) in base 10: surrounding int() whitespace, an optional sign, then
      digit groups of at most MaxStrDigits digits (underscores not counted);
      anything else raises ValueError (None here). */
  function ParseInt(s: string): (r: Option<int>) {
    ParseSigned(Trim(s, IsIntSpace))
  }

  /** int() of the text between the whitespace: a sign, then digit groups. */
  function ParseSigned(t: string): (r: Option<int>)
    ensures r.Some? ==> t != [] && (t[0] == '-' || t[0] == '+' || IsDigit(t[0]))
  {
    if t != [] && (t[0] == '-' || t[0] == '+') then
      var body := t[1..];
      if IsDigitGroups(body) && |GroupDigits(body)| <= MaxStrDigits then
        var v: int := DigitsValue(GroupDigits(body));
        Some(if t[0] == '-' then -v else v)
      else None
    else if IsDigitGroups(t) && |GroupDigits(t)| <= MaxStrDigits then Some(DigitsValue(GroupDigits(t)))
    else None
  }

  /** int() rejects a string of more than MaxStrDigits decimal digits. */
  lemma TooManyDigitsRejected(s: string)
    requires AllDigits(s) && |s| > MaxStrDigits
    ensures ParseInt(s) == None
  {
    TrimUnpadded(s, IsIntSpace);
    DigitsAreGroups(s);
  }

  /** A string int() accepts is not blank to str.strip(). */
  lemma ParseIntNotBlank(s: string)
    ensures ParseInt(s).Some? ==> !IsBlank(s)
  {
    var t := Trim(s, IsIntSpace);
    if ParseInt(s).Some? {
      StripBlank(s);
      assert t[0] == s[LeadingSpace(s, IsIntSpace)];
    }
  }

  /** int() rejects any string holding one of the separators 0x1C to 0x1F,
      even at either end, where str.strip() would have removed it. */
  lemma SeparatorRejected(s: string, i: nat)
    requires i < |s| && IsSeparator(s[i])
    ensures ParseInt(s) == None
  {
    var a := LeadingSpace(s, IsIntSpace);
    var t := Trim(s, IsIntSpace);
    assert a <= i < a + |t|;
    assert t[i - a] == s[i];
    assert ParseInt(s) == ParseSigned(t);
    if t[0] == '-' || t[0] == '+' {
      assert 1 <= i - a && t[1..][i - a - 1] == s[i];
      if IsDigitGroups(t[1..]) {
        DigitGroupsChars(t[1..]);
      }
    } else if IsDigitGroups(t) {
      DigitGroupsChars(t);
    }
  }

  /** str(n) does not raise: |n| has at most MaxStrDigits decimal digits. */
  predicate WithinDigitLimit(n: int) {
    |NatToString(if n < 0 then -n else n)| <= MaxStrDigits
  }

  /** A run of digits read by int(). */
  lemma ParseDigits(digits: string)
    requires digits != [] && AllDigits(digits)
    ensures ParseSigned(digits) == if |digits| <= MaxStrDigits then Some(DigitsValue(digits)) else None
  {
    DigitsAreGroups(digits);
    assert digits[0] != '-' && digits[0] != '+';
  }

  /** A minus sign and a run of digits read by int(). */
  lemma ParseNegativeDigits(t: string)
    requires |t| >= 2 && t[0] == '-' && AllDigits(t[1..])
    ensures ParseSigned(t) == if |t| - 1 <= MaxStrDigits then Some(-(DigitsValue(t[1..]) as int)) else None
  {
    DigitsAreGroups(t[1..]);
    ParseMinus(t);
  }

  lemma ParseMinus(t: string)
    requires t != [] && t[0] == '-'
    ensures ParseSigned(t) ==
      if IsDigitGroups(t[1..]) && |GroupDigits(t[1..])| <= MaxStrDigits then Some(-(DigitsValue(GroupDigits(t[1..])) as int))
      else None
  {
  }

  /** int(str(n)) == n, for every n that str() can print. */
  lemma IntToStringParses(n: int)
    requires WithinDigitLimit(n)
    ensures ParseInt(IntToString(n)) == Some(n)
  {
    var s := IntToString(n);
    TrimUnpadded(s, IsIntSpace);
    var digits := NatToString(if n < 0 then -n else n);
    DigitsValueOfNatToString(if n < 0 then -n else n);
    if n < 0 {
      assert s[1..] == digits;
      ParseNegativeDigits(s);
    } else {
      ParseDigits(digits);
    }
  }

  /** Past the limit the digits do not parse back either. */
  lemma IntToStringOverLimit(n: int)
    requires !WithinDigitLimit(n)
    ensures ParseInt(IntToString(n)) == None
  {
    var s := IntToString(n);
    TrimUnpadded(s, IsIntSpace);
    var digits := NatToString(if n < 0 then -n else n);
    if n < 0 {
      assert s[1..] == digits;
      ParseNegativeDigits(s);
    } else {
      ParseDigits(digits);
    }
  }

  /** Different integers have different decimal forms. */
  lemma IntToStringInjective(a: int, b: int)
    requires IntToString(a) == IntToString(b)
    ensures a == b
  {
    var s := IntToString(a);
    var da := NatToString(if a < 0 then -a else a);
    var db := NatToString(if b < 0 then -b else b);
    assert (a < 0 <==> s[0] == '-') && (b < 0 <==> s[0] == '-');
    if a < 0 {
      assert da == s[1..] == db;
    }
    DigitsValueOfNatToString(if a < 0 then -a else a);
    DigitsValueOfNatToString(if b < 0 then -b else b);
  }
}
