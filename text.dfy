/** The string operations the backends use: `str.strip(chars)`, `str.rstrip(chars)`,
    `int(str)` and `str(int)`. */
module Text {
  import opened Outcomes

  /** The ASCII characters Python counts as whitespace, which `int()` ignores around its
      argument: space, tab, line feed, carriage return, vertical tab, form feed and the
      four separators U+001C to U+001F. */
  const AsciiWhitespace: set<char> :=
    {' ', '\t', '\n', '\r', '\U{000B}', '\U{000C}', '\U{001C}', '\U{001D}', '\U{001E}', '\U{001F}'}

  /** `s.lstrip(chars)`: drops leading characters that are in `chars`. */
  function StripLeft(s: string, chars: set<char>): (r: string)
    ensures |r| <= |s|
    ensures forall k :: 0 <= k < |s| - |r| ==> s[k] in chars
    ensures r != [] ==> r[0] !in chars
    decreases |s|
  {
    if s != [] && s[0] in chars then StripLeft(s[1..], chars) else s
  }

  /** `s.rstrip(chars)`: drops trailing characters that are in `chars`. */
  function StripRight(s: string, chars: set<char>): (r: string)
    ensures |r| <= |s|
    ensures forall k :: |r| <= k < |s| ==> s[k] in chars
    ensures r != [] ==> r[|r| - 1] !in chars
    decreases |s|
  {
    if s != [] && s[|s| - 1] in chars then StripRight(s[..|s| - 1], chars) else s
  }

  /** `lstrip` keeps a suffix of `s`. */
  lemma {:induction false} StripLeftSlice(s: string, chars: set<char>)
    ensures StripLeft(s, chars) == s[|s| - |StripLeft(s, chars)|..]
    decreases |s|
  {
    if s != [] && s[0] in chars {
      StripLeftSlice(s[1..], chars);
    }
  }

  /** `rstrip` keeps a prefix of `s`. */
  lemma {:induction false} StripRightSlice(s: string, chars: set<char>)
    ensures StripRight(s, chars) == s[..|StripRight(s, chars)|]
    decreases |s|
  {
    if s != [] && s[|s| - 1] in chars {
      StripRightSlice(s[..|s| - 1], chars);
    }
  }

  /** `s.strip(chars)`: `chars` is a SET of characters, not a prefix or suffix, so
      `"bits 5".strip(" Mbit/s")` is `"5"`. The result neither starts nor ends with a
      character of `chars`. */
  function Strip(s: string, chars: set<char>): (r: string)
    ensures |r| <= |s|
    ensures r != [] ==> r[0] !in chars && r[|r| - 1] !in chars
  {
    StripRightSlice(StripLeft(s, chars), chars);
    StripRight(StripLeft(s, chars), chars)
  }

  /** The result of `Strip` is the slice of `s` that starts at offset
      `|s| - |StripLeft(s, chars)|`. */
  lemma StripSlice(s: string, chars: set<char>)
    ensures var i := |s| - |StripLeft(s, chars)|;
      0 <= i <= i + |Strip(s, chars)| <= |s| && Strip(s, chars) == s[i..i + |Strip(s, chars)|]
  {
    var left := StripLeft(s, chars);
    var r := Strip(s, chars);
    var i := |s| - |left|;
    assert r == StripRight(left, chars);
    StripLeftSlice(s, chars);
    StripRightSlice(left, chars);
    assert left == s[i..] && r == left[..|r|];
    assert r == s[i..][..|r|];
    assert s[i..][..|r|] == s[i..i + |r|];
  }

  /** Everything `Strip` cuts off, on either side of that slice, is in `chars`. */
  lemma StripCutsOnlyChars(s: string, chars: set<char>)
    ensures var i := |s| - |StripLeft(s, chars)|;
      (forall k :: 0 <= k < i ==> s[k] in chars)
      && (forall k :: i + |Strip(s, chars)| <= k < |s| ==> s[k] in chars)
  {
    var left := StripLeft(s, chars);
    var r := Strip(s, chars);
    var i := |s| - |left|;
    assert r == StripRight(left, chars);
    StripLeftSlice(s, chars);
    forall k | i + |r| <= k < |s|
      ensures s[k] in chars
    {
      assert s[k] == left[k - i] && left[k - i] in chars;
    }
  }

  /** A string whose first and last characters are outside `chars` is left unchanged. */
  lemma StripKeeps(s: string, chars: set<char>)
    requires s != [] && s[0] !in chars && s[|s| - 1] !in chars
    ensures Strip(s, chars) == s
  {
  }

  /** Characters of `chars` on either side of `core` are stripped and `core` is kept,
      provided `core` neither starts nor ends with one of them. */
  lemma StripAround(pre: string, core: string, post: string, chars: set<char>)
    requires forall k :: 0 <= k < |pre| ==> pre[k] in chars
    requires forall k :: 0 <= k < |post| ==> post[k] in chars
    requires core != [] && core[0] !in chars && core[|core| - 1] !in chars
    ensures Strip(pre + core + post, chars) == core
  {
    StripLeftPrefix(pre, core + post, chars);
    assert pre + core + post == pre + (core + post);
    StripRightSuffix(core, post, chars);
  }

  lemma {:induction false} StripLeftPrefix(pre: string, rest: string, chars: set<char>)
    requires forall k :: 0 <= k < |pre| ==> pre[k] in chars
    requires rest != [] && rest[0] !in chars
    ensures StripLeft(pre + rest, chars) == rest
    decreases |pre|
  {
    if pre != [] {
      assert (pre + rest)[1..] == pre[1..] + rest;
      StripLeftPrefix(pre[1..], rest, chars);
    } else {
      assert pre + rest == rest;
    }
  }

  lemma {:induction false} StripRightSuffix(rest: string, post: string, chars: set<char>)
    requires forall k :: 0 <= k < |post| ==> post[k] in chars
    requires rest != [] && rest[|rest| - 1] !in chars
    ensures StripRight(rest + post, chars) == rest
    decreases |post|
  {
    if post != [] {
      var shorter := post[..|post| - 1];
      assert (rest + post)[..|rest + post| - 1] == rest + shorter;
      StripRightSuffix(rest, shorter, chars);
    } else {
      assert rest + post == rest;
    }
  }

  predicate IsDigit(c: char) {
    '0' <= c <= '9'
  }

  predicate AllDigits(s: string) {
    forall k :: 0 <= k < |s| ==> IsDigit(s[k])
  }

  function DigitChar(d: nat): (c: char)
    requires d < 10
    ensures IsDigit(c)
  {
    ('0' as int + d) as char
  }

  /** The value of a numeral of ASCII digits (leading zeros allowed, as `int()` allows them). */
  function Digits(s: string): nat
    requires AllDigits(s)
    decreases |s|
  {
    if s == [] then 0 else Digits(s[..|s| - 1]) * 10 + (s[|s| - 1] as int - '0' as int)
  }

  /** `str(n)` for a natural number: no sign, no leading zero. */
  function Decimal(n: nat): (s: string)
    ensures s != [] && AllDigits(s)
    ensures |s| > 1 ==> s[0] != '0'
  {
    if n < 10 then [DigitChar(n)] else Decimal(n / 10) + [DigitChar(n % 10)]
  }

  lemma {:induction false} DigitsOfDecimal(n: nat)
    ensures Digits(Decimal(n)) == n
  {
    if n >= 10 {
      var s := Decimal(n);
      assert s[..|s| - 1] == Decimal(n / 10);
      DigitsOfDecimal(n / 10);
    }
  }

  /** Leading zeros do not change the value of a numeral. */
  lemma {:induction false} DigitsLeadingZeros(z: string, s: string)
    requires forall k :: 0 <= k < |z| ==> z[k] == '0'
    requires AllDigits(s)
    ensures AllDigits(z + s) && Digits(z + s) == Digits(s)
    decreases |s|
  {
    if s == [] {
      DigitsOfZeros(z);
      assert z + s == z;
    } else {
      var t := s[..|s| - 1];
      assert (z + s)[..|z + s| - 1] == z + t;
      DigitsLeadingZeros(z, t);
    }
  }

  lemma {:induction false} DigitsOfZeros(z: string)
    requires forall k :: 0 <= k < |z| ==> z[k] == '0'
    ensures AllDigits(z) && Digits(z) == 0
    decreases |z|
  {
    if z != [] {
      DigitsOfZeros(z[..|z| - 1]);
    }
  }

  /** `int(s)` for a str: surrounding whitespace is ignored, then an optional sign and
      one or more ASCII digits; anything else raises ValueError. */
  function ParseInt(s: string): (r: Outcome<int>)
    ensures r.Raise? ==> r.exc == ValueError
  {
    ParseNumeral(Strip(s, AsciiWhitespace))
  }

  /** An optional sign followed by one or more ASCII digits. */
  function ParseNumeral(t: string): (r: Outcome<int>)
    ensures r.Raise? ==> r.exc == ValueError
  {
    var negative := t != [] && t[0] == '-';
    var body := if t != [] && (t[0] == '-' || t[0] == '+') then t[1..] else t;
    if body != [] && AllDigits(body) then
      var magnitude: int := Digits(body);
      Ok(if negative then -magnitude else magnitude)
    else
      Raise(ValueError)
  }

  /** `str(n)` for an integer: an optional `-`, then digits. */
  function IntToString(n: int): (s: string)
    ensures s != [] && (s[0] == '-' || IsDigit(s[0])) && IsDigit(s[|s| - 1])
  {
    if n < 0 then "-" + Decimal(-n) else Decimal(n)
  }

  /** `int(str(n)) == n` */
  lemma ParseIntRoundTrip(n: int)
    ensures ParseInt(IntToString(n)) == Ok(n)
  {
    var d := Decimal(if n < 0 then -n else n);
    DigitsOfDecimal(if n < 0 then -n else n);
    if n < 0 {
      ParseSigned(d);
    } else {
      ParseUnsigned(d);
    }
  }

  /** `int()` ignores whitespace around `str(n)`, the separators U+001C to U+001F
      included. */
  lemma ParseIntPadded(pre: string, n: int, post: string)
    requires forall k :: 0 <= k < |pre| ==> pre[k] in AsciiWhitespace
    requires forall k :: 0 <= k < |post| ==> post[k] in AsciiWhitespace
    ensures ParseInt(pre + IntToString(n) + post) == Ok(n)
  {
    var s := IntToString(n);
    StripAround(pre, s, post, AsciiWhitespace);
    StripKeeps(s, AsciiWhitespace);
    ParseIntRoundTrip(n);
  }

  lemma SeparatorPaddedExample()
    ensures ParseInt("\U{001C}429\n") == Ok(429)
  {
    assert IntToString(429) == "429";
    assert "\U{001C}429\n" == "\U{001C}" + IntToString(429) + "\n";
    ParseIntPadded("\U{001C}", 429, "\n");
  }

  lemma ParseUnsigned(d: string)
    requires d != [] && AllDigits(d)
    ensures ParseInt(d) == Ok(Digits(d))
  {
    StripKeeps(d, AsciiWhitespace);
  }

  lemma ParseSigned(d: string)
    requires d != [] && AllDigits(d)
    ensures ParseInt("-" + d) == Ok(-(Digits(d) as int))
  {
    var s := "-" + d;
    StripKeeps(s, AsciiWhitespace);
    assert s[1..] == d;
    assert ParseNumeral(s) == Ok(-(Digits(d) as int));
  }
}
