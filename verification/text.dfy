/**
 * String rules the application leans on: JavaScript white space and `trim`,
 * the `<`/`>=` order on strings, decimal numerals, and the e-mail pattern
 * `^[^\s@]+@[^\s@]+\.[^\s@]+$` that the login form and the login route share.
 */
module Text {
  import opened Common

  // ---------------------------------------------------------------------------
  // White space and trim
  // ---------------------------------------------------------------------------

  /** The characters JavaScript's `\s` class and `String.prototype.trim` both treat as white space. */
  predicate IsWhitespace(c: char) {
    || c == ' ' || c == '\t' || c == '\n' || c == '\U{0B}' || c == '\U{0C}' || c == '\r'
    || c == '\U{A0}' || c == '\U{1680}' || ('\U{2000}' <= c <= '\U{200A}')
    || c == '\U{2028}' || c == '\U{2029}' || c == '\U{202F}' || c == '\U{205F}'
    || c == '\U{3000}' || c == '\U{FEFF}'
  }

  predicate AllWhitespace(s: string) {
    forall i :: 0 <= i < |s| ==> IsWhitespace(s[i])
  }

  /** Drops leading white space: what is dropped is all white space, what is kept does not start with any. */
  function TrimStart(s: string): (r: string)
    ensures |r| <= |s| && r == s[|s| - |r|..]
    ensures forall i :: 0 <= i < |s| - |r| ==> IsWhitespace(s[i])
    ensures |r| > 0 ==> !IsWhitespace(r[0])
  {
    if |s| > 0 && IsWhitespace(s[0]) then TrimStart(s[1..]) else s
  }

  /** Drops trailing white space: what is dropped is all white space, what is kept does not end with any. */
  function TrimEnd(s: string): (r: string)
    ensures |r| <= |s| && r == s[..|r|]
    ensures forall i :: |r| <= i < |s| ==> IsWhitespace(s[i])
    ensures |r| > 0 ==> !IsWhitespace(r[|r| - 1])
  {
    if |s| > 0 && IsWhitespace(s[|s| - 1]) then TrimEnd(s[..|s| - 1]) else s
  }

  /** `String.prototype.trim`: empty exactly for all-white-space input, otherwise bounded by non-space characters. */
  function Trim(s: string): (r: string)
    ensures |r| <= |s|
    ensures |r| == 0 <==> AllWhitespace(s)
    ensures |r| > 0 ==> !IsWhitespace(r[0]) && !IsWhitespace(r[|r| - 1])
  {
    var t := TrimStart(s);
    var r := TrimEnd(t);
    assert |r| > 0 ==> r[0] == t[0];
    assert |r| == 0 ==> |t| == 0;
    r
  }

  /** The trimmed string is a contiguous piece of the input with only white space around it. */
  lemma TrimIsSlice(s: string) returns (i: nat)
    ensures i + |Trim(s)| <= |s|
    ensures Trim(s) == s[i..i + |Trim(s)|]
    ensures forall k :: 0 <= k < i ==> IsWhitespace(s[k])
    ensures forall k :: i + |Trim(s)| <= k < |s| ==> IsWhitespace(s[k])
  {
    var t := TrimStart(s);
    i := |s| - |t|;
    var r := TrimEnd(t);
    assert r == t[..|r|];
    assert t == s[i..];
    forall k | i + |r| <= k < |s| ensures IsWhitespace(s[k]) {
      assert s[k] == t[k - i];
    }
  }

  // ---------------------------------------------------------------------------
  // String order
  // ---------------------------------------------------------------------------

  /**
   * JavaScript's `a < b` on strings: lexicographic by character, a proper
   * prefix coming first. (JavaScript compares UTF-16 code units; this compares
   * code points, which agree on every character outside the astral planes.)
   */
  predicate Before(a: string, b: string)
    decreases |a|
  {
    if |a| == 0 then |b| > 0
    else if |b| == 0 then false
    else if a[0] != b[0] then a[0] < b[0]
    else Before(a[1..], b[1..])
  }

  lemma {:induction false} BeforeIrreflexive(a: string)
    ensures !Before(a, a)
    decreases |a|
  {
    if |a| > 0 {
      BeforeIrreflexive(a[1..]);
    }
  }

  lemma {:induction false} BeforeTransitive(a: string, b: string, c: string)
    requires Before(a, b) && Before(b, c)
    ensures Before(a, c)
    decreases |a|
  {
    if |a| > 0 && a[0] == b[0] && b[0] == c[0] {
      BeforeTransitive(a[1..], b[1..], c[1..]);
    }
  }

  /** Distinct strings are always ordered one way or the other. */
  lemma {:induction false} BeforeTotal(a: string, b: string)
    ensures a == b || Before(a, b) || Before(b, a)
    decreases |a|
  {
    if |a| > 0 && |b| > 0 && a[0] == b[0] {
      BeforeTotal(a[1..], b[1..]);
      if a[1..] == b[1..] {
        assert a == [a[0]] + a[1..] && b == [b[0]] + b[1..];
      }
    }
  }

  lemma {:induction false} BeforeAsymmetric(a: string, b: string)
    requires Before(a, b)
    ensures !Before(b, a)
    decreases |a|
  {
    if |a| > 0 && a[0] == b[0] {
      BeforeAsymmetric(a[1..], b[1..]);
    }
  }

  // ---------------------------------------------------------------------------
  // Decimal numerals
  // ---------------------------------------------------------------------------

  predicate IsDigit(c: char) {
    '0' <= c <= '9'
  }

  /**
   * JavaScript's `length`: the number of UTF-16 code units, so a character
   * above U+FFFF (an emoji, say) counts twice.
   */
  function JsLength(s: string): (n: nat)
    ensures |s| <= n <= 2 * |s|
  {
    if |s| == 0 then 0 else JsLength(s[..|s| - 1]) + (if s[|s| - 1] as int > 0xFFFF then 2 else 1)
  }

  /** On text within the Basic Multilingual Plane, `length` counts characters. */
  lemma {:induction false} JsLengthOfBmp(s: string)
    requires forall i :: 0 <= i < |s| ==> s[i] as int <= 0xFFFF
    ensures JsLength(s) == |s|
  {
    if |s| > 0 {
      JsLengthOfBmp(s[..|s| - 1]);
    }
  }

  /** `length` adds up over concatenation, so each character above U+FFFF adds exactly one unit more than `|s|` counts. */
  lemma {:induction false} JsLengthConcat(a: string, b: string)
    ensures JsLength(a + b) == JsLength(a) + JsLength(b)
    decreases |b|
  {
    if |b| > 0 {
      assert (a + b)[..|a + b| - 1] == a + b[..|b| - 1];
      JsLengthConcat(a, b[..|b| - 1]);
    } else {
      assert a + b == a;
    }
  }

  predicate AllDigits(s: string) {
    forall i :: 0 <= i < |s| ==> IsDigit(s[i])
  }

  function DigitChar(d: nat): (c: char)
    requires d < 10
    ensures IsDigit(c) && c as int - '0' as int == d
  {
    "0123456789"[d]
  }

  /** `n.toString()` for a non-negative integer: digits only, no leading zero except for `0` itself. */
  function NatToString(n: nat): (r: string)
    ensures |r| > 0 && AllDigits(r)
    ensures |r| > 1 ==> r[0] != '0'
  {
    if n < 10 then [DigitChar(n)] else NatToString(n / 10) + [DigitChar(n % 10)]
  }

  /** JavaScript prints an integer in plain decimal below this magnitude, 10^21, and in exponent form ("1e+21") from it on. */
  const PlainLimit: int := 1_000_000_000_000_000_000_000

  predicate PrintsPlain(n: int) {
    -PlainLimit < n < PlainLimit
  }

  /** `n.toString()` for an integer JavaScript prints in plain decimal. */
  function IntToString(n: int): string
    requires PrintsPlain(n)
  {
    if n < 0 then "-" + NatToString(-n) else NatToString(n)
  }

  function DigitsValue(s: string): nat
    requires AllDigits(s)
  {
    if |s| == 0 then 0 else DigitsValue(s[..|s| - 1]) * 10 + (s[|s| - 1] as int - '0' as int)
  }

  /** `parseInt(s)` on a numeral made of decimal digits only; any other text is not a numeral here. */
  function ParseNat(s: string): Option<nat> {
    if |s| > 0 && AllDigits(s) then Some(DigitsValue(s)) else None
  }

  /** Printing a count and parsing it back gives the count. */
  lemma {:induction false} ParseNatToString(n: nat)
    ensures ParseNat(NatToString(n)) == Some(n)
  {
    var s := NatToString(n);
    if n >= 10 {
      ParseNatToString(n / 10);
      assert s[..|s| - 1] == NatToString(n / 10);
      assert s[|s| - 1] == DigitChar(n % 10);
    } else {
      assert s[..0] == [] && s[0] == DigitChar(n);
      assert DigitsValue(s) == DigitsValue(s[..0]) * 10 + n;
    }
  }

  /**
   * `parseInt(s)`, called without a radix, on an optional sign followed by
   * decimal digits. Any other text is not a numeral here: leading white
   * space, characters after the digits, no digits at all, and the `0x`
   * prefix that makes JavaScript read hexadecimal.
   */
  function ParseInt(s: string): (r: Option<int>)
    ensures AllDigits(s) ==> r == (if |s| > 0 then Some(DigitsValue(s)) else None)
  {
    if |s| > 0 && (s[0] == '-' || s[0] == '+') then
      match ParseNat(s[1..])
      case Some(n) =>
        var v: int := if s[0] == '-' then -(n as int) else n;
        Some(v)
      case None => None
    else
      match ParseNat(s)
      case Some(n) => Some(n)
      case None => None
  }

  /** Printing an integer in plain decimal and parsing it back gives the integer. */
  lemma ParseIntToString(n: int)
    requires PrintsPlain(n)
    ensures ParseInt(IntToString(n)) == Some(n)
  {
    if n < 0 {
      ParseNatToString(-n);
      assert IntToString(n)[1..] == NatToString(-n);
    } else {
      ParseNatToString(n);
      assert IsDigit(NatToString(n)[0]);
    }
  }

  // ---------------------------------------------------------------------------
  // The e-mail pattern
  // ---------------------------------------------------------------------------

  /** A character of the class `[^\s@]`. */
  predicate Plain(c: char) {
    !IsWhitespace(c) && c != '@'
  }

  predicate AllPlain(s: string) {
    forall i :: 0 <= i < |s| ==> Plain(s[i])
  }

  /** The position of the first `c` in `s`, as `indexOf` finds it. */
  function IndexOf(s: string, c: char): (r: Option<nat>)
    ensures r.Some? ==> r.value < |s| && s[r.value] == c && c !in s[..r.value]
    ensures r.None? ==> c !in s
  {
    if |s| == 0 then None
    else if s[0] == c then Some(0)
    else match IndexOf(s[1..], c)
      case None => None
      case Some(i) =>
        assert s[..i + 1] == [s[0]] + s[1..][..i];
        Some(i + 1)
  }

  /**
   * The matcher for `^[^\s@]+@[^\s@]+\.[^\s@]+$`: a non-empty local part
   * before the first `@`, then a domain free of white space and `@` with a
   * `.` that has a character on each side.
   */
  predicate IsEmailShape(s: string) {
    match IndexOf(s, '@')
    case None => false
    case Some(at) =>
      var domain := s[at + 1..];
      && at > 0
      && AllPlain(s[..at])
      && AllPlain(domain)
      && |domain| >= 3
      && '.' in domain[1..|domain| - 1]
  }

  /** The language of the regular expression, read off its three `+` groups. */
  ghost predicate InEmailLanguage(s: string) {
    exists local: string, host: string, tld: string ::
      && s == local + "@" + host + "." + tld
      && |local| > 0 && AllPlain(local)
      && |host| > 0 && AllPlain(host)
      && |tld| > 0 && AllPlain(tld)
  }

  /** The first occurrence is found wherever no earlier occurrence exists. */
  lemma {:induction false} IndexOfFirst(s: string, c: char, i: nat)
    requires i < |s| && s[i] == c && c !in s[..i]
    ensures IndexOf(s, c) == Some(i)
  {
    if i > 0 {
      assert s[0] == s[..i][0];
      assert s[1..][..i - 1] == s[..i][1..];
      IndexOfFirst(s[1..], c, i - 1);
    }
  }

  lemma EmailShapeInLanguage(s: string)
    requires IsEmailShape(s)
    ensures InEmailLanguage(s)
  {
    var at := IndexOf(s, '@').value;
    var domain := s[at + 1..];
    var middle := domain[1..|domain| - 1];
    var k :| 0 <= k < |middle| && middle[k] == '.';
    var local, host, tld := s[..at], domain[..k + 1], domain[k + 2..];
    assert domain == host + "." + tld;
    assert s == local + "@" + domain;
    assert AllPlain(host) && AllPlain(tld) by {
      forall i | 0 <= i < |host| ensures Plain(host[i]) {
        assert host[i] == domain[i];
      }
      forall i | 0 <= i < |tld| ensures Plain(tld[i]) {
        assert tld[i] == domain[k + 2 + i];
      }
    }
    assert s == local + "@" + host + "." + tld;
  }

  lemma LanguageHasEmailShape(s: string, local: string, host: string, tld: string)
    requires s == local + "@" + host + "." + tld
    requires |local| > 0 && AllPlain(local)
    requires |host| > 0 && AllPlain(host)
    requires |tld| > 0 && AllPlain(tld)
    ensures IsEmailShape(s)
  {
    var at := |local|;
    assert s[..at] == local;
    assert '@' !in local by {
      forall i | 0 <= i < |local| ensures local[i] != '@' {
        assert Plain(local[i]);
      }
    }
    IndexOfFirst(s, '@', at);
    var domain := s[at + 1..];
    assert domain == host + "." + tld;
    assert domain[1..|domain| - 1][|host| - 1] == '.';
    forall i | 0 <= i < |domain| ensures Plain(domain[i]) {
      if i < |host| {
        assert domain[i] == host[i];
      } else if i > |host| {
        assert domain[i] == tld[i - |host| - 1];
      }
    }
  }

  /** The matcher accepts exactly the strings of the pattern's language. */
  lemma EmailShapeIsPattern(s: string)
    ensures IsEmailShape(s) <==> InEmailLanguage(s)
  {
    if IsEmailShape(s) {
      EmailShapeInLanguage(s);
    }
    if InEmailLanguage(s) {
      var local: string, host: string, tld: string :|
        && s == local + "@" + host + "." + tld
        && |local| > 0 && AllPlain(local)
        && |host| > 0 && AllPlain(host)
        && |tld| > 0 && AllPlain(tld);
      LanguageHasEmailShape(s, local, host, tld);
    }
  }
}
