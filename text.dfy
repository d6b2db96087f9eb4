// Text handling the handlers rely on: str.strip(), str.lower(), str.isdigit(),
// int(text), Decimal(text) and the case-insensitive `ILIKE '%s%'` match.
// Characters other than ASCII letters, digits and the ASCII/C0 whitespace are
// taken literally.

module Text {
  import opened Models

  /** The whitespace str.strip() removes, within the ASCII range. */
  predicate IsSpace(c: char)
  {
    c == ' ' || c == '\t' || c == '\n' || c == '\r' || c == '\U{000B}' || c == '\U{000C}'
    || ('\U{001C}' <= c <= '\U{001F}')
  }

  predicate AllSpace(s: string)
  {
    forall i :: 0 <= i < |s| ==> IsSpace(s[i])
  }

  /** Number of whitespace characters at the front of `s`. */
  function LeadingSpaces(s: string): (n: nat)
    ensures n <= |s|
    ensures n < |s| ==> !IsSpace(s[n])
    decreases |s|
  {
    if s != [] && IsSpace(s[0]) then 1 + LeadingSpaces(s[1..]) else 0
  }

  /** What LeadingSpaces counts is whitespace. */
  lemma {:induction false} LeadingAreSpaces(s: string)
    ensures AllSpace(s[..LeadingSpaces(s)])
    decreases |s|
  {
    if s != [] && IsSpace(s[0]) {
      LeadingAreSpaces(s[1..]);
      var n := LeadingSpaces(s);
      forall i | 0 <= i < n ensures IsSpace(s[..n][i]) {
        if i > 0 { assert s[..n][i] == s[1..][..n - 1][i - 1]; }
      }
    }
  }

  /** Number of whitespace characters at the back of `s`. */
  function TrailingSpaces(s: string): (n: nat)
    ensures n <= |s|
    ensures n < |s| ==> !IsSpace(s[|s| - 1 - n])
    decreases |s|
  {
    if s != [] && IsSpace(s[|s| - 1]) then 1 + TrailingSpaces(s[..|s| - 1]) else 0
  }

  /** What TrailingSpaces counts is whitespace. */
  lemma {:induction false} TrailingAreSpaces(s: string)
    ensures AllSpace(s[|s| - TrailingSpaces(s)..])
    decreases |s|
  {
    if s != [] && IsSpace(s[|s| - 1]) {
      var init := s[..|s| - 1];
      TrailingAreSpaces(init);
      var n := TrailingSpaces(s);
      forall i | |s| - n <= i < |s| ensures IsSpace(s[i]) {
        if i < |s| - 1 { assert s[i] == init[|init| - TrailingSpaces(init)..][i - (|init| - TrailingSpaces(init))]; }
      }
    }
  }

  /** `s` has no whitespace at either end. */
  predicate Trimmed(s: string)
  {
    s == [] || (!IsSpace(s[0]) && !IsSpace(s[|s| - 1]))
  }

  /** str.strip(): `s` with its surrounding whitespace removed. */
  function Strip(s: string): (r: string)
    ensures |r| <= |s|
    ensures Trimmed(r)
  {
    var a := LeadingSpaces(s);
    s[a..|s| - TrailingSpaces(s[a..])]
  }

  /** Strip keeps the piece of `s` that begins after its leading whitespace. */
  lemma StripIsSlice(s: string)
    ensures LeadingSpaces(s) + |Strip(s)| <= |s|
    ensures Strip(s) == s[LeadingSpaces(s)..LeadingSpaces(s) + |Strip(s)|]
  {
  }

  /** Everything after the kept piece is whitespace. */
  lemma StripDropsTrailing(s: string)
    ensures LeadingSpaces(s) + |Strip(s)| <= |s|
    ensures AllSpace(s[LeadingSpaces(s) + |Strip(s)|..])
  {
    var a := LeadingSpaces(s);
    var t := s[a..];
    var b := TrailingSpaces(t);
    TrailingAreSpaces(t);
    assert Strip(s) == t[..|t| - b];
    forall i | a + |t| - b <= i < |s| ensures IsSpace(s[i]) {
      assert s[i] == t[|t| - b..][i - a - (|t| - b)];
    }
  }

  lemma {:induction false} LeadingAllSpace(s: string)
    requires AllSpace(s)
    ensures LeadingSpaces(s) == |s|
    decreases |s|
  {
    if s != [] {
      assert IsSpace(s[0]);
      assert AllSpace(s[1..]) by {
        forall i | 0 <= i < |s| - 1 ensures IsSpace(s[1..][i]) { assert s[1..][i] == s[i + 1]; }
      }
      LeadingAllSpace(s[1..]);
    }
  }

  /** The character after the leading whitespace, when there is one, is not whitespace. */
  lemma FirstAfterLeading(s: string)
    ensures LeadingSpaces(s) < |s| ==> !IsSpace(s[LeadingSpaces(s)..][0])
  {
    var a := LeadingSpaces(s);
    if a < |s| {
      assert s[a..][0] == s[a];
    }
  }

  /** Strip leaves nothing exactly when `s` is all whitespace. */
  lemma StripEmpty(s: string)
    ensures Strip(s) == [] <==> AllSpace(s)
  {
    var a := LeadingSpaces(s);
    if AllSpace(s) {
      LeadingAllSpace(s);
    }
    if Strip(s) == [] {
      StripDropsTrailing(s);
      LeadingAreSpaces(s);
      FirstAfterLeading(s);
      forall k | 0 <= k < |s| ensures IsSpace(s[k]) {
        assert s[k] == s[..a][k];
      }
    }
  }

  /**
   * What Strip removes is exactly the leading and the trailing whitespace, and
   * it leaves nothing only when `s` is all whitespace.
   */
  lemma StripRemovesSpaces(s: string)
    ensures Strip(s) == [] <==> AllSpace(s)
    ensures LeadingSpaces(s) + |Strip(s)| <= |s|
    ensures Strip(s) == s[LeadingSpaces(s)..LeadingSpaces(s) + |Strip(s)|]
    ensures AllSpace(s[LeadingSpaces(s) + |Strip(s)|..])
  {
    StripEmpty(s);
    StripIsSlice(s);
    StripDropsTrailing(s);
  }

  /** Stripping a string that has no whitespace at either end leaves it alone. */
  lemma StripTrimmed(s: string)
    requires Trimmed(s)
    ensures LeadingSpaces(s) == 0 && TrailingSpaces(s) == 0
    ensures Strip(s) == s
  {
    assert LeadingSpaces(s) == 0;
    assert s[0..] == s;
  }

  lemma StripIdempotent(s: string)
    ensures Strip(Strip(s)) == Strip(s)
  {
    StripTrimmed(Strip(s));
  }

  function LowerChar(c: char): char
  {
    if 'A' <= c <= 'Z' then (c as int + 32) as char else c
  }

  /** str.lower() on ASCII letters. */
  function Lower(s: string): (r: string)
    ensures |r| == |s|
    ensures forall i :: 0 <= i < |s| ==> r[i] == LowerChar(s[i])
  {
    seq(|s|, i requires 0 <= i < |s| => LowerChar(s[i]))
  }

  predicate IsPrefix(p: string, s: string)
  {
    |p| <= |s| && s[..|p|] == p
  }

  /** `needle` occurs in `hay` as a contiguous piece. */
  predicate Contains(hay: string, needle: string)
  {
    exists i :: 0 <= i <= |hay| && IsPrefix(needle, hay[i..])
  }

  /** `value ILIKE '%pattern%'`, folding ASCII case (LIKE wildcards inside `pattern` are not modelled). */
  predicate ILike(value: string, pattern: string)
  {
    Contains(Lower(value), Lower(pattern))
  }

  predicate IsDigit(c: char)
  {
    '0' <= c <= '9'
  }

  predicate AllDigits(s: string)
  {
    forall i :: 0 <= i < |s| ==> IsDigit(s[i])
  }

  /** str.isdigit() on ASCII: at least one character, all of them digits. */
  predicate IsDigits(s: string)
  {
    |s| > 0 && AllDigits(s)
  }

  function DigitValue(c: char): nat
    requires IsDigit(c)
  {
    c as int - '0' as int
  }

  /** The number a string of decimal digits denotes (0 for the empty string). */
  function DigitsValue(s: string): nat
    requires AllDigits(s)
    decreases |s|
  {
    if s == [] then 0 else 10 * DigitsValue(s[..|s| - 1]) + DigitValue(s[|s| - 1])
  }

  function DigitChar(d: nat): char
    requires d < 10
  {
    ('0' as int + d) as char
  }

  /** Decimal notation of `n`, without leading zeros. */
  function NatToString(n: nat): (s: string)
    ensures IsDigits(s)
    decreases n
  {
    if n < 10 then [DigitChar(n)] else NatToString(n / 10) + [DigitChar(n % 10)]
  }

  lemma {:induction false} NatToStringValue(n: nat)
    ensures DigitsValue(NatToString(n)) == n
    decreases n
  {
    var s := NatToString(n);
    if n >= 10 {
      NatToStringValue(n / 10);
      assert s[..|s| - 1] == NatToString(n / 10);
    }
  }

  function IntToString(n: int): string
  {
    if n < 0 then "-" + NatToString(-n) else NatToString(n)
  }

  /**
   * int(text) for base-10 text: surrounding whitespace, an optional sign and at
   * least one digit; anything else raises, which is None here.
   */
  function ParseInt(text: string): Option<int>
  {
    var t := Strip(text);
    if |t| > 0 && (t[0] == '-' || t[0] == '+') then
      if IsDigits(t[1..]) then Some(if t[0] == '-' then -(DigitsValue(t[1..]) as int) else DigitsValue(t[1..]))
      else None
    else if IsDigits(t) then Some(DigitsValue(t))
    else None
  }

  lemma ParseIntOfDigits(d: string)
    requires IsDigits(d)
    ensures ParseInt(d) == Some(DigitsValue(d))
  {
    StripTrimmed(d);
    assert IsDigit(d[0]);
  }

  lemma ParseIntOfNegated(d: string)
    requires IsDigits(d)
    ensures ParseInt("-" + d) == Some(-(DigitsValue(d) as int))
  {
    var s := "-" + d;
    assert IsDigit(s[|s| - 1]);
    StripTrimmed(s);
    assert s[1..] == d;
  }

  /** ParseInt reads back every integer IntToString writes. */
  lemma ParseIntRoundTrip(n: int)
    ensures ParseInt(IntToString(n)) == Some(n)
  {
    var m: nat := if n < 0 then -n else n;
    var d := NatToString(m);
    NatToStringValue(m);
    if n < 0 {
      ParseIntOfNegated(d);
      assert IntToString(n) == "-" + d;
    } else {
      ParseIntOfDigits(d);
      assert IntToString(n) == d;
    }
  }

  /** Position of the first '.' in `s`. */
  function DotIndex(s: string): (r: Option<nat>)
    ensures r.Some? ==> r.value < |s| && s[r.value] == '.' && '.' !in s[..r.value]
    ensures r.None? ==> '.' !in s
    decreases |s|
  {
    if s == [] then None
    else if s[0] == '.' then Some(0)
    else match DotIndex(s[1..])
      case None => None
      case Some(k) => Some(k + 1)
  }

  lemma {:induction false} DotIndexAfter(whole: string, rest: string)
    requires '.' !in whole
    ensures DotIndex(whole + "." + rest) == Some(|whole|)
    decreases |whole|
  {
    if whole != [] {
      DotIndexAfter(whole[1..], rest);
      assert (whole + "." + rest)[1..] == whole[1..] + "." + rest;
    }
  }

  /** Cents denoted by at most two fraction digits: "" is 0, "5" is 50, "05" is 5. */
  function FractionCents(frac: string): nat
    requires AllDigits(frac) && |frac| <= 2
  {
    if |frac| == 0 then 0 else if |frac| == 1 then 10 * DigitValue(frac[0]) else DigitsValue(frac)
  }

  /** Unsigned decimal text `whole[.frac]` in cents, when it has at most two fraction digits. */
  function UnsignedCents(body: string): Option<nat>
  {
    match DotIndex(body)
    case None => if IsDigits(body) then Some(100 * DigitsValue(body)) else None
    case Some(k) =>
      var whole, frac := body[..k], body[k + 1..];
      if AllDigits(whole) && AllDigits(frac) && |whole| + |frac| > 0 && |frac| <= 2
      then Some(100 * DigitsValue(whole) + FractionCents(frac))
      else None
  }

  /**
   * Decimal(text) in cents, for plain decimal notation: surrounding whitespace,
   * an optional sign, digits with at most one '.', and at most two digits after
   * it. Text Decimal refuses is None here.
   */
  function ParseCents(text: string): Option<Cents>
  {
    var t := Strip(text);
    if |t| > 0 && (t[0] == '-' || t[0] == '+') then
      match UnsignedCents(t[1..])
      case None => None
      case Some(v) => Some(if t[0] == '-' then -(v as int) else v)
    else
      match UnsignedCents(t)
      case None => None
      case Some(v) => Some(v)
  }

  /** Two-decimal notation of an amount of cents, as str(Decimal) prints a Numeric(_, 2). */
  function CentsToString(c: Cents): string
  {
    var m: nat := if c < 0 then -c else c;
    var digits := NatToString(m / 100) + "." + [DigitChar(m % 100 / 10), DigitChar(m % 10)];
    if c < 0 then "-" + digits else digits
  }

  lemma UnsignedCentsOfParts(q: nat, d1: nat, d2: nat)
    requires d1 < 10 && d2 < 10
    ensures UnsignedCents(NatToString(q) + "." + [DigitChar(d1), DigitChar(d2)]) == Some(100 * q + 10 * d1 + d2)
  {
    var whole := NatToString(q);
    var frac := [DigitChar(d1), DigitChar(d2)];
    var body := whole + "." + frac;
    assert '.' !in whole by {
      forall i | 0 <= i < |whole| ensures whole[i] != '.' { assert IsDigit(whole[i]); }
    }
    DotIndexAfter(whole, frac);
    assert body[..|whole|] == whole;
    assert body[|whole| + 1..] == frac;
    NatToStringValue(q);
    TwoDigitsValue(d1, d2);
  }

  lemma TwoDigitsValue(d1: nat, d2: nat)
    requires d1 < 10 && d2 < 10
    ensures DigitsValue([DigitChar(d1), DigitChar(d2)]) == 10 * d1 + d2
  {
    var frac := [DigitChar(d1), DigitChar(d2)];
    assert DigitValue(DigitChar(d1)) == d1 && DigitValue(DigitChar(d2)) == d2;
    assert frac[..1] == [DigitChar(d1)];
    assert [DigitChar(d1)][..0] == [];
    assert DigitsValue([DigitChar(d1)]) == d1;
  }

  lemma CentsDigits(m: nat)
    ensures m == 100 * (m / 100) + 10 * (m % 100 / 10) + m % 10
  {
  }

  lemma ParseCentsUnsigned(digits: string, m: nat)
    requires |digits| > 0 && IsDigit(digits[0]) && IsDigit(digits[|digits| - 1])
    requires UnsignedCents(digits) == Some(m)
    ensures ParseCents(digits) == Some(m)
  {
    StripTrimmed(digits);
    assert digits[0] != '-' && digits[0] != '+';
  }

  lemma ParseCentsNegated(digits: string, m: nat)
    requires |digits| > 0 && IsDigit(digits[|digits| - 1])
    requires UnsignedCents(digits) == Some(m)
    ensures ParseCents("-" + digits) == Some(-(m as int))
  {
    var s := "-" + digits;
    assert s[|s| - 1] == digits[|digits| - 1];
    StripTrimmed(s);
    assert s[0] == '-' && s[1..] == digits;
  }

  /** ParseCents reads back every amount CentsToString writes. */
  lemma ParseCentsRoundTrip(c: Cents)
    ensures ParseCents(CentsToString(c)) == Some(c)
  {
    var m: nat := if c < 0 then -c else c;
    var q, d1, d2 := m / 100, m % 100 / 10, m % 10;
    assert 100 * q + 10 * d1 + d2 == m by { CentsDigits(m); }
    var digits := NatToString(q) + "." + [DigitChar(d1), DigitChar(d2)];
    UnsignedCentsOfParts(q, d1, d2);
    if c < 0 {
      ParseCentsNegated(digits, m);
    } else {
      ParseCentsUnsigned(digits, m);
    }
  }
}
