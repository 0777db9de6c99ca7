/**
 * The numeric conversions the loader applies to its tokens: Long.parseLong (radix 10)
 * for the timestamp and Double.parseDouble for the value. A token that Java rejects
 * with a NumberFormatException parses to None here.
 */
module JavaNumbers {
  import opened Wrappers

  const MIN_LONG: int := -0x8000_0000_0000_0000
  const MAX_LONG: int := 0x7FFF_FFFF_FFFF_FFFF

  /** A value of Java's 64-bit `long`. */
  type Long = x: int | MIN_LONG <= x <= MAX_LONG

  predicate IsDigit(c: char) { '0' <= c <= '9' }

  predicate AllDigits(s: string) { forall i :: 0 <= i < |s| ==> IsDigit(s[i]) }

  /** Characters String.trim() removes: everything at or below U+0020. */
  predicate Blank(s: string) { forall i :: 0 <= i < |s| ==> s[i] <= ' ' }

  /** A string with nothing for String.trim() to remove. */
  predicate Trimmed(s: string) { s == [] || (s[0] > ' ' && s[|s| - 1] > ' ') }

  function DigitValue(c: char): (d: nat)
    requires IsDigit(c)
    ensures d < 10
  {
    c as int - '0' as int
  }

  function DigitChar(d: nat): (c: char)
    requires d < 10
    ensures IsDigit(c) && DigitValue(c) == d
  {
    ('0' as int + d) as char
  }

  /** The number a string of decimal digits denotes, most significant digit first. */
  function DigitsValue(s: string): nat
    requires AllDigits(s)
  {
    if s == [] then 0 else DigitsValue(s[..|s| - 1]) * 10 + DigitValue(s[|s| - 1])
  }

  function Pow10(n: nat): (p: nat)
    ensures p > 0
  {
    if n == 0 then 1 else 10 * Pow10(n - 1)
  }

  /** The decimal digits of n without leading zeros, as Long.toString writes them. */
  function NatToDigits(n: nat): (s: string)
    ensures s != [] && AllDigits(s)
  {
    if n < 10 then [DigitChar(n)] else NatToDigits(n / 10) + [DigitChar(n % 10)]
  }

  /** Long.toString(n). */
  function LongToString(n: Long): string
  {
    if n < 0 then "-" + NatToDigits(-(n as int)) else NatToDigits(n)
  }

  /** Splits off one leading '+' or '-': whether the number is negative, and the rest. */
  function SplitSign(s: string): (bool, string)
  {
    if s != [] && (s[0] == '-' || s[0] == '+') then (s[0] == '-', s[1..]) else (false, s)
  }

  /** The first index of s holding one of cs, or |s| when there is none. */
  function Find(s: string, cs: set<char>): (k: nat)
    ensures k <= |s|
    ensures k < |s| ==> s[k] in cs
    ensures forall i :: 0 <= i < k ==> s[i] !in cs
  {
    if s == [] || s[0] in cs then 0 else 1 + Find(s[1..], cs)
  }

  /**
   * Long.parseLong(s): one optional '+' or '-', then one or more ASCII digits whose
   * value lies in the range of long. Nothing is trimmed.
   */
  function ParseLong(s: string): Option<Long>
  {
    var (negative, digits) := SplitSign(s);
    if digits == [] || !AllDigits(digits) then None
    else
      var n := if negative then -(DigitsValue(digits) as int) else DigitsValue(digits);
      if MIN_LONG <= n <= MAX_LONG then Some(n) else None
  }

  /** String.trim(). */
  function Trim(s: string): (t: string)
    ensures Trimmed(t)
    ensures |t| <= |s|
    decreases |s|
  {
    if s != [] && s[0] <= ' ' then Trim(s[1..])
    else if s != [] && s[|s| - 1] <= ' ' then Trim(s[..|s| - 1])
    else s
  }

  /** A float-type suffix Double.parseDouble accepts at the very end. */
  predicate IsTypeSuffix(c: char) { c == 'f' || c == 'F' || c == 'd' || c == 'D' }

  /**
   * The significand of a decimal literal: digits with at most one '.', and at least one
   * digit. Gives the value of all its digits and how many of them follow the point.
   */
  function ParseSignificand(s: string): Option<(nat, nat)>
  {
    var p := Find(s, {'.'});
    var whole := s[..p];
    var fraction := if p < |s| then s[p + 1..] else [];
    if AllDigits(whole) && AllDigits(fraction) && |whole| + |fraction| > 0
    then Some((DigitsValue(whole + fraction), |fraction|))
    else None
  }

  /** The exponent after 'e' or 'E': one optional sign, then one or more digits. */
  function ParseExponent(s: string): Option<int>
  {
    var (negative, digits) := SplitSign(s);
    if digits == [] || !AllDigits(digits) then None
    else Some(if negative then -(DigitsValue(digits) as int) else DigitsValue(digits))
  }

  /** digits * 10^exponent, exactly. */
  function Scaled(digits: nat, exponent: int): real
    decreases if exponent < 0 then -exponent else exponent
  {
    if exponent == 0 then digits as real
    else if exponent > 0 then 10.0 * Scaled(digits, exponent - 1)
    else Scaled(digits, exponent + 1) / 10.0
  }

  /**
   * Double.parseDouble(s) on decimal literals: the token is trimmed, then one optional
   * sign, a significand, an optional exponent and an optional type suffix must make up
   * all of it. The value is the exact decimal value; rounding to a double is not modelled.
   */
  function ParseDouble(s: string): Option<real>
  {
    ParseSignedDecimal(Trim(s))
  }

  /** A trimmed token: one optional sign, then an unsigned literal. */
  function ParseSignedDecimal(t: string): Option<real>
  {
    var (negative, unsigned) := SplitSign(t);
    match ParseUnsignedDecimal(unsigned)
    case None => None
    case Some(magnitude) => Some(if negative then -magnitude else magnitude)
  }

  /** A significand, an optional exponent and an optional type suffix at the very end. */
  function ParseUnsignedDecimal(u: string): Option<real>
  {
    if u != [] && IsTypeSuffix(u[|u| - 1]) then ParseDecimalBody(u[..|u| - 1])
    else ParseDecimalBody(u)
  }

  /** A significand, then optionally 'e' or 'E' and an exponent. */
  function ParseDecimalBody(body: string): Option<real>
  {
    var e := Find(body, {'e', 'E'});
    if e == |body| then ScaleSignificand(ParseSignificand(body), 0)
    else
      match ParseExponent(body[e + 1..])
      case None => None
      case Some(exponent) => ScaleSignificand(ParseSignificand(body[..e]), exponent)
  }

  /** The value of a parsed significand under a decimal exponent. */
  function ScaleSignificand(significand: Option<(nat, nat)>, exponent: int): Option<real>
  {
    match significand
    case None => None
    case Some((digits, fractionDigits)) => Some(Scaled(digits, exponent - fractionDigits))
  }

  // ----- Lemmas -------------------------------------------------------------------

  /** Reading back the digits Long.toString writes gives the number again. */
  lemma {:induction false} DigitsRoundTrip(n: nat)
    ensures DigitsValue(NatToDigits(n)) == n
  {
    if n >= 10 {
      var s := NatToDigits(n);
      assert s[..|s| - 1] == NatToDigits(n / 10);
      DigitsRoundTrip(n / 10);
    }
  }

  lemma {:induction false} DigitsValueAppend(a: string, b: string)
    requires AllDigits(a) && AllDigits(b)
    ensures AllDigits(a + b)
    ensures DigitsValue(a + b) == DigitsValue(a) * Pow10(|b|) + DigitsValue(b)
  {
    assert AllDigits(a + b) by {
      forall i | 0 <= i < |a + b| ensures IsDigit((a + b)[i]) {
        if i < |a| { assert (a + b)[i] == a[i]; } else { assert (a + b)[i] == b[i - |a|]; }
      }
    }
    if b == [] {
      assert a + b == a;
    } else {
      var b' := b[..|b| - 1];
      assert (a + b)[..|a + b| - 1] == a + b';
      assert AllDigits(b');
      DigitsValueAppend(a, b');
      var x, p, c := DigitsValue(a), Pow10(|b'|), DigitValue(b[|b| - 1]);
      assert DigitsValue(a + b) == DigitsValue(a + b') * 10 + c;
      assert DigitsValue(a + b') == x * p + DigitsValue(b');
      assert DigitsValue(b) == DigitsValue(b') * 10 + c;
      assert Pow10(|b|) == 10 * p;
      MulTen(x, p);
    }
  }

  lemma MulTen(x: int, p: int)
    ensures x * (10 * p) == (x * p) * 10
  {
  }

  /** String.trim() removes all blank characters in front. */
  lemma {:induction false} TrimLeading(a: string, u: string)
    requires Blank(a)
    ensures Trim(a + u) == Trim(u)
  {
    if a != [] {
      assert (a + u)[0] == a[0];
      assert (a + u)[1..] == a[1..] + u;
      TrimLeading(a[1..], u);
    } else {
      assert a + u == u;
    }
  }

  /** String.trim() removes all blank characters behind a trimmed string. */
  lemma {:induction false} TrimTrailing(s: string, b: string)
    requires Blank(b) && Trimmed(s)
    ensures Trim(s + b) == s
  {
    if s == [] {
      TrimLeading(b, []);
      assert b + [] == b && s + b == b;
    } else if b == [] {
      assert s + b == s;
    } else {
      var t := s + b;
      assert t[0] == s[0];
      assert t[|t| - 1] == b[|b| - 1];
      assert t[..|t| - 1] == s + b[..|b| - 1];
      TrimTrailing(s, b[..|b| - 1]);
    }
  }

  /** String.trim() removes exactly the blank padding around a trimmed string. */
  lemma TrimPadding(a: string, s: string, b: string)
    requires Blank(a) && Blank(b) && Trimmed(s)
    ensures Trim(a + s + b) == s
  {
    assert a + s + b == a + (s + b);
    TrimLeading(a, s + b);
    TrimTrailing(s, b);
  }

  lemma TrimmedUnchanged(s: string)
    requires Trimmed(s)
    ensures Trim(s) == s
  {
    TrimPadding([], s, []);
    assert [] + s + [] == s;
  }

  /** Every long Long.toString writes is read back by Long.parseLong. */
  lemma LongRoundTrip(n: Long)
    ensures ParseLong(LongToString(n)) == Some(n)
  {
    if n < 0 {
      var d := NatToDigits(-(n as int));
      assert ("-" + d)[1..] == d;
      assert SplitSign("-" + d) == (true, d);
      DigitsRoundTrip(-(n as int));
    } else {
      var d := NatToDigits(n);
      assert IsDigit(d[0]);
      assert SplitSign(d) == (false, d);
      DigitsRoundTrip(n);
    }
  }

  /** Find reaches the end of a string holding none of cs. */
  lemma FindAbsent(s: string, cs: set<char>)
    requires forall i :: 0 <= i < |s| ==> s[i] !in cs
    ensures Find(s, cs) == |s|
  {
  }

  /** A string of digits contains neither a point nor an exponent marker. */
  lemma DigitsAreDecimalBody(digits: string)
    requires digits != [] && AllDigits(digits)
    ensures ParseDecimalBody(digits) == Some(DigitsValue(digits) as real)
  {
    FindAbsent(digits, {'e', 'E'});
    FindAbsent(digits, {'.'});
    assert digits[..|digits|] == digits;
    assert digits + [] == digits;
    assert ParseSignificand(digits) == Some((DigitsValue(digits), 0));
  }

  /** A token Long.parseLong accepts is a double literal of the same value. */
  lemma LongIsDouble(s: string, n: Long)
    requires ParseLong(s) == Some(n)
    ensures ParseDouble(s) == Some(n as real)
  {
    var sign := SplitSign(s);
    var digits := sign.1;
    assert digits != [] && AllDigits(digits);
    assert s[|s| - 1] == digits[|digits| - 1];
    assert s[0] > ' ' by {
      if !sign.0 && digits == s { assert IsDigit(digits[0]); }
    }
    assert Trimmed(s);
    TrimmedUnchanged(s);
    DigitsAreDecimalBody(digits);
    assert !IsTypeSuffix(digits[|digits| - 1]);
    assert ParseUnsignedDecimal(digits) == Some(DigitsValue(digits) as real);
    assert ParseSignedDecimal(s) == Some(n as real);
  }

  /** The significand "<w>.<f>" has the digits of w followed by those of f. */
  lemma PointedSignificand(w: string, f: string)
    requires w != [] && AllDigits(w) && AllDigits(f)
    ensures AllDigits(w + f)
    ensures ParseSignificand(w + "." + f) == Some((DigitsValue(w + f), |f|))
  {
    var s := w + "." + f;
    var p := Find(s, {'.'});
    assert s[|w|] == '.';
    assert p == |w|;
    assert s[..p] == w;
    assert s[p + 1..] == f;
    DigitsValueAppend(w, f);
  }

  /** A body without 'e' or 'E' is a bare significand with exponent 0. */
  lemma BodyWithoutExponent(body: string)
    requires Find(body, {'e', 'E'}) == |body|
    ensures ParseDecimalBody(body) == ScaleSignificand(ParseSignificand(body), 0)
  {
  }

  /** Neither 'e' nor 'E' occurs in "<w>.<f>" when w and f are digit strings. */
  lemma PointedHasNoExponent(w: string, f: string)
    requires AllDigits(w) && AllDigits(f)
    ensures Find(w + "." + f, {'e', 'E'}) == |w + "." + f|
  {
    var s := w + "." + f;
    forall i | 0 <= i < |s| ensures s[i] != 'e' && s[i] != 'E' {
      if i < |w| { assert s[i] == w[i]; }
      else if i > |w| { assert s[i] == f[i - |w| - 1]; }
    }
    FindAbsent(s, {'e', 'E'});
  }

  /** "<w>.<f>" has no exponent: its value is that of its digits scaled down by |f| places. */
  lemma PointedBody(w: string, f: string)
    requires w != [] && AllDigits(w) && AllDigits(f)
    ensures AllDigits(w + f)
    ensures ParseDecimalBody(w + "." + f).Some?
    ensures ParseDecimalBody(w + "." + f).value == Scaled(DigitsValue(w + f), 0 - |f|)
  {
    PointedHasNoExponent(w, f);
    BodyWithoutExponent(w + "." + f);
    PointedSignificand(w, f);
    assert ScaleSignificand(Some((DigitsValue(w + f), |f|)), 0) == Some(Scaled(DigitsValue(w + f), 0 - |f|));
  }

  /** "<w>.<f>", w a digit string, is a complete double literal without exponent. */
  lemma PointedLiteral(w: string, f: string)
    requires w != [] && AllDigits(w) && AllDigits(f)
    ensures AllDigits(w + f)
    ensures ParseDouble(w + "." + f) == Some(Scaled(DigitsValue(w + f), 0 - |f|))
  {
    var s := w + "." + f;
    var last := s[|s| - 1];
    assert s[0] == w[0] && IsDigit(w[0]);
    assert last == '.' || IsDigit(last) by {
      if f != [] { assert last == f[|f| - 1]; }
    }
    assert Trimmed(s);
    TrimmedUnchanged(s);
    assert SplitSign(s) == (false, s);
    assert !IsTypeSuffix(last);
    PointedBody(w, f);
  }

  /**
   * A token of the form "<n>.<f>", n written by Long.toString, is worth
   * (n * 10^|f| + f) / 10^|f|: the number before the point plus the fraction after it.
   */
  lemma DecimalLiteral(n: nat, f: string)
    requires AllDigits(f)
    ensures ParseDouble(NatToDigits(n) + "." + f) == Some(Scaled(n * Pow10(|f|) + DigitsValue(f), 0 - |f|))
  {
    var w := NatToDigits(n);
    PointedLiteral(w, f);
    DigitsValueAppend(w, f);
    DigitsRoundTrip(n);
  }

  /** Double.parseDouble trims its token; Long.parseLong does not. */
  lemma WhitespaceAsymmetry(s: string, n: Long, pad: string)
    requires ParseLong(s) == Some(n)
    requires pad != [] && Blank(pad)
    ensures ParseLong(pad + s) == None
    ensures ParseDouble(pad + s + pad) == Some(n as real)
  {
    var (negative, digits) := SplitSign(s);
    assert s[|s| - 1] == digits[|digits| - 1];
    assert (pad + s)[0] == pad[0];
    assert !IsDigit((pad + s)[0]);
    TrimPadding(pad, s, pad);
    TrimmedUnchanged(s);
    LongIsDouble(s, n);
  }

  /** A timestamp token is read exactly, and a leading space makes it malformed. */
  lemma TimestampExamples()
    ensures ParseLong("1000") == Some(1000)
    ensures ParseLong(" 1000") == None
  {
    assert "1000"[..3] == "100" && "100"[..2] == "10" && "10"[..1] == "1";
    assert DigitsValue("1000") == 1000;
  }

  /** A value token that is not a number is malformed. */
  lemma ValueExamples()
    ensures ParseDouble("abc") == None
    ensures ParseDouble("") == None
  {
  }
}
