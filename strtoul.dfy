/**
 * `strtoul(s, &end, 0)` following section 7.22.1.4 of ISO C11, for an LP64
 * target (64-bit unsigned long) with the glibc error convention: errno is
 * set to ERANGE on overflow and is left alone otherwise.
 */
module Strtoul {
  /** ULONG_MAX on LP64 Linux. */
  const UlongMax: nat := 0xFFFF_FFFF_FFFF_FFFF

  /** isspace() in the "C" locale. */
  predicate IsSpace(c: char)
  {
    c == ' ' || c == '\t' || c == '\n' || c == '\U{000B}' || c == '\U{000C}' || c == '\r'
  }

  /** The value of a digit or letter in bases up to 36; 36 for any other character. */
  function DigitValue(c: char): (d: nat)
    ensures d <= 36
  {
    if '0' <= c <= '9' then c as int - '0' as int
    else if 'a' <= c <= 'z' then c as int - 'a' as int + 10
    else if 'A' <= c <= 'Z' then c as int - 'A' as int + 10
    else 36
  }

  predicate IsBase(base: nat)
  {
    base == 8 || base == 10 || base == 16
  }

  predicate AllDigits(s: string, base: nat)
  {
    forall i :: 0 <= i < |s| ==> DigitValue(s[i]) < base
  }

  /** Number of leading white-space characters. */
  function SpaceRun(s: string): (n: nat)
    ensures n <= |s|
    ensures forall i :: 0 <= i < n ==> IsSpace(s[i])
    ensures n < |s| ==> !IsSpace(s[n])
  {
    if s == [] || !IsSpace(s[0]) then 0 else 1 + SpaceRun(s[1..])
  }

  /** Length of the longest prefix of digits in `base`. */
  function DigitRun(s: string, base: nat): (n: nat)
    ensures n <= |s|
    ensures AllDigits(s[..n], base)
    ensures n < |s| ==> DigitValue(s[n]) >= base
  {
    if s == [] || DigitValue(s[0]) >= base then 0 else 1 + DigitRun(s[1..], base)
  }

  /** The value of a digit string, most significant digit first. */
  function ValueOf(s: string, base: nat): (v: nat)
    requires IsBase(base) && AllDigits(s, base)
  {
    if s == [] then 0 else ValueOf(s[..|s| - 1], base) * base + DigitValue(s[|s| - 1])
  }

  /** The subject sequence once white space and sign are stripped. */
  datatype Subject = Subject(negative: bool, base: nat, digits: string)

  /** strtoul skips leading white space; the sign comes next. */
  function SubjectOf(s: string): (r: Subject)
    ensures IsBase(r.base) && AllDigits(r.digits, r.base)
  {
    SignedSubject(s[SpaceRun(s)..])
  }

  /** An optional '+' or '-' before the number; only '-' makes it negative. */
  function SignedSubject(t: string): (r: Subject)
    ensures IsBase(r.base) && AllDigits(r.digits, r.base)
  {
    if |t| > 0 && (t[0] == '-' || t[0] == '+') then UnsignedSubject(t[0] == '-', t[1..])
    else UnsignedSubject(false, t)
  }

  /** "0x" or "0X" is a base prefix only when a hex digit follows it. */
  predicate HexPrefixed(rest: string)
  {
    |rest| > 2 && rest[0] == '0' && (rest[1] == 'x' || rest[1] == 'X') && DigitValue(rest[2]) < 16
  }

  /**
   * Base-0 detection: a hex prefix selects 16 and is skipped; another
   * leading 0 selects 8 (the 0 is itself an octal digit); anything else
   * selects 10. The digits are the longest run valid in that base.
   */
  function UnsignedSubject(negative: bool, rest: string): (r: Subject)
    ensures IsBase(r.base) && AllDigits(r.digits, r.base)
    ensures r.negative == negative
  {
    if HexPrefixed(rest) then Subject(negative, 16, rest[2..][..DigitRun(rest[2..], 16)])
    else if |rest| > 0 && rest[0] == '0' then Subject(negative, 8, rest[..DigitRun(rest, 8)])
    else Subject(negative, 10, rest[..DigitRun(rest, 10)])
  }

  /** The returned value and whether errno was set to ERANGE. */
  datatype Conversion = Conversion(value: nat, erange: bool)

  /**
   * The conversion proper: an out-of-range magnitude gives ULONG_MAX and
   * ERANGE; a minus sign negates in unsigned arithmetic; no digits gives 0.
   */
  function Parse(s: string): (r: Conversion)
    ensures r.value <= UlongMax
    ensures r.erange <==> ValueOf(SubjectOf(s).digits, SubjectOf(s).base) > UlongMax
    ensures r.erange ==> r.value == UlongMax
    ensures SubjectOf(s).digits == [] ==> r == Conversion(0, false)
  {
    var sub := SubjectOf(s);
    var magnitude := ValueOf(sub.digits, sub.base);
    if magnitude > UlongMax then Conversion(UlongMax, true)
    else if sub.negative then Conversion((UlongMax + 1 - magnitude) % (UlongMax + 1), false)
    else Conversion(magnitude, false)
  }

  // ---------------------------------------------------------------------------
  // Formatting, the partner of parsing: round trips in each base.

  function DigitChar(d: nat): (c: char)
    requires d < 16
    ensures DigitValue(c) == d
  {
    if d < 10 then ('0' as int + d) as char else ('a' as int + d - 10) as char
  }

  /** The canonical digit string of `n`: no leading zero except for 0 itself. */
  function ToDigits(n: nat, base: nat): (s: string)
    requires IsBase(base)
    ensures |s| > 0 && AllDigits(s, base)
    ensures n > 0 ==> DigitValue(s[0]) != 0
    decreases n
  {
    if n < base then [DigitChar(n)] else ToDigits(n / base, base) + [DigitChar(n % base)]
  }

  lemma {:induction false} ValueOfToDigits(n: nat, base: nat)
    requires IsBase(base)
    ensures ValueOf(ToDigits(n, base), base) == n
    decreases n
  {
    if n >= base {
      var s := ToDigits(n, base);
      assert s[..|s| - 1] == ToDigits(n / base, base);
      ValueOfToDigits(n / base, base);
    }
  }

  /** A leading zero does not change the value (why octal may keep its 0). */
  lemma {:induction false} ValueOfLeadingZero(s: string, base: nat)
    requires IsBase(base) && AllDigits(s, base)
    ensures AllDigits("0" + s, base) && ValueOf("0" + s, base) == ValueOf(s, base)
    decreases |s|
  {
    if s != [] {
      var t := "0" + s;
      assert t[..|t| - 1] == "0" + s[..|s| - 1];
      ValueOfLeadingZero(s[..|s| - 1], base);
    }
  }

  /** A string made only of digits is one digit run. */
  lemma {:induction false} DigitRunAll(s: string, base: nat)
    requires AllDigits(s, base)
    ensures DigitRun(s, base) == |s|
    decreases |s|
  {
    if s != [] {
      DigitRunAll(s[1..], base);
    }
  }

  /** Text that starts with neither white space nor a sign goes straight to base detection. */
  lemma SubjectOfUnsigned(s: string)
    requires |s| > 0 && !IsSpace(s[0]) && s[0] != '+' && s[0] != '-'
    ensures SubjectOf(s) == UnsignedSubject(false, s)
  {
    assert SpaceRun(s) == 0;
    assert s[0..] == s;
  }

  /** A leading '-' is the sign; what follows goes to base detection. */
  lemma SubjectOfMinus(s: string)
    ensures SubjectOf("-" + s) == UnsignedSubject(true, s)
  {
    var t := "-" + s;
    assert SpaceRun(t) == 0;
    assert t[0..] == t;
    assert t[1..] == s;
  }

  /** Digits with no leading zero, sign or white space are read in decimal, whole. */
  lemma SubjectOfDecimal(s: string)
    requires |s| > 0 && AllDigits(s, 10) && s[0] != '0'
    ensures SubjectOf(s) == Subject(false, 10, s)
  {
    SubjectOfUnsigned(s);
    DigitRunAll(s, 10);
    assert s[..|s|] == s;
  }

  /** Decimal text parses back to its number. */
  lemma DecimalRoundTrip(n: nat)
    requires n <= UlongMax
    ensures Parse(ToDigits(n, 10)) == Conversion(n, false)
  {
    var s := ToDigits(n, 10);
    ValueOfToDigits(n, 10);
    if n == 0 {
      assert s == "0";
      SubjectOfUnsigned(s);
      DigitRunAll(s, 8);
      assert SubjectOf(s) == Subject(false, 8, s);
      assert ValueOf(s, 8) == ValueOf([], 8) * 8 + 0;
    } else {
      SubjectOfDecimal(s);
    }
  }

  /** "0x" followed by hex digits parses back to the number. */
  lemma HexRoundTrip(n: nat)
    requires n <= UlongMax
    ensures Parse("0x" + ToDigits(n, 16)) == Conversion(n, false)
  {
    var d := ToDigits(n, 16);
    ValueOfToDigits(n, 16);
    SubjectOfHex("0x", d, []);
    assert "0x" + d + [] == "0x" + d;
  }

  /** "0" followed by octal digits parses back to the number. */
  lemma OctalRoundTrip(n: nat)
    requires n <= UlongMax
    ensures Parse("0" + ToDigits(n, 8)) == Conversion(n, false)
  {
    var d := ToDigits(n, 8);
    var s := "0" + d;
    ValueOfToDigits(n, 8);
    ValueOfLeadingZero(d, 8);
    SubjectOfUnsigned(s);
    assert s[1] == d[0] && DigitValue(d[0]) < 8;
    assert !HexPrefixed(s);
    DigitRunAll(s, 8);
    assert s[..|s|] == s;
    assert SubjectOf(s) == Subject(false, 8, s);
  }

  /** A minus sign before decimal digits is read as a sign, the digits in decimal. */
  lemma SubjectOfNegativeDecimal(d: string)
    requires |d| > 0 && AllDigits(d, 10) && d[0] != '0'
    ensures SubjectOf("-" + d) == Subject(true, 10, d)
  {
    SubjectOfMinus(d);
    DigitRunAll(d, 10);
    assert d[..|d|] == d;
  }

  /** A minus sign negates modulo 2^64: "-n" gives ULONG_MAX + 1 - n for 0 < n. */
  lemma NegativeWraps(n: nat)
    requires 0 < n <= UlongMax
    ensures Parse("-" + ToDigits(n, 10)) == Conversion(UlongMax + 1 - n, false)
  {
    var d := ToDigits(n, 10);
    ValueOfToDigits(n, 10);
    SubjectOfNegativeDecimal(d);
    assert Parse("-" + d) == Conversion((UlongMax + 1 - n) % (UlongMax + 1), false);
    NegationInRange(n);
  }

  lemma NegationInRange(n: nat)
    requires 0 < n <= UlongMax
    ensures (UlongMax + 1 - n) % (UlongMax + 1) == UlongMax + 1 - n
  {
    var m := UlongMax + 1 - n;
    assert 0 < m < UlongMax + 1;
  }

  /** Decimal numbers beyond ULONG_MAX saturate and set ERANGE. */
  lemma OverflowSaturates(n: nat)
    requires n > UlongMax
    ensures Parse(ToDigits(n, 10)) == Conversion(UlongMax, true)
  {
    var s := ToDigits(n, 10);
    ValueOfToDigits(n, 10);
    SubjectOfDecimal(s);
  }

  // ---------------------------------------------------------------------------
  // The rest of the subject sequence: white space, sign, case and what follows.

  /** The digit run of digits followed by a non-digit is exactly those digits. */
  lemma {:induction false} DigitRunStops(d: string, t: string, base: nat)
    requires AllDigits(d, base) && (t == [] || DigitValue(t[0]) >= base)
    ensures DigitRun(d + t, base) == |d|
    decreases |d|
  {
    if d == [] {
      assert d + t == t;
    } else {
      assert (d + t)[0] == d[0];
      assert (d + t)[1..] == d[1..] + t;
      DigitRunStops(d[1..], t, base);
    }
  }

  lemma {:induction false} SpaceRunPrefix(ws: string, s: string)
    requires forall i :: 0 <= i < |ws| ==> IsSpace(ws[i])
    ensures SpaceRun(ws + s) == |ws| + SpaceRun(s)
    decreases |ws|
  {
    if ws == [] {
      assert ws + s == s;
    } else {
      assert (ws + s)[0] == ws[0];
      assert (ws + s)[1..] == ws[1..] + s;
      SpaceRunPrefix(ws[1..], s);
    }
  }

  /** Leading white space is skipped: it changes neither the subject nor the result. */
  lemma LeadingSpaceIgnored(ws: string, s: string)
    requires forall i :: 0 <= i < |ws| ==> IsSpace(ws[i])
    ensures SubjectOf(ws + s) == SubjectOf(s)
    ensures Parse(ws + s) == Parse(s)
  {
    SpacePrefixDropped(ws, s);
  }

  /** What follows the white space of `ws + s` is what follows the white space of `s`. */
  lemma SpacePrefixDropped(ws: string, s: string)
    requires forall i :: 0 <= i < |ws| ==> IsSpace(ws[i])
    ensures (ws + s)[SpaceRun(ws + s)..] == s[SpaceRun(s)..]
  {
    SpaceRunPrefix(ws, s);
    assert (ws + s)[|ws| + SpaceRun(s)..] == s[SpaceRun(s)..];
  }

  /** A single '+' before the number changes nothing. */
  lemma PlusSignIgnored(s: string)
    requires s == [] || (!IsSpace(s[0]) && s[0] != '+' && s[0] != '-')
    ensures SubjectOf("+" + s) == SubjectOf(s)
    ensures Parse("+" + s) == Parse(s)
  {
    var t := "+" + s;
    assert SpaceRun(t) == 0;
    assert t[0..] == t && t[1..] == s;
    if s == [] {
      assert SpaceRun(s) == 0 && s[0..] == s;
    } else {
      SubjectOfUnsigned(s);
    }
  }

  /** The upper-case form of a letter; other characters are unchanged. */
  function ToUpper(c: char): (u: char)
  {
    if 'a' <= c <= 'z' then (c as int - 'a' as int + 'A' as int) as char else c
  }

  function UpperCase(s: string): (u: string)
    ensures |u| == |s| && forall i :: 0 <= i < |s| ==> u[i] == ToUpper(s[i])
  {
    seq(|s|, i requires 0 <= i < |s| => ToUpper(s[i]))
  }

  /** Upper-case digits have the same values as lower-case ones. */
  lemma {:induction false} ValueOfUpperCase(s: string, base: nat)
    requires IsBase(base) && AllDigits(s, base)
    ensures AllDigits(UpperCase(s), base) && ValueOf(UpperCase(s), base) == ValueOf(s, base)
    decreases |s|
  {
    if s != [] {
      var u := UpperCase(s);
      assert u[..|u| - 1] == UpperCase(s[..|s| - 1]);
      ValueOfUpperCase(s[..|s| - 1], base);
    }
  }

  /** Either spelling of the hex prefix, then hex digits, then a non-digit: base 16, those digits. */
  lemma SubjectOfHex(p: string, d: string, t: string)
    requires p == "0x" || p == "0X"
    requires |d| > 0 && AllDigits(d, 16)
    requires t == [] || DigitValue(t[0]) >= 16
    ensures SubjectOf(p + d + t) == Subject(false, 16, d)
  {
    var s := p + d + t;
    assert s[0] == '0' && s[1] == p[1] && s[2] == d[0];
    SubjectOfUnsigned(s);
    assert HexPrefixed(s);
    assert s[2..] == d + t;
    DigitRunStops(d, t, 16);
    assert (d + t)[..|d|] == d;
  }

  /** "0X" followed by upper-case hex digits parses back to the number. */
  lemma UpperHexRoundTrip(n: nat)
    requires n <= UlongMax
    ensures Parse("0X" + UpperCase(ToDigits(n, 16))) == Conversion(n, false)
  {
    var d := UpperCase(ToDigits(n, 16));
    ValueOfToDigits(n, 16);
    ValueOfUpperCase(ToDigits(n, 16), 16);
    SubjectOfHex("0X", d, []);
    assert "0X" + d + [] == "0X" + d;
  }

  /** Characters after the decimal digits are not part of the number. */
  lemma DecimalTrailingIgnored(n: nat, t: string)
    requires 0 < n <= UlongMax
    requires t == [] || DigitValue(t[0]) >= 10
    ensures Parse(ToDigits(n, 10) + t) == Conversion(n, false)
  {
    var d := ToDigits(n, 10);
    var s := d + t;
    ValueOfToDigits(n, 10);
    DigitRunStops(d, t, 10);
    assert s[0] == d[0];
    SubjectOfUnsigned(s);
    assert s[..|d|] == d;
    assert SubjectOf(s) == Subject(false, 10, d);
  }

  /** Characters after the hex digits are not part of the number. */
  lemma HexTrailingIgnored(n: nat, t: string)
    requires n <= UlongMax
    requires t == [] || DigitValue(t[0]) >= 16
    ensures Parse("0x" + ToDigits(n, 16) + t) == Conversion(n, false)
  {
    ValueOfToDigits(n, 16);
    SubjectOfHex("0x", ToDigits(n, 16), t);
  }

  /** An upper-case prefix with upper-case digits, as a configuration file may spell an identifier. */
  lemma UpperHexExample()
    ensures Parse("0X7FF") == Conversion(0x7FF, false)
  {
    var d := "7FF";
    HexValue7FF(d);
    SubjectOfHex("0X", d, []);
    assert "0X" + d + [] == "0X7FF";
  }

  lemma HexValue7FF(d: string)
    requires d == "7FF"
    ensures AllDigits(d, 16) && ValueOf(d, 16) == 0x7FF
  {
    assert DigitValue('7') == 7 && DigitValue('F') == 15;
    assert d[..2] == "7F" && d[..2][..1] == "7" && "7"[..0] == [];
    assert ValueOf("7", 16) == 7;
    assert ValueOf("7F", 16) == 7 * 16 + 15;
  }

  /** A '+' and a trailing letter around a decimal number. */
  lemma PlusDecimalExample()
    ensures Parse("+12z") == Conversion(12, false)
  {
    var d, t := "12", "z";
    assert d == ToDigits(12, 10);
    DecimalTrailingIgnored(12, t);
    PlusSignIgnored(d + t);
    assert "+" + (d + t) == "+12z";
  }

  /** Any white space (" \t", say), a '+' and a trailing letter around a decimal number. */
  lemma SignedDecimalExample(ws: string)
    requires forall i :: 0 <= i < |ws| ==> IsSpace(ws[i])
    ensures Parse(ws + "+12z") == Conversion(12, false)
  {
    PlusDecimalExample();
    LeadingSpaceIgnored(ws, "+12z");
  }
}
