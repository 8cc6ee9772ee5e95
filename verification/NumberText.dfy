/** Integers as the text that crosses the network: `%d` and `atoi` of the motes, and the `%de-3`
    readings against the number grammar of section 6 of RFC 8259. */
module NumberText {
  import opened Wrappers

  predicate IsDigit(c: char) { '0' <= c <= '9' }

  predicate AllDigits(s: string) { forall i | 0 <= i < |s| :: IsDigit(s[i]) }

  function DigitChar(d: nat): (c: char)
    requires d < 10
    ensures IsDigit(c) && DigitValue(c) == d
  {
    '0' + d as char
  }

  function DigitValue(c: char): (d: nat)
    requires IsDigit(c)
    ensures d < 10
  {
    (c - '0') as nat
  }

  /** `%d` of a non-negative int. */
  function Digits(n: nat): (s: string)
    ensures s != [] && AllDigits(s)
    ensures s[0] == '0' <==> n == 0
    ensures |s| == 1 <==> n < 10
  {
    if n < 10 then [DigitChar(n)] else Digits(n / 10) + [DigitChar(n % 10)]
  }

  /** `%d` of any int. */
  function Decimal(n: int): string {
    if n < 0 then "-" + Digits(-n) else Digits(n)
  }

  /** The digits at the start of s, appended to the number read so far. */
  function ReadDigits(s: string, acc: nat): nat {
    if s == [] || !IsDigit(s[0]) then acc else ReadDigits(s[1..], 10 * acc + DigitValue(s[0]))
  }

  predicate IsSpace(c: char) { c == ' ' || '\t' <= c <= '\r' }

  /** C's `atoi`: optional blanks, an optional sign, then the digits up to the first other character. */
  function Atoi(s: string): int {
    if s == [] then 0 else if IsSpace(s[0]) then Atoi(s[1..]) else ReadSigned(s)
  }

  function ReadSigned(s: string): int
    requires s != []
  {
    if s[0] == '-' then 0 - ReadDigits(s[1..], 0)
    else ReadDigits(if s[0] == '+' then s[1..] else s, 0)
  }

  lemma {:induction false} ReadDigitsAppend(s: string, c: char, rest: string, acc: nat)
    requires AllDigits(s) && IsDigit(c)
    requires rest == [] || !IsDigit(rest[0])
    ensures ReadDigits(s + [c] + rest, acc) == 10 * ReadDigits(s + rest, acc) + DigitValue(c)
  {
    if s == [] {
      assert [] + [c] + rest == [c] + rest && [] + rest == rest;
      assert ([c] + rest)[1..] == rest;
    } else {
      assert (s + [c] + rest)[1..] == s[1..] + [c] + rest;
      assert (s + rest)[1..] == s[1..] + rest;
      ReadDigitsAppend(s[1..], c, rest, 10 * acc + DigitValue(s[0]));
    }
  }

  lemma {:induction false} ReadDigitsOfDigits(n: nat, rest: string)
    requires rest == [] || !IsDigit(rest[0])
    ensures ReadDigits(Digits(n) + rest, 0) == n
  {
    if n < 10 {
      assert (Digits(n) + rest)[1..] == rest;
    } else {
      ReadDigitsOfDigits(n / 10, rest);
      ReadDigitsAppend(Digits(n / 10), DigitChar(n % 10), rest, 0);
    }
  }

  lemma AtoiAtDigit(d: string)
    requires d != [] && IsDigit(d[0])
    ensures Atoi(d) == ReadDigits(d, 0)
    ensures Atoi("-" + d) == 0 - ReadDigits(d, 0)
  {
    assert ("-" + d)[1..] == d;
  }

  lemma AtoiOfDigits(m: nat, rest: string)
    requires rest == [] || !IsDigit(rest[0])
    ensures Atoi(Digits(m) + rest) == m && Atoi("-" + Digits(m) + rest) == 0 - m
  {
    ReadDigitsOfDigits(m, rest);
    var d := Digits(m) + rest;
    assert d[0] == Digits(m)[0];
    AtoiAtDigit(d);
    assert "-" + Digits(m) + rest == "-" + d;
  }

  /** Printing an int and reading it back gives the int, whatever non-digit text follows. */
  lemma DecimalRoundTrip(n: int, rest: string)
    requires rest == [] || !IsDigit(rest[0])
    ensures Atoi(Decimal(n) + rest) == n
  {
    AtoiOfDigits(if n < 0 then -n else n, rest);
  }

  /** The value of a string of digits. */
  function ValueOf(digits: string): nat
    requires AllDigits(digits)
  {
    if digits == [] then 0 else 10 * ValueOf(digits[..|digits| - 1]) + DigitValue(digits[|digits| - 1])
  }

  lemma {:induction false} ReadDigitsIsValue(digits: string, rest: string)
    requires AllDigits(digits) && (rest == [] || !IsDigit(rest[0]))
    ensures ReadDigits(digits + rest, 0) == ValueOf(digits)
    decreases |digits|
  {
    if digits == [] {
      assert digits + rest == rest;
    } else {
      var init, c := digits[..|digits| - 1], digits[|digits| - 1];
      assert digits + rest == init + [c] + rest;
      ReadDigitsAppend(init, c, rest, 0);
      ReadDigitsIsValue(init, rest);
    }
  }

  /** How many blanks s starts with. */
  function Blanks(s: string): (n: nat)
    ensures n <= |s| && (forall i | 0 <= i < n :: IsSpace(s[i])) && (n < |s| ==> !IsSpace(s[n]))
  {
    if s == [] || !IsSpace(s[0]) then 0 else 1 + Blanks(s[1..])
  }

  lemma {:induction false} AtoiSkipsBlanks(s: string)
    ensures Atoi(s) == if Blanks(s) == |s| then 0 else ReadSigned(s[Blanks(s)..])
  {
    if s == [] {
    } else if IsSpace(s[0]) {
      AtoiSkipsBlanks(s[1..]);
      assert s[1..][Blanks(s[1..])..] == s[Blanks(s)..];
    } else {
      assert s[0..] == s;
    }
  }

  /** After its blanks the text is perhaps a plus sign, digits of value v, and then no digit. */
  predicate Spells(text: string, sign: string, digits: string, rest: string, v: int) {
    && text[Blanks(text)..] == sign + (digits + rest) && (sign == "" || sign == "+")
    && AllDigits(digits) && ValueOf(digits) == v && (rest == [] || !IsDigit(rest[0]))
  }

  lemma SplitDigits(body: string) returns (digits: string, rest: string)
    ensures body == digits + rest && AllDigits(digits) && (rest == [] || !IsDigit(rest[0]))
    ensures ReadDigits(body, 0) == ValueOf(digits)
  {
    digits, rest := body[..DigitRun(body)], body[DigitRun(body)..];
    ReadDigitsIsValue(digits, rest);
    assert body == digits + rest;
  }

  lemma SplitSign(bare: string) returns (sign: string, body: string)
    requires bare != [] && ReadSigned(bare) > 0
    ensures bare == sign + body && (sign == "" || sign == "+") && ReadSigned(bare) == ReadDigits(body, 0)
  {
    if bare[0] == '+' {
      sign, body := "+", bare[1..];
    } else {
      sign, body := "", bare;
    }
  }

  /** What `atoi` reads as a positive number is spelled so. */
  lemma PositiveText(text: string)
    requires Atoi(text) > 0
    ensures exists sign, digits, rest :: Spells(text, sign, digits, rest, Atoi(text))
  {
    AtoiSkipsBlanks(text);
    var sign, body := SplitSign(text[Blanks(text)..]);
    var digits, rest := SplitDigits(body);
    assert Spells(text, sign, digits, rest, Atoi(text));
  }

  /** And what is spelled so is read so. */
  lemma SpelledText(text: string, sign: string, digits: string, rest: string, v: int)
    requires Spells(text, sign, digits, rest, v) && v > 0
    ensures Atoi(text) == v
  {
    AtoiSkipsBlanks(text);
    ReadDigitsIsValue(digits, rest);
    var bare := text[Blanks(text)..];
    assert bare[|sign|..] == digits + rest;
    assert digits != [] && (digits + rest)[0] == digits[0];
  }

  /** A number of section 6 of RFC 8259: it denotes mantissa * 10^exponent. */
  datatype Scaled = Scaled(mantissa: int, exponent: int)

  function Pow10(k: nat): nat { if k == 0 then 1 else 10 * Pow10(k - 1) }

  lemma {:induction false} DigitsBound(n: nat, k: nat)
    requires k > 0 && n < Pow10(k)
    ensures |Digits(n)| <= k
  {
    if n >= 10 { DigitsBound(n / 10, k - 1); }
  }

  type JavaInt = v: int | -0x8000_0000 <= v < 0x8000_0000

  /** A 32-bit int prints in at most eleven characters. */
  lemma IntsAreShort(v: JavaInt)
    ensures |Decimal(v)| <= 11
  {
    assert Pow10(5) == 100000 && Pow10(10) == 10000000000;
    DigitsBound(if v < 0 then 0 - (v as int) else v, 10);
  }

  /** How many digits s starts with. */
  function DigitRun(s: string): (n: nat)
    ensures n <= |s| && AllDigits(s[..n]) && (n < |s| ==> !IsDigit(s[n]))
  {
    if s == [] || !IsDigit(s[0]) then 0
    else
      var n := DigitRun(s[1..]);
      assert s[..n + 1] == [s[0]] + s[1..][..n];
      n + 1
  }

  /** number = [ minus ] int [ frac ] [ exp ], read as mantissa and decimal exponent. */
  function ParseNumber(s: string): Option<Scaled> {
    if s != [] && s[0] == '-' then
      match ParseUnsigned(s[1..])
      case None => None
      case Some(x) => Some(Scaled(-x.mantissa, x.exponent))
    else ParseUnsigned(s)
  }

  function ParseUnsigned(s: string): Option<Scaled> {
    var n := DigitRun(s);
    if n == 0 || (s[0] == '0' && n > 1) then None
    else
      var rest := s[n..];
      if rest != [] && rest[0] == '.' then
        var k := DigitRun(rest[1..]);
        if k == 0 then None else ParseExponent(ReadDigits(s[..n] + rest[1..][..k], 0), 0 - k, rest[1..][k..])
      else ParseExponent(ReadDigits(s[..n], 0), 0, rest)
  }

  function ParseExponent(mantissa: nat, shift: int, s: string): Option<Scaled> {
    if s == [] then Some(Scaled(mantissa, shift))
    else if s[0] != 'e' && s[0] != 'E' then None
    else
      var negative := |s| > 1 && s[1] == '-';
      var digits := if |s| > 1 && (s[1] == '-' || s[1] == '+') then s[2..] else s[1..];
      if digits == [] || DigitRun(digits) != |digits| then None
      else
        var e := ReadDigits(digits, 0);
        Some(Scaled(mantissa, if negative then shift - e else shift + e))
  }

  const SCALE_EXP := 3

  /** `%de-%d` with SCALE_EXP, the form of every published reading. */
  function Reading(v: int): string { Decimal(v) + "e-" + Digits(SCALE_EXP) }

  lemma {:induction false} DigitRunOfDigits(s: string, rest: string)
    requires AllDigits(s) && (rest == [] || !IsDigit(rest[0]))
    ensures DigitRun(s + rest) == |s|
  {
    if s == [] {
      assert s + rest == rest;
    } else {
      assert (s + rest)[1..] == s[1..] + rest;
      DigitRunOfDigits(s[1..], rest);
    }
  }

  lemma ParseExponentOfScale(m: nat)
    ensures ParseExponent(m, 0, "e-3") == Some(Scaled(m, -3))
  {
    assert "e-3"[2..] == "3" && Digits(3) == "3" && "3" + [] == "3";
    ReadDigitsOfDigits(3, []);
    DigitRunOfDigits("3", []);
  }

  lemma ParseScaled(m: nat)
    ensures ParseUnsigned(Digits(m) + "e-3") == Some(Scaled(m, -3))
  {
    var d, u := Digits(m), Digits(m) + "e-3";
    DigitRunOfDigits(d, "e-3");
    assert u[..|d|] == d && u[|d|..] == "e-3" && d + [] == d;
    ReadDigitsOfDigits(m, []);
    ParseExponentOfScale(m);
  }

  /** Every published reading is a number of the grammar and denotes exactly v / 1000. */
  lemma ReadingIsScaledNumber(v: int)
    ensures ParseNumber(Reading(v)) == Some(Scaled(v, -3))
  {
    var m: nat := if v < 0 then -v else v;
    var u := Digits(m) + "e-3";
    assert Digits(SCALE_EXP) == "3";
    assert Reading(v) == if v < 0 then "-" + u else u;
    ParseScaled(m);
    if v < 0 {
      assert Reading(v)[1..] == u;
    } else {
      assert IsDigit(u[0]);
    }
  }
}
