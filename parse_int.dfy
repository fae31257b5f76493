/** ECMAScript's global `parseInt(string)` called without a radix (section 19.2.5 of
    ECMA-262, 2023 edition), and the decimal rendering of an integer that it inverts.
    The result is the mathematical integer; `NaN` is `None`. */
module IntParsing {
  import opened Wrappers

  /** The code points TrimString removes: WhiteSpace and LineTerminator (sections 12.2
      and 12.3 of ECMA-262), the space separators being those of Unicode category Zs. */
  predicate IsWhiteSpace(c: char) {
    || c == '\t' || c == '\n' || c == '\U{000B}' || c == '\U{000C}' || c == '\r'
    || c == ' ' || c == '\U{00A0}' || c == '\U{1680}' || ('\U{2000}' <= c <= '\U{200A}')
    || c == '\U{2028}' || c == '\U{2029}' || c == '\U{202F}' || c == '\U{205F}'
    || c == '\U{3000}' || c == '\U{FEFF}'
  }

  /** TrimString(s, start): drops the longest all-whitespace prefix. */
  function TrimStart(s: string): (r: string)
    ensures |r| <= |s| && r == s[|s| - |r|..]
    ensures forall i :: 0 <= i < |s| - |r| ==> IsWhiteSpace(s[i])
    ensures r != [] ==> !IsWhiteSpace(r[0])
  {
    if s != [] && IsWhiteSpace(s[0]) then
      var r := TrimStart(s[1..]);
      assert forall i :: 1 <= i < |s| - |r| ==> s[i] == s[1..][i - 1];
      r
    else
      s
  }

  /** The value of `c` as a digit: 0-9, then the letters a-z and A-Z as 10-35; 36 for a
      character that is a digit in no radix. */
  function DigitValue(c: char): (d: nat)
    ensures d <= 36
  {
    if '0' <= c <= '9' then c as int - '0' as int
    else if 'a' <= c <= 'z' then c as int - 'a' as int + 10
    else if 'A' <= c <= 'Z' then c as int - 'A' as int + 10
    else 36
  }

  predicate IsDigit(c: char, radix: nat) {
    DigitValue(c) < radix
  }

  /** The length of the longest prefix of `s` made of radix-`radix` digits. */
  function DigitPrefixLength(s: string, radix: nat): (n: nat)
    ensures n <= |s|
    ensures forall i :: 0 <= i < n ==> IsDigit(s[i], radix)
    ensures n < |s| ==> !IsDigit(s[n], radix)
  {
    if s != [] && IsDigit(s[0], radix) then
      var n := 1 + DigitPrefixLength(s[1..], radix);
      assert forall i :: 1 <= i < n ==> s[i] == s[1..][i - 1];
      n
    else
      0
  }

  /** Kept apart so that the solver does not look for the sign of a product on its own. */
  lemma MulNonNegative(a: nat, b: nat)
    ensures a * b >= 0
  {
  }

  /** The integer that the digit string `z` denotes in radix `radix`. */
  function DigitsValue(z: string, radix: nat): nat
    requires forall i :: 0 <= i < |z| ==> IsDigit(z[i], radix)
  {
    if z == [] then 0
    else
      var init := z[..|z| - 1];
      assert forall i :: 0 <= i < |init| ==> init[i] == z[i];
      var high: nat := DigitsValue(init, radix);
      assert high * radix >= 0 by {
        MulNonNegative(high, radix);
      }
      high * radix + DigitValue(z[|z| - 1])
  }

  /** The input after leading whitespace and one sign character are removed. */
  function Unsigned(input: string): string {
    var s := TrimStart(input);
    if s != [] && (s[0] == '+' || s[0] == '-') then s[1..] else s
  }

  predicate IsNegative(input: string) {
    var s := TrimStart(input);
    s != [] && s[0] == '-'
  }

  /** With no radix argument a "0x" or "0X" prefix selects radix 16. */
  predicate HasHexPrefix(u: string) {
    |u| >= 2 && u[0] == '0' && (u[1] == 'x' || u[1] == 'X')
  }

  function ParseInt(input: string): (r: Option<int>)
  {
    var u := Unsigned(input);
    var radix := if HasHexPrefix(u) then 16 else 10;
    var body := if HasHexPrefix(u) then u[2..] else u;
    var end := DigitPrefixLength(body, radix);
    if end == 0 then None
    else Some((if IsNegative(input) then -1 else 1) * DigitsValue(body[..end], radix))
  }

  function DigitChar(d: nat): (c: char)
    requires d < 10
    ensures IsDigit(c, 10) && DigitValue(c) == d
  {
    ('0' as int + d) as char
  }

  /** The shortest decimal numeral of `n`, as Number::toString writes an integer below
      10^21; from 10^21 on, toString switches to exponent notation, which is not modelled. */
  function DecimalDigits(n: nat): (r: string)
    ensures |r| >= 1
    ensures forall i :: 0 <= i < |r| ==> IsDigit(r[i], 10)
    ensures r[0] == '0' ==> n == 0
  {
    if n < 10 then [DigitChar(n)] else DecimalDigits(n / 10) + [DigitChar(n % 10)]
  }

  function FormatInt(v: int): string {
    if v < 0 then "-" + DecimalDigits(-v) else DecimalDigits(v)
  }

  lemma {:induction false} DecimalDigitsValue(n: nat)
    ensures DigitsValue(DecimalDigits(n), 10) == n
  {
    if n >= 10 {
      var d := DecimalDigits(n);
      assert d[..|d| - 1] == DecimalDigits(n / 10);
      DecimalDigitsValue(n / 10);
    }
  }

  /** The digit prefix of `d + tail` stops exactly where `d` ends. */
  lemma DigitPrefixOfConcat(d: string, tail: string, radix: nat)
    requires forall i :: 0 <= i < |d| ==> IsDigit(d[i], radix)
    requires tail == [] || !IsDigit(tail[0], radix)
    ensures DigitPrefixLength(d + tail, radix) == |d|
  {
    assert forall i :: 0 <= i < |d| ==> (d + tail)[i] == d[i];
    assert tail != [] ==> (d + tail)[|d|] == tail[0];
  }

  /** The sign and digits of a formatted integer, followed by `tail`, are split off as
      parseInt splits them. */
  lemma FormattedSign(v: int, tail: string)
    ensures Unsigned(FormatInt(v) + tail) == DecimalDigits(if v < 0 then -v else v) + tail
    ensures IsNegative(FormatInt(v) + tail) <==> v < 0
  {
    if v < 0 {
      var d := DecimalDigits(-v);
      assert FormatInt(v) == ['-'] + d;
      assert FormatInt(v) + tail == ['-'] + (d + tail);
      UnsignedOfSigned('-', d + tail);
    } else {
      var d := DecimalDigits(v);
      assert (d + tail)[0] == d[0];
      UnsignedOfPlain(d + tail);
    }
  }

  /** A numeral followed by a tail that does not start with "x" after a lone "0" has no
      hexadecimal prefix. */
  lemma NumeralNotHex(n: nat, tail: string)
    requires n == 0 && tail != [] ==> tail[0] != 'x' && tail[0] != 'X'
    ensures !HasHexPrefix(DecimalDigits(n) + tail)
  {
    var d := DecimalDigits(n);
    if |d + tail| >= 2 && (d + tail)[0] == '0' {
      assert n == 0 && |d| == 1;
      assert (d + tail)[1] == tail[0];
    }
  }

  /** parseInt reads back the numeral of `v` and ignores whatever follows it, unless the
      tail turns "0" into a hexadecimal prefix. */
  lemma ParseIntOfFormatted(v: int, tail: string)
    requires tail == [] || !IsDigit(tail[0], 10)
    requires v == 0 && tail != [] ==> tail[0] != 'x' && tail[0] != 'X'
    ensures ParseInt(FormatInt(v) + tail) == Some(v)
  {
    var n: nat := if v < 0 then -v else v;
    var d := DecimalDigits(n);
    FormattedSign(v, tail);
    NumeralNotHex(n, tail);
    DigitPrefixOfConcat(d, tail, 10);
    assert (d + tail)[..|d|] == d;
    DecimalDigitsValue(n);
  }

  lemma ParseIntFormatRoundTrip(v: int)
    ensures ParseInt(FormatInt(v)) == Some(v)
  {
    ParseIntOfFormatted(v, []);
    assert FormatInt(v) + [] == FormatInt(v);
  }

  lemma {:induction false} TrimStartSkipsWhiteSpace(ws: string, s: string)
    requires forall i :: 0 <= i < |ws| ==> IsWhiteSpace(ws[i])
    ensures TrimStart(ws + s) == TrimStart(s)
  {
    if ws == [] {
      assert ws + s == s;
    } else {
      assert (ws + s)[1..] == ws[1..] + s;
      TrimStartSkipsWhiteSpace(ws[1..], s);
    }
  }

  /** parseInt looks at its input only after trimming it. */
  lemma ParseIntOfSameTrim(a: string, b: string)
    requires TrimStart(a) == TrimStart(b)
    ensures ParseInt(a) == ParseInt(b)
  {
    assert Unsigned(a) == Unsigned(b);
    assert IsNegative(a) == IsNegative(b);
  }

  /** Leading whitespace never changes the result. */
  lemma ParseIntSkipsLeadingWhiteSpace(ws: string, s: string)
    requires forall i :: 0 <= i < |ws| ==> IsWhiteSpace(ws[i])
    ensures ParseInt(ws + s) == ParseInt(s)
  {
    TrimStartSkipsWhiteSpace(ws, s);
    ParseIntOfSameTrim(ws + s, s);
  }

  /** An input that starts with neither whitespace nor a sign is its own unsigned part. */
  lemma UnsignedOfPlain(s: string)
    requires s == [] || (!IsWhiteSpace(s[0]) && s[0] != '+' && s[0] != '-')
    ensures Unsigned(s) == s && !IsNegative(s)
  {
    assert TrimStart(s) == s;
  }

  lemma UnsignedOfSigned(c: char, s: string)
    requires c == '+' || c == '-'
    ensures Unsigned([c] + s) == s && (IsNegative([c] + s) <==> c == '-')
  {
    assert TrimStart([c] + s) == [c] + s;
    assert ([c] + s)[1..] == s;
  }

  /** A leading '-' negates the value that the rest denotes. */
  lemma ParseIntMinus(s: string)
    requires s == [] || (!IsWhiteSpace(s[0]) && s[0] != '+' && s[0] != '-')
    ensures ParseInt("-" + s) == (if ParseInt(s).Some? then Some(-ParseInt(s).value) else None)
  {
    UnsignedOfSigned('-', s);
    UnsignedOfPlain(s);
  }

  /** A leading '+' changes nothing. */
  lemma ParseIntPlus(s: string)
    requires s == [] || (!IsWhiteSpace(s[0]) && s[0] != '+' && s[0] != '-')
    ensures ParseInt("+" + s) == ParseInt(s)
  {
    UnsignedOfSigned('+', s);
    UnsignedOfPlain(s);
  }

  /** A numeral is still read back with whitespace in front, with a non-digit tail, or with
      '+' in front of a non-negative value. */
  lemma NumeralTolerance(v: int, ws: string, tail: string)
    requires forall i :: 0 <= i < |ws| ==> IsWhiteSpace(ws[i])
    requires tail == [] || !IsDigit(tail[0], 10)
    requires v == 0 && tail != [] ==> tail[0] != 'x' && tail[0] != 'X'
    ensures ParseInt(ws + (FormatInt(v) + tail)) == Some(v)
    ensures v >= 0 ==> ParseInt("+" + (FormatInt(v) + tail)) == Some(v)
  {
    var d := FormatInt(v) + tail;
    ParseIntOfFormatted(v, tail);
    ParseIntSkipsLeadingWhiteSpace(ws, d);
    if v >= 0 {
      assert d[0] == DecimalDigits(v)[0];
      ParseIntPlus(d);
    }
  }

  /** parseInt gives NaN exactly when no decimal digit follows the whitespace and the sign,
      or when a "0x" prefix is followed by no hexadecimal digit; otherwise the result has
      the sign written. */
  lemma ParseIntNaNIff(input: string)
    ensures var u := Unsigned(input);
      ParseInt(input).None? <==>
        (u == [] || !IsDigit(u[0], 10) || (HasHexPrefix(u) && (|u| == 2 || !IsDigit(u[2], 16))))
    ensures ParseInt(input).Some? && IsNegative(input) ==> ParseInt(input).value <= 0
    ensures ParseInt(input).Some? && !IsNegative(input) ==> ParseInt(input).value >= 0
  {
    var u := Unsigned(input);
    if HasHexPrefix(u) {
      assert u[2..] == [] || u[2..][0] == u[2];
    }
  }

  /** An input with no decimal digit after the whitespace and the sign is NaN: no
      digits means no number, never an error. */
  lemma NoLeadingDigitIsNaN(input: string)
    requires Unsigned(input) == [] || !IsDigit(Unsigned(input)[0], 10)
    ensures ParseInt(input) == None
  {
  }
}
