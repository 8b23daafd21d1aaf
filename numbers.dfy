/** The two JavaScript number conversions the application relies on:
    `parseInt(s)` with no radix argument, and `String(n)` (also what a
    template literal `${n}` produces) for an integer `n`. */
module JsNumbers {
  import opened Wrappers

  /** The WhiteSpace and LineTerminator code points that `parseInt` trims
      from the front of its argument (TAB, LF, VT, FF, CR, every Unicode
      space separator, LS, PS and ZWNBSP). */
  predicate IsSpace(c: char) {
    c in SpaceChars
  }

  const SpaceChars: set<char> := {
    '\t', '\n', '\U{000B}', '\U{000C}', '\r', ' ', '\U{00A0}', '\U{1680}',
    '\U{2000}', '\U{2001}', '\U{2002}', '\U{2003}', '\U{2004}', '\U{2005}',
    '\U{2006}', '\U{2007}', '\U{2008}', '\U{2009}', '\U{200A}',
    '\U{2028}', '\U{2029}', '\U{202F}', '\U{205F}', '\U{3000}', '\U{FEFF}'
  }


  predicate IsDecimalDigit(c: char) {
    '0' <= c <= '9'
  }

  predicate IsHexDigit(c: char) {
    IsDecimalDigit(c) || 'a' <= c <= 'f' || 'A' <= c <= 'F'
  }

  /** A digit of the given radix; `parseInt` without a radix only ever uses 10 or 16. */
  predicate IsDigit(c: char, radix: int) {
    if radix == 16 then IsHexDigit(c) else IsDecimalDigit(c)
  }

  function DigitValue(c: char): (v: nat)
    requires IsHexDigit(c)
    ensures v < 16
    ensures IsDecimalDigit(c) ==> v < 10
  {
    if IsDecimalDigit(c) then c as int - '0' as int
    else if 'a' <= c <= 'f' then c as int - 'a' as int + 10
    else c as int - 'A' as int + 10
  }

  function DigitChar(d: nat): (c: char)
    requires d < 10
    ensures IsDecimalDigit(c) && DigitValue(c) == d
  {
    ('0' as int + d) as char
  }

  /** `s` with its leading white space removed: everything dropped is white
      space, and what is left does not start with white space (and is a
      suffix of `s`, see TrimStartIsSuffix). */
  function TrimStart(s: string): (r: string)
    ensures |r| <= |s|
    ensures forall i :: 0 <= i < |s| - |r| ==> IsSpace(s[i])
    ensures r == [] || !IsSpace(r[0])
  {
    if s != [] && IsSpace(s[0]) then TrimStart(s[1..]) else s
  }

  lemma {:induction false} TrimStartIsSuffix(s: string)
    ensures TrimStart(s) == s[|s| - |TrimStart(s)|..]
  {
    if s != [] && IsSpace(s[0]) {
      TrimStartIsSuffix(s[1..]);
    }
  }

  /** The longest prefix of `s` made of digits of `radix`. */
  function DigitPrefix(s: string, radix: int): (z: string)
    ensures |z| <= |s| && z == s[..|z|]
    ensures forall i :: 0 <= i < |z| ==> IsDigit(z[i], radix)
    ensures |z| < |s| ==> !IsDigit(s[|z|], radix)
  {
    if s == [] || !IsDigit(s[0], radix) then [] else [s[0]] + DigitPrefix(s[1..], radix)
  }

  /** The number a string of digits denotes in `radix`, most significant digit first. */
  function DigitsValue(z: string, radix: int): nat
    requires radix == 10 || radix == 16
    requires forall i :: 0 <= i < |z| ==> IsDigit(z[i], radix)
  {
    if z == [] then 0
    else
      var last := z[|z| - 1];
      assert IsDigit(last, radix);
      DigitsValue(z[..|z| - 1], radix) * radix + DigitValue(last)
  }

  /** `parseInt(s)`: skip leading white space, read an optional sign, switch
      to radix 16 after a "0x"/"0X" prefix, and read the longest run of
      digits that follows; no digits at all gives NaN, here `None`. What
      follows the digits is ignored, so "12abc" gives 12. */
  function ParseInt(s: string): (r: Option<int>)
    ensures r.Some? && r.value < 0 ==> |TrimStart(s)| > 0 && TrimStart(s)[0] == '-'
  {
    var t := TrimStart(s);
    var sign := if |t| > 0 && t[0] == '-' then -1 else 1;
    var u := if |t| > 0 && (t[0] == '+' || t[0] == '-') then t[1..] else t;
    match ParseMagnitude(u)
    case None => None
    case Some(m) => Some(sign * m)
  }

  /** The unsigned part of `parseInt`: radix 16 after a "0x"/"0X" prefix,
      radix 10 otherwise, then the longest run of digits, if any. */
  function ParseMagnitude(u: string): (r: Option<nat>)
    ensures r.Some? ==> |u| > 0 && IsDecimalDigit(u[0])
    ensures |u| > 0 && IsDecimalDigit(u[0]) && !(|u| >= 2 && u[0] == '0' && (u[1] == 'x' || u[1] == 'X')) ==> r.Some?
    ensures |u| >= 2 && u[0] == '0' && (u[1] == 'x' || u[1] == 'X') ==> (r.Some? <==> |u| > 2 && IsHexDigit(u[2]))
  {
    var hex := |u| >= 2 && u[0] == '0' && (u[1] == 'x' || u[1] == 'X');
    var radix := if hex then 16 else 10;
    var z := DigitPrefix(if hex then u[2..] else u, radix);
    if z == [] then None else Some(DigitsValue(z, radix))
  }

  /** `parseInt(x) || d`: the parsed integer when there is one and it is not
      zero (NaN, 0 and -0 are all falsy), otherwise `d`. An absent `x`
      (`undefined`) parses as NaN. */
  function ParseIntOr(x: Option<string>, d: int): (r: int)
    ensures x.Some? && ParseInt(x.value).Some? && ParseInt(x.value).value != 0 ==> r == ParseInt(x.value).value
    ensures x.None? || ParseInt(x.value).None? || ParseInt(x.value).value == 0 ==> r == d
    ensures d != 0 ==> r != 0
  {
    match x
    case None => d
    case Some(s) =>
      match ParseInt(s)
      case None => d
      case Some(n) => if n != 0 then n else d
  }

  /** Decimal digits of `n` with no leading zero. */
  function NatToString(n: nat): (s: string)
    ensures |s| >= 1
    ensures forall i :: 0 <= i < |s| ==> IsDecimalDigit(s[i])
    ensures s[0] == '0' ==> n == 0
    ensures n < 10 <==> |s| == 1
  {
    if n < 10 then [DigitChar(n)] else NatToString(n / 10) + [DigitChar(n % 10)]
  }

  /** `String(n)` for an integer `n`: a minus sign for negative numbers, then the decimal digits. */
  function IntToString(n: int): (s: string)
    ensures |s| >= 1
    ensures s[0] == '-' <==> n < 0
    ensures s[0] == '-' || IsDecimalDigit(s[0])
    ensures forall i :: 1 <= i < |s| ==> IsDecimalDigit(s[i])
    ensures n < 0 ==> |s| >= 2
  {
    if n < 0 then "-" + NatToString(-n) else NatToString(n)
  }

  lemma {:induction false} DigitsValueOfNatToString(n: nat)
    ensures DigitsValue(NatToString(n), 10) == n
  {
    var s := NatToString(n);
    if n >= 10 {
      DigitsValueOfNatToString(n / 10);
      assert s[..|s| - 1] == NatToString(n / 10);
      assert DigitValue(s[|s| - 1]) == n % 10;
    } else {
      assert s[..0] == [];
    }
  }

  /** The longest digit prefix of `ds + suffix` is `ds` when `ds` is all
      digits and `suffix` does not start with one. */
  lemma {:induction false} DigitPrefixOfDigits(ds: string, suffix: string, radix: int)
    requires forall i :: 0 <= i < |ds| ==> IsDigit(ds[i], radix)
    requires suffix == [] || !IsDigit(suffix[0], radix)
    ensures DigitPrefix(ds + suffix, radix) == ds
  {
    if ds != [] {
      DigitPrefixOfDigits(ds[1..], suffix, radix);
      assert (ds + suffix)[1..] == ds[1..] + suffix;
    }
  }

  /** Printing an integer and parsing it back gives the integer, also when
      non-digit text follows it (as long as that text cannot be read as the
      "x" of a hexadecimal prefix). */
  lemma {:induction false} ParseIntOfIntToString(n: int, suffix: string)
    requires suffix == [] || (!IsDecimalDigit(suffix[0]) && suffix[0] != 'x' && suffix[0] != 'X')
    ensures ParseInt(IntToString(n) + suffix) == Some(n)
  {
    if n < 0 {
      ParseIntOfNegative(n, suffix);
    } else {
      ParseIntOfNonNegative(n, suffix);
    }
  }

  lemma {:induction false} ParseIntOfNegative(n: int, suffix: string)
    requires n < 0
    requires suffix == [] || (!IsDecimalDigit(suffix[0]) && suffix[0] != 'x' && suffix[0] != 'X')
    ensures ParseInt(IntToString(n) + suffix) == Some(n)
  {
    var digits := NatToString(-n);
    var s := IntToString(n) + suffix;
    assert IntToString(n) == "-" + digits;
    assert s == "-" + (digits + suffix);
    assert s[0] == '-' && !IsSpace(s[0]);
    assert TrimStart(s) == s;
    assert s[1..] == digits + suffix;
    ParseMagnitudeOfNatToString(-n, suffix);
  }

  lemma {:induction false} ParseIntOfNonNegative(n: nat, suffix: string)
    requires suffix == [] || (!IsDecimalDigit(suffix[0]) && suffix[0] != 'x' && suffix[0] != 'X')
    ensures ParseInt(IntToString(n) + suffix) == Some(n)
  {
    var digits := NatToString(n);
    var s := IntToString(n) + suffix;
    assert IntToString(n) == digits;
    assert s[0] == digits[0] && IsDecimalDigit(s[0]) && !IsSpace(s[0]);
    assert TrimStart(s) == s;
    ParseMagnitudeOfNatToString(n, suffix);
  }

  lemma {:induction false} ParseMagnitudeOfNatToString(m: nat, suffix: string)
    requires suffix == [] || (!IsDecimalDigit(suffix[0]) && suffix[0] != 'x' && suffix[0] != 'X')
    ensures ParseMagnitude(NatToString(m) + suffix) == Some(m)
  {
    var digits := NatToString(m);
    var u := digits + suffix;
    assert !(|u| >= 2 && u[0] == '0' && (u[1] == 'x' || u[1] == 'X')) by {
      if |digits| >= 2 {
        assert u[1] == digits[1];
      } else if |u| >= 2 {
        assert u[1] == suffix[0];
      }
    }
    DigitPrefixOfDigits(digits, suffix, 10);
    DigitsValueOfNatToString(m);
  }

  /** Leading white space does not change what `parseInt` reads. */
  lemma {:induction false} ParseIntSkipsSpace(ws: string, s: string)
    requires forall i :: 0 <= i < |ws| ==> IsSpace(ws[i])
    ensures ParseInt(ws + s) == ParseInt(s)
  {
    TrimStartOfSpace(ws, s);
  }

  lemma {:induction false} TrimStartOfSpace(ws: string, s: string)
    requires forall i :: 0 <= i < |ws| ==> IsSpace(ws[i])
    ensures TrimStart(ws + s) == TrimStart(s)
  {
    if ws != [] {
      var rest := ws[1..];
      assert forall i :: 0 <= i < |rest| ==> IsSpace(rest[i]) by {
        forall i | 0 <= i < |rest| ensures IsSpace(rest[i]) {
          assert rest[i] == ws[i + 1];
        }
      }
      TrimStartOfSpace(rest, s);
      var t := ws + s;
      assert t[0] == ws[0] && IsSpace(t[0]);
      assert t[1..] == rest + s;
      TrimStartStep(t);
    } else {
      assert ws + s == s;
    }
  }

  lemma TrimStartStep(t: string)
    requires t != [] && IsSpace(t[0])
    ensures TrimStart(t) == TrimStart(t[1..])
  {
  }


  /** `parseInt(String(n)) || d` gives back every non-zero integer `n`. */
  lemma {:induction false} ParseIntOrOfIntToString(n: int, d: int)
    requires n != 0
    ensures ParseIntOr(Some(IntToString(n)), d) == n
  {
    ParseIntOfIntToString(n, []);
    assert IntToString(n) + [] == IntToString(n);
  }
}
