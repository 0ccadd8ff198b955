/** The few JavaScript semantics the handlers rely on: truthiness of request-body
    values, `String(v)`, `parseInt(s, 10)` and the decimal form of an integer. */
module Js {
  import opened Wrappers

  /** A value read from a JSON request body. `Missing` is `undefined` (the key is
      absent); only integral numbers are represented. */
  datatype JsonValue = Missing | Null | Bool(b: bool) | Num(n: int) | Str(s: string)

  /** JavaScript truthiness; `!v` in the source is its negation. */
  predicate Truthy(v: JsonValue)
  {
    match v
    case Missing => false
    case Null => false
    case Bool(b) => b
    case Num(n) => n != 0
    case Str(s) => s != ""
  }

  /** `String(v)`, the conversion `parseInt` applies to its argument first. */
  function ToJsString(v: JsonValue): string
  {
    match v
    case Missing => "undefined"
    case Null => "null"
    case Bool(b) => if b then "true" else "false"
    case Num(n) => NumberToString(n)
    case Str(s) => s
  }

  predicate IsDigit(c: char)
  {
    '0' <= c <= '9'
  }

  predicate AllDigits(s: string)
  {
    forall i :: 0 <= i < |s| ==> IsDigit(s[i])
  }

  function DigitValue(c: char): (d: nat)
    requires IsDigit(c)
    ensures d < 10
  {
    (c as int) - ('0' as int)
  }

  function DigitChar(d: nat): (c: char)
    requires d < 10
    ensures IsDigit(c) && DigitValue(c) == d
  {
    (('0' as int) + d) as char
  }

  /** The shortest decimal numeral of `n`. */
  function NatToDecimal(n: nat): (s: string)
    ensures s != [] && AllDigits(s)
    ensures n < 10 <==> |s| == 1
  {
    if n < 10 then [DigitChar(n)] else NatToDecimal(n / 10) + [DigitChar(n % 10)]
  }

  /** The plain decimal numeral of an integer: a minus sign before the numeral
      of `-n` when negative. It is what `String(n)` prints while
      `|n| < ExponentThreshold`, and what a player types into the number field. */
  function IntToDecimal(n: int): (s: string)
    ensures s != []
    ensures n < 0 <==> s[0] == '-'
    ensures 0 <= n ==> AllDigits(s)
  {
    if n < 0 then "-" + NatToDecimal(-n) else NatToDecimal(n)
  }

  /** From this magnitude on, `String(n)` writes a number in exponent form. */
  const ExponentThreshold: int := 1_000_000_000_000_000_000_000

  /** `String(n)` for an integer-valued number: the plain numeral below
      `ExponentThreshold` in magnitude, otherwise an optional minus sign and
      `ExponentForm` (`String(5e21) == "5e+21"`). */
  function NumberToString(n: int): (s: string)
    ensures s != [] && (n < 0 <==> s[0] == '-')
    ensures -ExponentThreshold < n < ExponentThreshold ==> s == IntToDecimal(n)
  {
    var m: nat := if n < 0 then -n else n;
    if m < ExponentThreshold then IntToDecimal(n)
    else (if n < 0 then "-" else "") + ExponentForm(m)
  }

  /** The exponent form `d.ddde+K` of `m >= 10`: its first digit, then its other
      digits without trailing zeros after a point (no point when none are left),
      then `e+` and the number of digits after the first. */
  function ExponentForm(m: nat): (s: string)
    requires 10 <= m
    ensures 2 <= |s| && s[0] == DigitChar(LeadingDigit(m)) && (s[1] == '.' || s[1] == 'e')
  {
    var digits := NatToDecimal(m);
    var fraction := TrimTrailingZeros(digits[1..]);
    LeadingDigitFirst(m);
    [digits[0]] + (if fraction == [] then "" else "." + fraction) + "e+" + NatToDecimal(|digits| - 1)
  }

  /** `s` without the zeros at its end. */
  function TrimTrailingZeros(s: string): (r: string)
    ensures r <= s
    ensures r == [] || r[|r| - 1] != '0'
  {
    if s != [] && s[|s| - 1] == '0' then TrimTrailingZeros(s[..|s| - 1]) else s
  }

  /** The most significant decimal digit of `m`. */
  function LeadingDigit(m: nat): (d: nat)
    ensures d < 10
    ensures 0 < m ==> 0 < d
  {
    if m < 10 then m else LeadingDigit(m / 10)
  }

  /** The numeral of `m` starts with its leading digit. */
  lemma {:induction false} LeadingDigitFirst(m: nat)
    ensures NatToDecimal(m)[0] == DigitChar(LeadingDigit(m))
  {
    if m >= 10 {
      LeadingDigitFirst(m / 10);
    }
  }

  /** The characters ECMAScript counts as WhiteSpace or LineTerminator, which
      `parseInt` skips at the start of its argument. */
  predicate IsWhitespace(c: char)
  {
    || c == '\t' || c == '\U{000B}' || c == '\U{000C}' || c == ' '
    || c == '\U{00A0}' || c == '\U{FEFF}'
    || c == '\U{1680}' || '\U{2000}' <= c <= '\U{200A}' || c == '\U{202F}'
    || c == '\U{205F}' || c == '\U{3000}'
    || c == '\n' || c == '\r' || c == '\U{2028}' || c == '\U{2029}'
  }

  /** `s` without its leading white space. */
  function TrimStart(s: string): (r: string)
    ensures r == [] || !IsWhitespace(r[0])
  {
    if s != [] && IsWhitespace(s[0]) then TrimStart(s[1..]) else s
  }

  /** Trimming drops a prefix of `s` and nothing else, and that prefix is all
      white space. */
  lemma {:induction false} TrimStartDropsWhitespace(s: string)
    ensures |TrimStart(s)| <= |s| && TrimStart(s) == s[|s| - |TrimStart(s)|..]
    ensures forall i :: 0 <= i < |s| - |TrimStart(s)| ==> IsWhitespace(s[i])
  {
    if s != [] && IsWhitespace(s[0]) {
      TrimStartDropsWhitespace(s[1..]);
    }
  }

  /** The longest prefix of `s` made of decimal digits. */
  function DigitPrefix(s: string): (d: string)
    ensures d <= s && AllDigits(d)
    ensures |d| == |s| || !IsDigit(s[|d|])
  {
    if s != [] && IsDigit(s[0]) then [s[0]] + DigitPrefix(s[1..]) else []
  }

  /** The value of a numeral, most significant digit first. */
  function DigitsValue(d: string): nat
    requires AllDigits(d)
  {
    if d == [] then 0 else DigitsValue(d[..|d| - 1]) * 10 + DigitValue(d[|d| - 1])
  }

  /** `parseInt(s, 10)`: skip leading white space, take one optional sign, then the
      longest run of digits; `None` is `NaN`, returned when that run is empty.
      (`"-0"` gives JavaScript's `-0`, which is `0` here.) */
  function ParseInt(s: string): (r: Option<int>)
    ensures r.None? <==> DigitPrefix(Unsigned(TrimStart(s))) == []
    ensures r.Some? && r.value < 0 ==> TrimStart(s)[0] == '-'
  {
    var t := TrimStart(s);
    var digits := DigitPrefix(Unsigned(t));
    var magnitude: int := if digits == [] then 0 else DigitsValue(digits);
    if digits == [] then None
    else if t != [] && t[0] == '-' then Some(-magnitude)
    else Some(magnitude)
  }

  /** `t` without one leading `+` or `-`. */
  function Unsigned(t: string): (u: string)
    ensures u == t || (t != [] && (t[0] == '+' || t[0] == '-') && u == t[1..])
  {
    if t != [] && (t[0] == '+' || t[0] == '-') then t[1..] else t
  }

  /** Reading back a printed natural number gives the number. */
  lemma {:induction false} DigitsValueOfDecimal(n: nat)
    ensures DigitsValue(NatToDecimal(n)) == n
  {
    var s := NatToDecimal(n);
    if n >= 10 {
      DigitsValueOfDecimal(n / 10);
      assert s[..|s| - 1] == NatToDecimal(n / 10);
    }
  }

  /** The digit run of a numeral followed by a non-digit is exactly that numeral. */
  lemma {:induction false} DigitPrefixStopsAtNonDigit(d: string, rest: string)
    requires AllDigits(d)
    requires rest == [] || !IsDigit(rest[0])
    ensures DigitPrefix(d + rest) == d
  {
    if d != [] {
      assert (d + rest)[1..] == d[1..] + rest;
      DigitPrefixStopsAtNonDigit(d[1..], rest);
    }
  }

  /** `parseInt` reads back a plain numeral, whatever follows it after the last
      digit (`parseInt("7abc", 10) == 7`). */
  lemma ParseDecimalPrefix(n: int, rest: string)
    requires rest == [] || !IsDigit(rest[0])
    ensures ParseInt(IntToDecimal(n) + rest) == Some(n)
  {
    var m: nat := if n < 0 then -n else n;
    var numeral := NatToDecimal(m);
    var s := IntToDecimal(n) + rest;
    UnsignedDecimal(n, rest);
    DigitPrefixStopsAtNonDigit(numeral, rest);
    DigitsValueOfDecimal(m);
    var digits := DigitPrefix(Unsigned(TrimStart(s)));
    assert digits == numeral;
    assert TrimStart(s)[0] == '-' <==> n < 0;
  }

  /** Printing `n` and appending `rest` leaves nothing for `parseInt` to skip, and
      at most a minus sign before the numeral of `|n|`. */
  lemma UnsignedDecimal(n: int, rest: string)
    ensures var s := IntToDecimal(n) + rest;
      TrimStart(s) == s && Unsigned(s) == NatToDecimal(if n < 0 then -n else n) + rest
  {
    var s := IntToDecimal(n) + rest;
    var numeral := NatToDecimal(if n < 0 then -n else n);
    assert !IsWhitespace(s[0]) by {
      assert s[0] == '-' || IsDigit(s[0]);
    }
    if n < 0 {
      assert s == ['-'] + (numeral + rest);
    } else {
      assert s == numeral + rest;
      assert IsDigit(s[0]);
    }
  }

  /** `parseInt(String(n), 10)` gives back `n` below `ExponentThreshold` in
      magnitude; from there on it reads only the leading digit of the exponent
      form, with the sign of `n`. */
  lemma ParseNumberString(n: int)
    ensures ParseInt(NumberToString(n)) == Some(
      if -ExponentThreshold < n < ExponentThreshold then n
      else if n < 0 then -(LeadingDigit(-n) as int)
      else LeadingDigit(n))
  {
    if -ExponentThreshold < n < ExponentThreshold {
      ParseDecimalPrefix(n, []);
      assert IntToDecimal(n) + [] == IntToDecimal(n);
    } else {
      var v, rest := ExponentSplit(n);
      ParseDecimalPrefix(v, rest);
    }
  }

  /** In exponent form, `String(n)` is the signed leading digit followed by a
      text that starts with `.` or `e`. */
  lemma ExponentSplit(n: int) returns (v: int, rest: string)
    requires n <= -ExponentThreshold || ExponentThreshold <= n
    ensures v == if n < 0 then -(LeadingDigit(-n) as int) else LeadingDigit(n)
    ensures rest != [] && !IsDigit(rest[0])
    ensures NumberToString(n) == IntToDecimal(v) + rest
  {
    var m: nat := if n < 0 then -n else n;
    var form := ExponentForm(m);
    var d := LeadingDigit(m);
    rest := form[1..];
    assert form == [DigitChar(d)] + rest;
    assert NumberToString(n) == (if n < 0 then "-" else "") + form;
    assert NatToDecimal(d) == [DigitChar(d)];
    if n < 0 {
      v := -(d as int);
      assert IntToDecimal(v) == "-" + [DigitChar(d)];
    } else {
      v := d;
    }
  }
}
