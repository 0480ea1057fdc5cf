/** The JavaScript value shapes that reach the shortener core, and the two
    built-in coercions its code leans on: truthiness and `parseInt`. */
module Js {

  datatype Option<+T> = None | Some(value: T)

  /** A request-body field that the handlers test for truthiness and for
      being a string.  Every falsy non-string (`undefined`, `null`, `false`,
      `0`, `NaN`) is `Absent`; a string is `Text` (the empty string is falsy);
      every truthy non-string (a non-zero number, an object, `true`) is `Other`. */
  datatype Field = Absent | Text(s: string) | Other

  predicate Truthy(f: Field) {
    match f
    case Absent => false
    case Text(s) => s != ""
    case Other => true
  }

  /** StrWhiteSpaceChar of ECMA-262: the WhiteSpace code points (tab,
      vertical tab, form feed, space, no-break space, the byte-order mark and
      every other space separator) and the LineTerminator code points. */
  predicate IsWhitespace(c: char) {
    c == '\t' || c == '\U{B}' || c == '\U{C}' || c == ' ' || c == '\U{A0}' || c == '\U{FEFF}'
    || c == '\U{1680}' || ('\U{2000}' <= c <= '\U{200A}') || c == '\U{202F}' || c == '\U{205F}'
    || c == '\U{3000}' || IsLineTerminator(c)
  }

  /** LineTerminator of ECMA-262; also what `.` in a regular expression does not match. */
  predicate IsLineTerminator(c: char) {
    c == '\n' || c == '\r' || c == '\U{2028}' || c == '\U{2029}'
  }

  /** The value of `c` as a digit of base 36, or -1 when it is not one. */
  function DigitValue(c: char): (d: int)
    ensures -1 <= d < 36
  {
    if '0' <= c <= '9' then c as int - '0' as int
    else if 'a' <= c <= 'z' then c as int - 'a' as int + 10
    else if 'A' <= c <= 'Z' then c as int - 'A' as int + 10
    else -1
  }

  predicate IsDigitIn(c: char, radix: nat) {
    0 <= DigitValue(c) < radix
  }

  /** Number of leading white-space characters of `s`. */
  function LeadingSpace(s: string): (n: nat)
    ensures n <= |s|
    ensures forall i :: 0 <= i < n ==> IsWhitespace(s[i])
    ensures n < |s| ==> !IsWhitespace(s[n])
  {
    if s != [] && IsWhitespace(s[0]) then 1 + LeadingSpace(s[1..]) else 0
  }

  /** `s` without its leading white space. */
  function TrimStart(s: string): (t: string)
    ensures |t| <= |s| && t == s[|s| - |t|..]
    ensures t == [] || !IsWhitespace(t[0])
    ensures forall i :: 0 <= i < |s| - |t| ==> IsWhitespace(s[i])
  {
    s[LeadingSpace(s)..]
  }

  /** Number of leading characters of `s` that are digits of `radix`. */
  function DigitRun(s: string, radix: nat): (n: nat)
    ensures n <= |s|
    ensures forall i :: 0 <= i < n ==> IsDigitIn(s[i], radix)
    ensures n < |s| ==> !IsDigitIn(s[n], radix)
  {
    if s != [] && IsDigitIn(s[0], radix) then 1 + DigitRun(s[1..], radix) else 0
  }

  /** The two bases `parseInt` reads when it is given no radix. */
  datatype Radix = Ten | Sixteen

  function Base(r: Radix): nat {
    match r
    case Ten => 10
    case Sixteen => 16
  }

  /** The value of a string of digits, most significant first. */
  function DigitsValue(s: string, r: Radix): nat
    requires forall i :: 0 <= i < |s| ==> IsDigitIn(s[i], Base(r))
  {
    if s == [] then 0
    else
      var prefix := s[..|s| - 1];
      var last := s[|s| - 1];
      assert IsDigitIn(last, Base(r));
      var d: nat := DigitValue(last);
      var v := DigitsValue(prefix, r);
      match r
      case Ten => v * 10 + d
      case Sixteen => v * 16 + d
  }

  predicate HasHexPrefix(u: string) {
    |u| >= 2 && u[0] == '0' && (u[1] == 'x' || u[1] == 'X')
  }

  /** The input of `parseInt` after leading white space and one sign. */
  function Unsigned(s: string): string {
    var t := TrimStart(s);
    if t != [] && (t[0] == '-' || t[0] == '+') then t[1..] else t
  }

  /** `parseInt(s)` with no radix, as section 19.2.5 of ECMA-262 defines it:
      skip white space, take one sign, then read the digits that follow.
      `None` stands for NaN. */
  function ParseInt(s: string): (r: Option<int>)
    ensures r.None? <==>
      (var u := Unsigned(s);
       if HasHexPrefix(u) then |u| == 2 || !IsDigitIn(u[2], 16) else u == [] || !IsDigitIn(u[0], 10))
  {
    match ParseMagnitude(Unsigned(s))
    case None => None
    case Some(k) => if Negative(s) then Some(-(k as int)) else Some(k as int)
  }

  /** Whether the text after the leading white space starts with a minus sign. */
  predicate Negative(s: string) {
    var t := TrimStart(s);
    t != [] && t[0] == '-'
  }

  /** The unsigned part of `parseInt`: base 16 after a `0x`/`0X` prefix and
      base 10 otherwise, stopping at the first character that is not a digit. */
  function ParseMagnitude(u: string): Option<nat> {
    var r := if HasHexPrefix(u) then Sixteen else Ten;
    var body := if HasHexPrefix(u) then u[2..] else u;
    var n := DigitRun(body, Base(r));
    if n == 0 then None else Some(DigitsValue(body[..n], r))
  }

  /** The decimal numeral of `n`, the way `String(n)` writes a natural number. */
  function Decimal(n: nat): (s: string)
    ensures s != [] && forall i :: 0 <= i < |s| ==> IsDigitIn(s[i], 10)
  {
    if n < 10 then ['0' + n as char] else Decimal(n / 10) + ['0' + (n % 10) as char]
  }

  lemma {:induction false} DecimalValue(n: nat)
    ensures DigitsValue(Decimal(n), Ten) == n
  {
    var s := Decimal(n);
    if n >= 10 {
      DecimalValue(n / 10);
      assert s[..|s| - 1] == Decimal(n / 10);
    }
  }

  lemma DigitRunOfDecimal(n: nat, rest: string)
    requires rest == [] || !IsDigitIn(rest[0], 10)
    ensures DigitRun(Decimal(n) + rest, 10) == |Decimal(n)|
  {
    var d := Decimal(n);
    var s := d + rest;
    assert forall i :: 0 <= i < |d| ==> s[i] == d[i];
    assert |d| < |s| ==> s[|d|] == rest[0];
  }

  /** A numeral of `m` has no leading zero unless it is "0" itself. */
  lemma {:induction false} DecimalLeadingDigit(m: nat)
    ensures m > 0 ==> Decimal(m)[0] != '0'
  {
    if m >= 10 {
      DecimalLeadingDigit(m / 10);
      assert Decimal(m)[0] == Decimal(m / 10)[0];
    }
  }

  /** Text that ends the numeral `Decimal(m)`: it does not start with a
      digit, nor with the `x` or `X` that would turn the numeral "0" into
      a hexadecimal prefix. */
  predicate EndsNumeral(m: nat, rest: string) {
    rest == [] || (!IsDigitIn(rest[0], 10) && (m == 0 ==> rest[0] != 'x' && rest[0] != 'X'))
  }

  /** The digits of `Decimal(m)` followed by `rest` read back as `m`. */
  lemma DecimalThenRest(m: nat, rest: string)
    requires EndsNumeral(m, rest)
    ensures var u := Decimal(m) + rest; '0' <= u[0] <= '9' && ParseMagnitude(u) == Some(m)
  {
    var d := Decimal(m);
    var u := d + rest;
    assert u[0] == d[0] && IsDigitIn(d[0], 10);
    assert !HasHexPrefix(u) by {
      if |d| >= 2 { assert u[1] == d[1] && IsDigitIn(d[1], 10); }
      else if |u| >= 2 && m > 0 { DecimalLeadingDigit(m); }
      else if |u| >= 2 { assert u[1] == rest[0]; }
    }
    DigitRunOfDecimal(m, rest);
    assert u[..|d|] == d;
    DecimalValue(m);
  }

  /** `parseInt` reads back what `String(m)` writes when the text after it
      ends the numeral: `parseInt("15min")` and `parseInt("15x")` are 15,
      while `parseInt("0x1")` reads a hexadecimal number. */
  lemma ParseIntOfDecimal(m: nat, rest: string)
    requires EndsNumeral(m, rest)
    ensures ParseInt(Decimal(m) + rest) == Some(m)
  {
    DecimalThenRest(m, rest);
    ParseIntOfUnsigned(Decimal(m) + rest, m);
  }

  /** Input that starts with a decimal digit is read as its magnitude. */
  lemma ParseIntOfUnsigned(u: string, k: nat)
    requires u != [] && '0' <= u[0] <= '9'
    requires ParseMagnitude(u) == Some(k)
    ensures ParseInt(u) == Some(k)
  {
    assert !IsWhitespace(u[0]);
    assert TrimStart(u) == u;
    assert Unsigned(u) == u;
  }

  /** The same with a minus sign in front: `parseInt("-3")` is -3. */
  lemma ParseIntOfNegative(m: nat, rest: string)
    requires EndsNumeral(m, rest)
    ensures ParseInt("-" + Decimal(m) + rest) == Some(-(m as int))
  {
    var d := Decimal(m);
    DecimalThenRest(m, rest);
    ParseIntAfterMinus(d + rest, m);
    AppendAssociative("-", d, rest);
  }

  lemma AppendAssociative(a: string, b: string, c: string)
    ensures a + b + c == a + (b + c)
  {
  }

  /** A minus sign in front of a magnitude negates it. */
  lemma ParseIntAfterMinus(u: string, k: nat)
    requires ParseMagnitude(u) == Some(k)
    ensures ParseInt("-" + u) == Some(-(k as int))
  {
    UnsignedAfterMinus(u);
  }

  lemma UnsignedAfterMinus(u: string)
    ensures Negative("-" + u) && Unsigned("-" + u) == u
  {
    var s := "-" + u;
    assert s[0] == '-' && s[1..] == u;
  }
}
