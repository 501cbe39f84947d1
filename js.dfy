/**
 * JavaScript values as the exporter handles them: the nodes of a parsed
 * XML document, JavaScript numbers, truthiness, property reads, the `||`
 * fallback, and the string and number conversions the exporter applies
 * (`String(v)`, `toLowerCase`, `parseFloat`, `parseInt`, `clean`).
 */
module Js {

  datatype Option<+T> = None | Some(value: T)

  /**
   * One node of a document produced by the XML parser. A number is the exact
   * decimal `mantissa / 10^scale`; an object lists its properties in the order
   * in which `Object.values` visits them.
   */
  datatype Node =
    | Bool(b: bool)
    | Num(mantissa: int, scale: nat)
    | Str(s: string)
    | Arr(items: seq<Node>)
    | Obj(fields: seq<(string, Node)>)

  /** The outcome of an expression that may throw a `TypeError`. */
  datatype Result<+T> = Ok(value: T) | TypeError

  /** The result of a property read: `None` is `undefined`. */
  type Value = Option<Node>

  /** A JavaScript number; the sign of a zero is not distinguished. */
  datatype Number = Finite(r: real) | PosInf | NegInf | NaN

  // ---------------------------------------------------------------------
  // Truthiness, property reads, `||`

  predicate Truthy(v: Value) {
    match v
    case None => false
    case Some(Bool(b)) => b
    case Some(Num(m, _)) => m != 0
    case Some(Str(s)) => s != ""
    case Some(Arr(_)) => true
    case Some(Obj(_)) => true
  }

  /** `a || b`: the first operand when it is truthy, otherwise the second. */
  function Or(a: Value, b: Value): (r: Value)
    ensures Truthy(r) <==> Truthy(a) || Truthy(b)
    ensures Truthy(a) ==> r == a
    ensures !Truthy(a) ==> r == b
  {
    if Truthy(a) then a else b
  }

  /** The value of the first property named `key`, if any. */
  function Lookup(fields: seq<(string, Node)>, key: string): Value {
    if |fields| == 0 then None
    else if fields[0].0 == key then Some(fields[0].1)
    else Lookup(fields[1..], key)
  }

  /** A lookup finds a property of that name, and finds nothing only when there is none. */
  lemma {:induction false} LookupFinds(fields: seq<(string, Node)>, key: string)
    ensures var r := Lookup(fields, key);
      (r.Some? ==> exists i :: 0 <= i < |fields| && fields[i] == (key, r.value)) &&
      (r.None? <==> forall i :: 0 <= i < |fields| ==> fields[i].0 != key)
  {
    if |fields| > 0 && fields[0].0 != key {
      LookupFinds(fields[1..], key);
      var r := Lookup(fields, key);
      if r.Some? {
        var i :| 0 <= i < |fields| - 1 && fields[1..][i] == (key, r.value);
        assert fields[i + 1] == (key, r.value);
      }
      if r.Some? {
        assert fields[0].0 != key;
      } else {
        forall i | 0 <= i < |fields|
          ensures fields[i].0 != key
        {
          if i > 0 {
            assert fields[i] == fields[1..][i - 1];
          }
        }
      }
    }
  }

  /** `n[key]`: only an object has the named properties the exporter reads. */
  function Get(n: Node, key: string): Value {
    if n.Obj? then Lookup(n.fields, key) else None
  }

  /** `v[key]` where reading from `undefined` is not something the exporter does. */
  function GetV(v: Value, key: string): Value {
    if v.Some? then Get(v.value, key) else None
  }

  // ---------------------------------------------------------------------
  // Digits

  predicate IsDigit(c: char) {
    '0' <= c <= '9'
  }

  predicate AllDigits(s: string) {
    forall i :: 0 <= i < |s| ==> IsDigit(s[i])
  }

  function DigitChar(d: nat): (c: char)
    requires d < 10
    ensures IsDigit(c) && (c as int) - ('0' as int) == d
  {
    ('0' as int + d) as char
  }

  function DigitOf(c: char): (d: nat)
    requires IsDigit(c)
    ensures d < 10
  {
    (c as int) - ('0' as int)
  }

  function Pow10(n: nat): (r: nat)
    ensures r > 0
  {
    if n == 0 then 1 else 10 * Pow10(n - 1)
  }

  /** The decimal digits of `a`, without leading zeros. */
  function Digits(a: nat): (s: string)
    ensures |s| > 0 && AllDigits(s)
    ensures a > 0 ==> s[0] != '0'
  {
    if a < 10 then [DigitChar(a)] else Digits(a / 10) + [DigitChar(a % 10)]
  }

  /** The number written by a string of decimal digits. */
  function DigitsValue(s: string): nat
    requires AllDigits(s)
  {
    if s == [] then 0 else 10 * DigitsValue(s[..|s| - 1]) + DigitOf(s[|s| - 1])
  }

  /** Printing a natural number and reading it back gives the same number. */
  lemma {:induction false} DigitsRoundTrip(a: nat)
    ensures DigitsValue(Digits(a)) == a
  {
    if a >= 10 {
      DigitsRoundTrip(a / 10);
      var s := Digits(a);
      assert s[..|s| - 1] == Digits(a / 10);
    }
  }

  function Zeros(n: nat): (s: string)
    ensures |s| == n && AllDigits(s)
  {
    seq(n, _ => '0')
  }

  /** `a == s * 10^z` with `s` not a multiple of ten. */
  function StripZeros(a: nat): (r: (nat, nat))
    requires a > 0
    ensures r.0 > 0 && r.0 % 10 != 0 && a == r.0 * Pow10(r.1)
  {
    if a % 10 == 0 then
      var (s, z) := StripZeros(a / 10);
      assert a == 10 * (a / 10);
      assert s * Pow10(z + 1) == 10 * (s * Pow10(z));
      (s, z + 1)
    else
      (a, 0)
  }

  // ---------------------------------------------------------------------
  // String conversion

  /** The value of a number node. */
  function NumValue(m: int, scale: nat): real {
    m as real / Pow10(scale) as real
  }

  /**
   * `String(x)` for the number `m / 10^scale` (Number::toString of ECMAScript):
   * with `s * 10^(n - k)` the value and `k` the number of digits of `s`, plain
   * digits when `-6 < n <= 21`, exponent notation otherwise.
   */
  function NumText(m: int, scale: nat): string {
    if m == 0 then "0"
    else
      var (s, z) := StripZeros(if m < 0 then -m else m);
      var d := Digits(s);
      var k := |d|;
      var n := k + z - scale;
      var body :=
        if k <= n <= 21 then d + Zeros(n - k)
        else if 0 < n <= 21 then d[..n] + "." + d[n..]
        else if -6 < n <= 0 then "0." + Zeros(-n) + d
        else
          var e := n - 1;
          var exp := (if e > 0 then "+" else "-") + Digits(if e < 0 then -e else e);
          if k == 1 then d + "e" + exp else d[..1] + "." + d[1..] + "e" + exp;
      (if m < 0 then "-" else "") + body
  }

  function Join(parts: seq<string>, sep: string): string {
    if |parts| == 0 then ""
    else if |parts| == 1 then parts[0]
    else parts[0] + sep + Join(parts[1..], sep)
  }

  /** `String(n)`; an array is its elements' texts joined with commas. */
  function Text(n: Node): string {
    match n
    case Bool(b) => if b then "true" else "false"
    case Num(m, e) => NumText(m, e)
    case Str(s) => s
    case Arr(items) => Join(seq(|items|, i requires 0 <= i < |items| => Text(items[i])), ",")
    case Obj(_) => "[object Object]"
  }

  /** `String(v)`, including `"undefined"`. */
  function ToText(v: Value): string {
    match v
    case None => "undefined"
    case Some(n) => Text(n)
  }

  function LowerChar(c: char): char {
    if 'A' <= c <= 'Z' then (c as int + 32) as char else c
  }

  function UpperChar(c: char): char {
    if 'a' <= c <= 'z' then (c as int - 32) as char else c
  }

  /** `toLowerCase` on the ASCII letters. */
  function Lower(s: string): string
  {
    seq(|s|, i requires 0 <= i < |s| => LowerChar(s[i]))
  }

  /** `toUpperCase` on the ASCII letters. */
  function Upper(s: string): string
  {
    seq(|s|, i requires 0 <= i < |s| => UpperChar(s[i]))
  }

  /** Lower-casing twice is lower-casing once. */
  lemma LowerIdempotent(s: string)
    ensures Lower(Lower(s)) == Lower(s)
  {
  }

  /** Characters of JavaScript's `\s` and of the whitespace `parseInt` skips. */
  predicate IsSpace(c: char) {
    c == ' ' || c == '\t' || c == '\n' || c == '\r' || c == '\U{B}' || c == '\U{C}'
    || c == '\U{A0}' || c == '\U{1680}' || ('\U{2000}' <= c <= '\U{200A}')
    || c == '\U{2028}' || c == '\U{2029}' || c == '\U{202F}' || c == '\U{205F}'
    || c == '\U{3000}' || c == '\U{FEFF}'
  }

  // ---------------------------------------------------------------------
  // Number arithmetic (IEEE rounding aside)

  function Neg(a: Number): Number {
    match a
    case Finite(x) => Finite(-x)
    case PosInf => NegInf
    case NegInf => PosInf
    case NaN => NaN
  }

  function Add(a: Number, b: Number): Number {
    if a.NaN? || b.NaN? then NaN
    else if a.Finite? && b.Finite? then Finite(a.r + b.r)
    else if (a == PosInf && b == NegInf) || (a == NegInf && b == PosInf) then NaN
    else if a == PosInf || b == PosInf then PosInf
    else NegInf
  }

  function Sub(a: Number, b: Number): Number {
    Add(a, Neg(b))
  }

  function Sign(a: Number): int {
    match a
    case Finite(x) => if x > 0.0 then 1 else if x < 0.0 then -1 else 0
    case PosInf => 1
    case NegInf => -1
    case NaN => 0
  }

  /** The infinity whose sign is positive exactly when `positive`. */
  function Infinity(positive: bool): Number {
    if positive then PosInf else NegInf
  }

  function Mul(a: Number, b: Number): Number {
    if a.NaN? || b.NaN? then NaN
    else if a.Finite? && b.Finite? then Finite(a.r * b.r)
    else if Sign(a) == 0 || Sign(b) == 0 then NaN
    else Infinity((Sign(a) > 0) == (Sign(b) > 0))
  }

  /** Division; a non-zero number over zero is an infinity, zero over zero NaN. */
  function Div(a: Number, b: Number): Number {
    if a.NaN? || b.NaN? then NaN
    else if a.Finite? && b.Finite? then
      if b.r != 0.0 then Finite(a.r / b.r) else if a.r == 0.0 then NaN else Infinity(a.r > 0.0)
    else if a.Finite? then Finite(0.0)
    else if b.Finite? then Infinity((a == PosInf) == (b.r >= 0.0))
    else NaN
  }

  /** `a > b`; every comparison with NaN is false. */
  predicate Greater(a: Number, b: Number) {
    if a.NaN? || b.NaN? then false
    else if a.Finite? && b.Finite? then a.r > b.r
    else if a == PosInf then b != PosInf
    else b == NegInf && a != NegInf
  }

  /** `a >= b`. */
  predicate AtLeast(a: Number, b: Number) {
    Greater(a, b) || (a == b && !a.NaN?)
  }

  /** A number `parseFloat` or `parseInt` can produce: finite or NaN. */
  predicate Parsed(a: Number) {
    a.Finite? || a.NaN?
  }

  // ---------------------------------------------------------------------
  // clean(v): `v ? parseFloat(v.toString().replace(/[^0-9.-]/g, "")) : 0`

  predicate NumericChar(c: char) {
    IsDigit(c) || c == '.' || c == '-'
  }

  predicate AllNumeric(s: string) {
    forall i :: 0 <= i < |s| ==> NumericChar(s[i])
  }

  /** `replace(/[^0-9.-]/g, "")`. */
  function KeepNumeric(s: string): (r: string)
    ensures AllNumeric(r)
    ensures |r| <= |s|
  {
    if s == [] then []
    else if NumericChar(s[0]) then [s[0]] + KeepNumeric(s[1..])
    else KeepNumeric(s[1..])
  }

  /** `sub` is `s` with some characters deleted. */
  predicate IsSubsequence(sub: string, s: string)
    decreases |s|
  {
    if sub == [] then true
    else if s == [] then false
    else if sub[0] == s[0] then IsSubsequence(sub[1..], s[1..])
    else IsSubsequence(sub, s[1..])
  }

  /**
   * The filtered text keeps every digit, `.` and `-` of the input, in order,
   * and nothing else.
   */
  lemma {:induction false} KeepNumericExact(s: string)
    ensures IsSubsequence(KeepNumeric(s), s)
    ensures forall c :: multiset(KeepNumeric(s))[c] == if NumericChar(c) then multiset(s)[c] else 0
  {
    if s != [] {
      KeepNumericExact(s[1..]);
      assert s == [s[0]] + s[1..];
      if NumericChar(s[0]) {
        assert KeepNumeric(s)[1..] == KeepNumeric(s[1..]);
      }
    }
  }

  /** A text made only of digits, `.` and `-` passes the filter unchanged. */
  lemma {:induction false} KeepNumericIdentity(s: string)
    requires AllNumeric(s)
    ensures KeepNumeric(s) == s
  {
    if s != [] {
      KeepNumericIdentity(s[1..]);
    }
  }

  /** Filtering is idempotent. */
  lemma KeepNumericIdempotent(s: string)
    ensures KeepNumeric(KeepNumeric(s)) == KeepNumeric(s)
  {
    KeepNumericIdentity(KeepNumeric(s));
  }

  /** The longest prefix of `s` that is made of decimal digits. */
  function LeadingDigits(s: string): (r: string)
    ensures AllDigits(r) && r <= s
    ensures |r| < |s| ==> !IsDigit(s[|r|])
  {
    if s != [] && IsDigit(s[0]) then [s[0]] + LeadingDigits(s[1..]) else []
  }

  /** The value of the decimal `ip.fp`. */
  function DecimalValue(ip: string, fp: string): real
    requires AllDigits(ip) && AllDigits(fp)
  {
    DigitsValue(ip) as real + DigitsValue(fp) as real / Pow10(|fp|) as real
  }

  /** The digits after a leading `.`, if `rest` starts with one. */
  function FractionDigits(rest: string): (r: string)
    ensures AllDigits(r)
  {
    if |rest| > 0 && rest[0] == '.' then LeadingDigits(rest[1..]) else ""
  }

  /** `parseFloat` on an unsigned text: the longest `ddd`, `ddd.`, `ddd.ddd` or `.ddd` prefix. */
  function UnsignedFloat(t: string): (r: Number)
    ensures Parsed(r)
  {
    var ip := LeadingDigits(t);
    var fp := FractionDigits(t[|ip|..]);
    if |ip| == 0 && |fp| == 0 then NaN else Finite(DecimalValue(ip, fp))
  }

  /**
   * `parseFloat` on a text made of digits, `.` and `-` only (the texts `clean`
   * gives it): an optional `-`, then an unsigned decimal prefix; NaN when there
   * is none.
   */
  function ParseFloatFiltered(s: string): (r: Number)
    requires AllNumeric(s)
    ensures Parsed(r)
  {
    if |s| > 0 && s[0] == '-' then Neg(UnsignedFloat(s[1..])) else UnsignedFloat(s)
  }

  /** The exporter's tolerant numeric cleaner. */
  function Clean(v: Value): (r: Number)
    ensures !Truthy(v) ==> r == Finite(0.0)
    ensures Parsed(r)
  {
    if !Truthy(v) then Finite(0.0) else ParseFloatFiltered(KeepNumeric(ToText(v)))
  }

  /** `clean(v || 0)` is `clean(v)`: a falsy value cleans to zero either way. */
  lemma CleanOrZero(v: Value)
    ensures Clean(Or(v, Some(Num(0, 0)))) == Clean(v)
  {
    if !Truthy(v) {
      assert !Truthy(Some(Num(0, 0)));
    }
  }

  /** A text whose only numeric characters are `-` and `.` (or none) cleans to NaN when truthy. */
  lemma {:induction false} CleanWithoutDigits(s: string)
    requires s != ""
    requires forall i :: 0 <= i < |s| ==> !IsDigit(s[i])
    ensures Clean(Some(Str(s))) == NaN
  {
    NoDigitsKept(s);
  }

  lemma {:induction false} NoDigitsKept(s: string)
    requires forall i :: 0 <= i < |s| ==> !IsDigit(s[i])
    ensures forall i :: 0 <= i < |KeepNumeric(s)| ==> !IsDigit(KeepNumeric(s)[i])
  {
    if s != [] {
      NoDigitsKept(s[1..]);
    }
  }

  /** The text `-ip.fp`, with the sign only when `neg` and the point only when `fp` is not empty. */
  function DecimalText(neg: bool, ip: string, fp: string): (s: string)
    requires AllDigits(ip) && AllDigits(fp)
    ensures AllNumeric(s)
  {
    var tail := if |fp| > 0 then "." + fp else "";
    NumericConcat(".", fp);
    NumericConcat(ip, tail);
    NumericConcat(if neg then "-" else "", ip + tail);
    (if neg then "-" else "") + (ip + tail)
  }

  /** A plain decimal `ddd.ddd` (optionally negative) cleans to its value. */
  lemma CleanDecimal(neg: bool, ip: string, fp: string)
    requires AllDigits(ip) && AllDigits(fp) && |ip| > 0
    ensures Clean(Some(Str(DecimalText(neg, ip, fp)))) == Finite(if neg then -DecimalValue(ip, fp) else DecimalValue(ip, fp))
  {
    var s := DecimalText(neg, ip, fp);
    ParseFloatDecimal(neg, ip, fp);
    KeepNumericIdentity(s);
    assert Truthy(Some(Str(s)));
    assert Clean(Some(Str(s))) == ParseFloatFiltered(s);
  }

  lemma ParseFloatDecimal(neg: bool, ip: string, fp: string)
    requires AllDigits(ip) && AllDigits(fp) && |ip| > 0
    ensures ParseFloatFiltered(DecimalText(neg, ip, fp)) == Finite(if neg then -DecimalValue(ip, fp) else DecimalValue(ip, fp))
  {
    var t := ip + (if |fp| > 0 then "." + fp else "");
    var s := DecimalText(neg, ip, fp);
    UnsignedDecimal(ip, fp);
    if neg {
      assert s[0] == '-' && s[1..] == t;
    } else {
      assert s == t && s[0] == ip[0];
    }
  }

  lemma UnsignedDecimal(ip: string, fp: string)
    requires AllDigits(ip) && AllDigits(fp) && |ip| > 0
    ensures UnsignedFloat(ip + (if |fp| > 0 then "." + fp else "")) == Finite(DecimalValue(ip, fp))
  {
    var tail := if |fp| > 0 then "." + fp else "";
    LeadingDigitsOf(ip, tail);
    assert (ip + tail)[|ip|..] == tail;
    if |fp| > 0 {
      assert tail[1..] == fp + "";
      LeadingDigitsOf(fp, "");
    }
    assert FractionDigits(tail) == fp;
  }

  lemma NumericConcat(a: string, b: string)
    requires AllNumeric(a) && AllNumeric(b)
    ensures AllNumeric(a + b)
  {
    forall i | 0 <= i < |a + b|
      ensures NumericChar((a + b)[i])
    {
      if i < |a| { assert (a + b)[i] == a[i]; } else { assert (a + b)[i] == b[i - |a|]; }
    }
  }

  lemma {:induction false} LeadingDigitsOf(d: string, rest: string)
    requires AllDigits(d)
    requires rest == [] || !IsDigit(rest[0])
    ensures LeadingDigits(d + rest) == d
  {
    if d != [] {
      assert (d + rest)[1..] == d[1..] + rest;
      LeadingDigitsOf(d[1..], rest);
    }
  }

  // ---------------------------------------------------------------------
  // parseInt(v) with no radix

  function SkipSpaces(s: string): (r: string)
    ensures |r| <= |s| && r == s[|s| - |r|..]
    ensures r == [] || !IsSpace(r[0])
  {
    if s != [] && IsSpace(s[0]) then SkipSpaces(s[1..]) else s
  }

  predicate IsHexDigit(c: char) {
    IsDigit(c) || 'a' <= c <= 'f' || 'A' <= c <= 'F'
  }

  function HexDigitOf(c: char): nat
    requires IsHexDigit(c)
  {
    if IsDigit(c) then DigitOf(c)
    else if 'a' <= c <= 'f' then (c as int) - ('a' as int) + 10
    else (c as int) - ('A' as int) + 10
  }

  function LeadingHex(s: string): (r: string)
    ensures r <= s && forall i :: 0 <= i < |r| ==> IsHexDigit(r[i])
  {
    if s != [] && IsHexDigit(s[0]) then [s[0]] + LeadingHex(s[1..]) else []
  }

  function HexValue(s: string): nat
    requires forall i :: 0 <= i < |s| ==> IsHexDigit(s[i])
  {
    if s == [] then 0 else 16 * HexValue(s[..|s| - 1]) + HexDigitOf(s[|s| - 1])
  }

  /** The digits `parseInt` reads after the sign: hexadecimal after `0x`/`0X`, else decimal. */
  function UnsignedInt(u: string): (r: Number)
    ensures Parsed(r)
  {
    if |u| >= 2 && u[0] == '0' && (u[1] == 'x' || u[1] == 'X') then
      var h := LeadingHex(u[2..]);
      if |h| == 0 then NaN else Finite(HexValue(h) as real)
    else
      var d := LeadingDigits(u);
      if |d| == 0 then NaN else Finite(DigitsValue(d) as real)
  }

  /**
   * `parseInt(s)`: leading whitespace skipped, an optional sign, a `0x`/`0X`
   * prefix switching to base 16, then the longest run of digits; NaN if none.
   */
  function ParseIntText(s: string): (r: Number)
    ensures Parsed(r)
  {
    var t := SkipSpaces(s);
    if |t| > 0 && t[0] == '-' then Neg(UnsignedInt(t[1..]))
    else if |t| > 0 && t[0] == '+' then UnsignedInt(t[1..])
    else UnsignedInt(t)
  }

  /** `parseInt(v)`: the argument is converted to a string first. */
  function ParseInt(v: Value): (r: Number)
    ensures Parsed(r)
  {
    ParseIntText(ToText(v))
  }

  /** `parseInt` of a decimal digit string is the number it writes. */
  lemma ParseIntDigits(d: string)
    requires AllDigits(d) && |d| > 0
    requires |d| < 2 || (d[1] != 'x' && d[1] != 'X')
    ensures ParseInt(Some(Str(d))) == Finite(DigitsValue(d) as real)
  {
    assert ToText(Some(Str(d))) == d;
    ParseIntTextDigits(d);
  }

  lemma ParseIntTextDigits(d: string)
    requires AllDigits(d) && |d| > 0
    requires |d| < 2 || (d[1] != 'x' && d[1] != 'X')
    ensures ParseIntText(d) == Finite(DigitsValue(d) as real)
  {
    SkipDigits(d);
    assert d[0] != '-' && d[0] != '+';
    UnsignedDigits(d);
  }

  lemma SkipDigits(d: string)
    requires AllDigits(d) && |d| > 0
    ensures SkipSpaces(d) == d
  {
    assert !IsSpace(d[0]);
  }

  lemma UnsignedDigits(d: string)
    requires AllDigits(d) && |d| > 0
    requires |d| < 2 || (d[1] != 'x' && d[1] != 'X')
    ensures UnsignedInt(d) == Finite(DigitsValue(d) as real)
  {
    LeadingDigitsOf(d, "");
    assert d + "" == d;
  }

  /** `parseInt` of a natural-number node below 10^21 gives that number back. */
  lemma ParseIntOfNatural(a: nat)
    requires a < Pow10(21)
    ensures ParseInt(Some(Num(a, 0))) == Finite(a as real)
  {
    ParseIntOfNumber(a);
    if a == 0 {
      ParseIntOfZero(a);
    } else {
      ParseIntOfPositive(a);
    }
  }

  lemma ParseIntOfNumber(a: nat)
    ensures ParseInt(Some(Num(a, 0))) == ParseIntText(NumText(a, 0))
  {
  }

  lemma ParseIntOfZero(a: nat)
    requires a == 0
    ensures ParseIntText(NumText(a, 0)) == Finite(a as real)
  {
    var d := NumText(a, 0);
    ZeroDigit(d);
    ParseIntTextDigits(d);
  }

  lemma ZeroDigit(d: string)
    requires d == "0"
    ensures AllDigits(d) && |d| == 1 && DigitsValue(d) == 0
  {
    assert d[..0] == [];
  }

  lemma ParseIntOfPositive(a: nat)
    requires 0 < a < Pow10(21)
    ensures ParseIntText(NumText(a, 0)) == Finite(a as real)
  {
    NaturalText(a);
    DigitsRoundTrip(a);
    ParseIntTextDigits(Digits(a));
  }

  /** Below 10^21 a natural number prints as its plain digits. */
  lemma NaturalText(a: nat)
    requires 0 < a
    ensures a < Pow10(21) ==> NumText(a, 0) == Digits(a)
    ensures Digits(a)[0] != '0' && (|Digits(a)| < 2 || (Digits(a)[1] != 'x' && Digits(a)[1] != 'X'))
  {
    var (s, z) := StripZeros(a);
    if a < Pow10(21) {
      DigitsOfScaled(s, z);
      DigitsLength(a);
      assert Digits(a) == Digits(s) + Zeros(z);
    }
  }

  /** Appending `z` zeros to the digits multiplies by 10^z. */
  lemma {:induction false} DigitsOfScaled(s: nat, z: nat)
    requires s > 0
    ensures Digits(s * Pow10(z)) == Digits(s) + Zeros(z)
  {
    if z > 0 {
      DigitsOfScaled(s, z - 1);
      var b := s * Pow10(z - 1);
      assert b > 0;
      MulTen(s, Pow10(z - 1));
      var a := 10 * b;
      assert a / 10 == b && a % 10 == 0;
      assert Digits(a) == Digits(b) + [DigitChar(0)];
      assert Zeros(z) == Zeros(z - 1) + "0";
    }
  }

  lemma MulTen(s: nat, p: nat)
    ensures s * (10 * p) == 10 * (s * p)
  {
  }

  /** A number below 10^k has at most k digits. */
  lemma {:induction false} DigitsLength(a: nat)
    ensures forall k: nat :: a < Pow10(k) ==> |Digits(a)| <= k || (a == 0 && k == 0)
  {
    if a >= 10 {
      DigitsLength(a / 10);
      forall k: nat | a < Pow10(k)
        ensures |Digits(a)| <= k
      {
        assert k > 0;
        assert a / 10 < Pow10(k - 1);
      }
    }
  }

  // ---------------------------------------------------------------------
  // Loose equality against a string

  /** `s` without its trailing white space. */
  function TrimEnd(s: string): (r: string)
    ensures r <= s
    ensures r == [] || !IsSpace(r[|r| - 1])
  {
    if s != [] && IsSpace(s[|s| - 1]) then TrimEnd(s[..|s| - 1]) else s
  }

  /** The base a `0x`, `0o` or `0b` prefix selects, or 0 for any other letter. */
  function RadixBase(c: char): nat {
    if c == 'x' || c == 'X' then 16
    else if c == 'o' || c == 'O' then 8
    else if c == 'b' || c == 'B' then 2
    else 0
  }

  /** A non-empty run of digits of base `b`. */
  predicate RadixDigits(s: string, b: nat) {
    |s| > 0 && forall i :: 0 <= i < |s| ==> IsHexDigit(s[i]) && HexDigitOf(s[i]) < b
  }

  function RadixValue(s: string, b: nat): nat
    requires forall i :: 0 <= i < |s| ==> IsHexDigit(s[i])
  {
    if s == [] then 0 else b * RadixValue(s[..|s| - 1], b) + HexDigitOf(s[|s| - 1])
  }

  /** The exponent `e`/`E`, an optional sign and digits, 0 for the empty text, `None` for anything else. */
  function Exponent(s: string): Option<int> {
    if s == [] then Some(0)
    else if s[0] != 'e' && s[0] != 'E' then None
    else
      var signed := |s| > 1 && (s[1] == '+' || s[1] == '-');
      var d := if signed then s[2..] else s[1..];
      if d == [] || !AllDigits(d) then None
      else
        var v: int := DigitsValue(d);
        Some(if signed && s[1] == '-' then -v else v)
  }

  /** `m * 10^e`. */
  function Scale(m: real, e: int): real {
    if e >= 0 then m * Pow10(e) as real else m / Pow10(-e) as real
  }

  /**
   * An unsigned decimal literal: `Infinity`, or `ddd`, `ddd.`, `ddd.ddd` or `.ddd`
   * with an optional exponent, covering the whole text; NaN for anything else.
   */
  function UnsignedDecimalLiteral(t: string): Number {
    if t == "Infinity" then PosInf
    else
      var ip := LeadingDigits(t);
      var rest := t[|ip|..];
      var dot := |rest| > 0 && rest[0] == '.';
      var fp := if dot then LeadingDigits(rest[1..]) else "";
      var e := Exponent(if dot then rest[1 + |fp|..] else rest);
      if (|ip| == 0 && |fp| == 0) || e.None? then NaN else Finite(Scale(DecimalValue(ip, fp), e.value))
  }

  /**
   * ToNumber applied to a string (section 7.1.4.1.1 of ECMA-262): surrounding
   * white space is ignored, the empty text is 0, a `0x`, `0o` or `0b` literal is
   * read in its base, and otherwise the whole text must be an optionally signed
   * decimal literal.
   */
  function StringToNumber(s: string): Number {
    var t := TrimEnd(SkipSpaces(s));
    if t == [] then Finite(0.0)
    else if |t| > 2 && t[0] == '0' && RadixBase(t[1]) > 0 then
      var b := RadixBase(t[1]);
      if RadixDigits(t[2..], b) then Finite(RadixValue(t[2..], b) as real) else NaN
    else if t[0] == '-' then Neg(UnsignedDecimalLiteral(t[1..]))
    else if t[0] == '+' then UnsignedDecimalLiteral(t[1..])
    else UnsignedDecimalLiteral(t)
  }

  /** A digit or a letter is not white space. */
  lemma NotSpace(c: char)
    requires IsDigit(c) || 'a' <= c <= 'z' || 'A' <= c <= 'Z'
    ensures !IsSpace(c)
  {
  }

  lemma NotInfinity(t: string)
    requires t != [] && t[0] != 'I'
    ensures t != "Infinity"
  {
    assert "Infinity"[0] == 'I';
  }

  /** A text of decimal digits reads as its value. */
  lemma StringToNumberDigits(d: string)
    requires |d| > 0 && AllDigits(d)
    ensures StringToNumber(d) == Finite(DigitsValue(d) as real)
  {
    NotSpace(d[0]);
    NotSpace(d[|d| - 1]);
    assert SkipSpaces(d) == d;
    assert TrimEnd(d) == d;
    assert |d| > 2 ==> RadixBase(d[1]) == 0;
    assert d[0] != '-' && d[0] != '+';
    DecimalLiteralDigits(d);
  }

  /** A text of decimal digits is an unsigned decimal literal of its value. */
  lemma DecimalLiteralDigits(d: string)
    requires |d| > 0 && AllDigits(d)
    ensures UnsignedDecimalLiteral(d) == Finite(DigitsValue(d) as real)
  {
    NotInfinity(d);
    LeadingDigitsWhole(d);
    assert d[|d|..] == [];
    assert Exponent([]) == Some(0);
    DecimalValueWhole(d);
    ScaleZero(DigitsValue(d) as real);
  }

  lemma LeadingDigitsWhole(d: string)
    requires AllDigits(d)
    ensures LeadingDigits(d) == d
  {
    LeadingDigitsOf(d, []);
    assert d + [] == d;
  }

  lemma DecimalValueWhole(d: string)
    requires AllDigits(d)
    ensures DecimalValue(d, []) == DigitsValue(d) as real
  {
    assert DigitsValue([]) == 0 && Pow10(0) == 1;
  }

  lemma ScaleZero(x: real)
    ensures Scale(x, 0) == x
  {
    assert Pow10(0) == 1;
  }

  /** A text that starts and ends with a lower-case letter other than `e` is not a number. */
  lemma StringToNumberWord(w: string)
    requires |w| > 0 && 'a' <= w[0] <= 'z' && w[0] != 'e' && 'a' <= w[|w| - 1] <= 'z'
    ensures StringToNumber(w) == NaN
  {
    NotSpace(w[0]);
    NotSpace(w[|w| - 1]);
    assert SkipSpaces(w) == w;
    assert TrimEnd(w) == w;
    NotInfinity(w);
    assert LeadingDigits(w) == [];
    assert w[0..] == w;
    assert Exponent(w) == None;
    assert UnsignedDecimalLiteral(w) == NaN;
  }

  lemma StringToNumberOne()
    ensures StringToNumber("1") == Finite(1.0)
  {
    var o := "1";
    assert AllDigits(o) && DigitsValue(o) == 1;
    StringToNumberDigits(o);
  }

  lemma StringToNumberUp()
    ensures StringToNumber("up") == NaN
  {
    var u := "up";
    assert u[0] == 'u' && u[|u| - 1] == 'p';
    StringToNumberWord(u);
  }

  /** `x == y` on two numbers (section 6.1.6.1.13 of ECMA-262): NaN equals nothing. */
  predicate NumberEquals(a: Number, b: Number) {
    match a
    case Finite(x) => b.Finite? && b.r == x
    case PosInf => b.PosInf?
    case NegInf => b.NegInf?
    case NaN => false
  }

  /**
   * `v == t` for a property read `v` and a string `t`, as IsLooselyEqual
   * (section 7.2.14 of ECMA-262) decides it: `undefined` equals no string, a
   * string compares as text, a number or a boolean against `ToNumber(t)`, and
   * an array or object through its primitive value, which is its string.
   */
  predicate LooselyEqualsString(v: Value, t: string) {
    match v
    case None => false
    case Some(Str(s)) => s == t
    case Some(Num(m, e)) => NumberEquals(Finite(NumValue(m, e)), StringToNumber(t))
    case Some(Bool(b)) => NumberEquals(Finite(if b then 1.0 else 0.0), StringToNumber(t))
    case Some(Arr(_)) => Text(v.value) == t
    case Some(Obj(_)) => Text(v.value) == t
  }

  /** An array or an object compares with a string through its own string. */
  lemma LooselyEqualsObject(v: Value, t: string)
    requires v.Some? && (v.value.Arr? || v.value.Obj?)
    ensures LooselyEqualsString(v, t) == (Text(v.value) == t)
  {
    var x := Text(v.value);
    assert LooselyEqualsString(v, t) == (x == t);
  }

  lemma ObjectText(n: Node)
    requires n.Obj?
    ensures Text(n) == "[object Object]" && |Text(n)| == 15
  {
  }
}
