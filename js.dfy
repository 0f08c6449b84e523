/** Optional values, as the rest of the model uses them. */
module Wrappers {

  datatype Option<+T> = None | Some(value: T)
}

/** Facts about sequences, stated once for any element type. */
module Sequences {

  lemma TakeAll<T>(s: seq<T>)
    ensures s[..|s|] == s
  {
  }

  lemma TakeSnoc<T>(s: seq<T>, i: nat)
    requires i < |s|
    ensures s[..i] + [s[i]] == s[..i + 1]
  {
  }

  lemma TakeOfTake<T>(s: seq<T>, i: nat, j: nat)
    requires i <= j <= |s|
    ensures s[..j][..i] == s[..i]
  {
  }

  lemma TakeLast<T>(s: seq<T>, i: nat)
    requires i < |s|
    ensures |s[..i + 1]| == i + 1 && s[..i + 1][i] == s[i] && s[..i + 1][..i] == s[..i]
  {
  }

  lemma TakeConcat<T>(s: seq<T>, i: nat, j: nat)
    requires i <= j <= |s|
    ensures s[..i] + s[i..j] == s[..j]
  {
  }

  lemma IndexAppend<T>(a: seq<T>, b: seq<T>, j: nat)
    requires j < |b|
    ensures (a + b)[|a| + j] == b[j]
  {
  }

  /** In a sequence of pairs, pair `n` of `head + tail` with `head` one pair long is pair
      `n - 1` of `tail`. */
  lemma PairShift<T>(head: seq<T>, tail: seq<T>, n: nat)
    requires |head| == 2 && 1 <= n && 2 * n + 1 < 2 + |tail|
    ensures (head + tail)[2 * n] == tail[2 * n - 2] && (head + tail)[2 * n + 1] == tail[2 * n - 1]
  {
  }

  lemma SnocTake<T>(s: seq<T>, x: T)
    ensures (s + [x])[..|s|] == s && (s + [x])[|s|] == x
  {
  }

  lemma AppendHeadTail<T>(a: seq<T>, b: seq<T>)
    requires a != []
    ensures (a + b)[0] == a[0] && (a + b)[1..] == a[1..] + b
  {
  }

  lemma AppendEmpty<T>(a: seq<T>, b: seq<T>)
    ensures [] + b == b && a + [] == a
  {
  }

  lemma DropTail<T>(s: seq<T>, i: nat)
    requires i < |s|
    ensures s[i..][0] == s[i] && s[i..][1..] == s[i + 1..]
  {
  }

  lemma Split<T>(s: seq<T>, i: nat)
    requires i <= |s|
    ensures s[..i] + s[i..] == s
  {
  }

  lemma AppendAssoc<T>(a: seq<T>, b: seq<T>, c: seq<T>)
    ensures a + (b + c) == (a + b) + c
  {
  }
}

/**
 * The fragment of JavaScript semantics that the handlers rely on: dynamically typed
 * values, truthiness, property access, String() conversion, `trim`, `parseInt(s, 10)`,
 * `parseInt(s)` with no radix, and `Math.ceil(a / b)` on integers.
 */
module Js {
  import opened Wrappers

  /** A JavaScript value as a handler sees it: JSON data, plus `undefined` for a missing property.
      Numbers are integers here (fractional numbers are not modelled). */
  datatype Value =
    | Undefined
    | Null
    | Bool(b: bool)
    | Num(n: int)
    | Str(s: string)
    | Arr(items: seq<Value>)
    | Obj(props: map<string, Value>)

  /** JavaScript truthiness: `false`, `0`, `""`, `null` and `undefined` are falsy. */
  predicate Truthy(v: Value) {
    match v
    case Undefined => false
    case Null => false
    case Bool(b) => b
    case Num(n) => n != 0
    case Str(s) => s != ""
    case Arr(_) => true
    case Obj(_) => true
  }

  /** Property access on `null` or `undefined` throws. */
  predicate Nullish(v: Value) {
    v.Undefined? || v.Null?
  }

  /** `v?.name`: the named property of an object; `undefined` for a missing property and for
      anything that is not an object (none of the property names used here exist on arrays,
      strings or numbers). */
  function Get(v: Value, name: string): Value {
    if v.Obj? && name in v.props then v.props[name] else Undefined
  }

  /** `v?.p0?.p1?...`: a chain of optional property accesses. */
  function At(v: Value, path: seq<string>): Value
    decreases |path|
  {
    if path == [] then v else At(Get(v, path[0]), path[1..])
  }

  /** `typeof v === "string"` and the string itself. */
  function Text(v: Value): Option<string> {
    if v.Str? then Some(v.s) else None
  }

  // ---------------------------------------------------------------------------------------
  // Decimal digits

  predicate IsDigit(c: char) {
    '0' <= c <= '9'
  }

  predicate AllDigits(s: string) {
    forall i :: 0 <= i < |s| ==> IsDigit(s[i])
  }

  function DigitChar(d: int): (c: char)
    requires 0 <= d < 10
    ensures IsDigit(c) && c as int - '0' as int == d
  {
    ('0' as int + d) as char
  }

  /** The shortest decimal spelling of a natural number. */
  function NatToDecimal(n: nat): (r: string)
    ensures |r| > 0 && AllDigits(r)
    decreases n
  {
    if n < 10 then [DigitChar(n)] else NatToDecimal(n / 10) + [DigitChar(n % 10)]
  }

  /** From this magnitude on, `String(n)` writes a number in exponent notation. */
  const EXPONENT_THRESHOLD: int := 1_000_000_000_000_000_000_000

  /** The first decimal digit of a natural number. */
  function LeadingDigit(m: nat): (d: nat)
    ensures d < 10
    ensures m > 0 ==> d > 0
    decreases m
  {
    if m < 10 then m else LeadingDigit(m / 10)
  }

  /** `s` without its trailing zeros. */
  function DropTrailingZeros(s: string): (r: string)
    ensures r == [] || r[|r| - 1] != '0'
    decreases |s|
  {
    if s != [] && s[|s| - 1] == '0' then DropTrailingZeros(s[..|s| - 1]) else s
  }

  /** Exponent notation: the leading digit, then the other significant digits after a point
      (no point when they are all zeros), then "e+" and the power of ten, as "1e+21" or "1.5e+21". */
  function Exponential(m: nat): (r: string)
    ensures |r| >= 2 && r[0] == NatToDecimal(m)[0] && (r[1] == '.' || r[1] == 'e')
  {
    var ds := NatToDecimal(m);
    var fraction := DropTrailingZeros(ds[1..]);
    [ds[0]] + (if fraction == [] then "" else "." + fraction) + "e+" + NatToDecimal(|ds| - 1)
  }

  /** `String(m)` for a natural number: its shortest decimal spelling below 1e21, exponent
      notation from there on. Either way it starts with a digit, and no "x" follows that digit. */
  function Spelling(m: nat): (r: string)
    ensures r != [] && IsDigit(r[0])
    ensures |r| >= 2 ==> IsDigit(r[1]) || r[1] == '.' || r[1] == 'e'
  {
    if m < EXPONENT_THRESHOLD then NatToDecimal(m) else Exponential(m)
  }

  /** `String(n)` for an integer. */
  function NumberToString(n: int): string {
    if n < 0 then "-" + Spelling(-n) else Spelling(n)
  }

  /** The number a string of decimal digits denotes. */
  function DigitsValue(ds: string): nat
    requires AllDigits(ds)
    decreases |ds|
  {
    if ds == [] then 0
    else DigitsValue(ds[..|ds| - 1]) * 10 + (ds[|ds| - 1] as int - '0' as int)
  }

  /** The longest prefix of `s` made of decimal digits. */
  function DigitPrefix(s: string): (r: string)
    ensures AllDigits(r) && r <= s
    ensures |r| < |s| ==> !IsDigit(s[|r|])
    decreases |s|
  {
    if s != [] && IsDigit(s[0]) then [s[0]] + DigitPrefix(s[1..]) else []
  }

  // ---------------------------------------------------------------------------------------
  // Hexadecimal digits

  predicate IsHex(c: char) {
    ('0' <= c <= '9') || ('a' <= c <= 'f') || ('A' <= c <= 'F')
  }

  predicate AllHex(s: string) {
    forall i :: 0 <= i < |s| ==> IsHex(s[i])
  }

  function HexValue(c: char): (d: int)
    requires IsHex(c)
    ensures 0 <= d < 16
  {
    if '0' <= c <= '9' then c as int - '0' as int
    else if 'a' <= c <= 'f' then c as int - 'a' as int + 10
    else c as int - 'A' as int + 10
  }

  /** The number a string of hexadecimal digits denotes. */
  function HexDigitsValue(hs: string): nat
    requires AllHex(hs)
    decreases |hs|
  {
    if hs == [] then 0
    else HexDigitsValue(hs[..|hs| - 1]) * 16 + HexValue(hs[|hs| - 1])
  }

  /** The longest prefix of `s` made of hexadecimal digits. */
  function HexPrefix(s: string): (r: string)
    ensures AllHex(r) && r <= s
    ensures |r| < |s| ==> !IsHex(s[|r|])
    decreases |s|
  {
    if s != [] && IsHex(s[0]) then [s[0]] + HexPrefix(s[1..]) else []
  }

  // ---------------------------------------------------------------------------------------
  // String conversion

  /** `String(v)`. Arrays are joined with "," and their null or undefined elements become empty. */
  function ToStr(v: Value): string
    decreases v
  {
    match v
    case Undefined => "undefined"
    case Null => "null"
    case Bool(b) => if b then "true" else "false"
    case Num(n) => NumberToString(n)
    case Str(s) => s
    case Arr(items) => JoinItems(items)
    case Obj(_) => "[object Object]"
  }

  function JoinItems(items: seq<Value>): string
    decreases items, 0
  {
    if items == [] then ""
    else
      var last := items[|items| - 1];
      var s := if last.Undefined? || last.Null? then "" else ToStr(last);
      if |items| == 1 then s else JoinItems(items[..|items| - 1]) + "," + s
  }

  // ---------------------------------------------------------------------------------------
  // Whitespace, trim and parseInt

  /** The characters `trim` and `parseInt` skip: ECMAScript WhiteSpace and LineTerminator. */
  predicate IsWhite(c: char) {
    var u := c as int;
    u == 0x09 || u == 0x0A || u == 0x0B || u == 0x0C || u == 0x0D || u == 0x20 ||
    u == 0xA0 || u == 0x1680 || (0x2000 <= u <= 0x200A) ||
    u == 0x2028 || u == 0x2029 || u == 0x202F || u == 0x205F || u == 0x3000 || u == 0xFEFF
  }

  predicate AllWhite(s: string) {
    forall i :: 0 <= i < |s| ==> IsWhite(s[i])
  }

  /** `s` without its leading whitespace. */
  function TrimStart(s: string): string
    decreases |s|
  {
    if s != [] && IsWhite(s[0]) then TrimStart(s[1..]) else s
  }

  /** `s` without its trailing whitespace. */
  function TrimEnd(s: string): string
    decreases |s|
  {
    if s != [] && IsWhite(s[|s| - 1]) then TrimEnd(s[..|s| - 1]) else s
  }

  /** `s.trim()`. */
  function Trim(s: string): string {
    TrimEnd(TrimStart(s))
  }

  /** `parseInt(s, 10)`, with `None` for NaN: leading whitespace is skipped, one sign is
      accepted, and the longest run of digits that follows is read; anything after it is ignored. */
  function ParseInt(s: string): Option<int> {
    ParseSigned(TrimStart(s), false)
  }

  /** `parseInt(s)` with no radix: the same, except that a "0x" or "0X" after the sign makes
      the digits that follow it hexadecimal. */
  function ParseIntAuto(s: string): Option<int> {
    ParseSigned(TrimStart(s), true)
  }

  /** `parseInt` once the leading whitespace is gone: an optional sign, then the magnitude. */
  function ParseSigned(t: string, detectHex: bool): Option<int> {
    var negative := t != [] && t[0] == '-';
    var unsigned := if t != [] && (t[0] == '-' || t[0] == '+') then t[1..] else t;
    match ParseMagnitude(unsigned, detectHex)
    case None => None
    case Some(m) => Some(if negative then -m else m)
  }

  predicate HasHexPrefix(u: string) {
    |u| >= 2 && u[0] == '0' && (u[1] == 'x' || u[1] == 'X')
  }

  /** The digits after the sign: hexadecimal ones after a "0x" prefix when that is detected,
      decimal ones otherwise. */
  function ParseMagnitude(u: string, detectHex: bool): Option<int> {
    if detectHex && HasHexPrefix(u) then ParseHexDigits(u[2..]) else ParseDigits(u)
  }

  /** The value of the leading digits, `None` when there are none. */
  function ParseDigits(u: string): Option<int> {
    var digits := DigitPrefix(u);
    if digits == [] then None else Some(DigitsValue(digits))
  }

  /** The value of the leading hexadecimal digits, `None` when there are none. */
  function ParseHexDigits(u: string): Option<int> {
    var digits := HexPrefix(u);
    if digits == [] then None else Some(HexDigitsValue(digits))
  }

  /** `Math.ceil(a / b)` for integers and a positive divisor: the least q with a <= q * b. */
  function CeilDiv(a: int, b: int): (q: int)
    requires b > 0
    ensures (q - 1) * b < a <= q * b
    ensures a > 0 ==> q > 0
    ensures a >= 0 ==> q >= 0
  {
    var q := (a + b - 1) / b;
    assert a + b - 1 == q * b + (a + b - 1) % b;
    assert a > 0 ==> q * b > 0;
    q
  }

  // ---------------------------------------------------------------------------------------
  // Properties

  lemma {:induction false} TrimStartEmptyIffAllWhite(s: string)
    ensures TrimStart(s) == "" <==> AllWhite(s)
    decreases |s|
  {
    if s != [] {
      TrimStartEmptyIffAllWhite(s[1..]);
      assert forall i :: 0 < i < |s| ==> s[i] == s[1..][i - 1];
    }
  }

  /** What `trimStart` leaves is a suffix of its input, and does not start with whitespace. */
  lemma {:induction false} TrimStartSuffix(s: string)
    ensures var r := TrimStart(s);
      |r| <= |s| && r == s[|s| - |r|..] && (r != [] ==> !IsWhite(r[0]))
    decreases |s|
  {
    if s != [] && IsWhite(s[0]) {
      TrimStartSuffix(s[1..]);
    }
  }

  lemma {:induction false} TrimEndEmptyIffAllWhite(s: string)
    ensures TrimEnd(s) == "" <==> AllWhite(s)
    decreases |s|
  {
    if s != [] {
      TrimEndEmptyIffAllWhite(s[..|s| - 1]);
      assert forall i :: 0 <= i < |s| - 1 ==> s[i] == s[..|s| - 1][i];
    }
  }

  /** `trim()` yields the empty string exactly when every character is whitespace. */
  lemma TrimEmptyIffAllWhite(s: string)
    ensures Trim(s) == "" <==> AllWhite(s)
  {
    var t := TrimStart(s);
    TrimStartEmptyIffAllWhite(s);
    TrimEndEmptyIffAllWhite(t);
    TrimStartSuffix(s);
    if t != [] {
      assert t[0] == s[|s| - |t|];
    }
  }

  lemma {:induction false} DigitsValueOfDecimal(n: nat)
    ensures DigitsValue(NatToDecimal(n)) == n
    decreases n
  {
    var ds := NatToDecimal(n);
    if n >= 10 {
      DigitsValueOfDecimal(n / 10);
      assert ds[..|ds| - 1] == NatToDecimal(n / 10);
    }
  }

  lemma {:induction false} DigitPrefixOfDigits(ds: string, rest: string)
    requires AllDigits(ds)
    requires rest == [] || !IsDigit(rest[0])
    ensures DigitPrefix(ds + rest) == ds
    decreases |ds|
  {
    if ds != [] {
      assert (ds + rest)[1..] == ds[1..] + rest;
      DigitPrefixOfDigits(ds[1..], rest);
    } else {
      assert ds + rest == rest;
    }
  }

  lemma NoLeadingWhite(ds: string, rest: string)
    requires ds != [] && (IsDigit(ds[0]) || ds[0] == '-' || ds[0] == '+')
    ensures TrimStart(ds + rest) == ds + rest
  {
    assert (ds + rest)[0] == ds[0];
  }

  lemma ParseDigitsOfDigits(ds: string, rest: string)
    requires ds != [] && AllDigits(ds)
    requires rest == [] || !IsDigit(rest[0])
    ensures ParseDigits(ds + rest) == Some(DigitsValue(ds))
  {
    DigitPrefixOfDigits(ds, rest);
  }

  /** Unsigned text: `parseInt` reads the leading digits. */
  lemma ParseIntOfUnsigned(t: string, v: int)
    requires t != [] && IsDigit(t[0]) && ParseDigits(t) == Some(v)
    ensures ParseInt(t) == Some(v)
  {
    NoLeadingWhite(t, []);
    assert t + [] == t;
  }

  /** A minus sign, then text whose leading digits are read as `v`. */
  lemma ParseIntOfNegative(t: string, v: int)
    requires ParseDigits(t) == Some(v)
    ensures ParseInt("-" + t) == Some(-v)
  {
    NoLeadingWhite("-", t);
    assert ("-" + t)[1..] == t;
  }

  /** The spelling of a natural number starts with its leading digit. */
  lemma {:induction false} LeadingDigitSpelled(m: nat)
    ensures NatToDecimal(m)[0] == DigitChar(LeadingDigit(m))
    decreases m
  {
    if m >= 10 {
      LeadingDigitSpelled(m / 10);
      assert NatToDecimal(m)[0] == NatToDecimal(m / 10)[0];
    }
  }

  /** The digits `parseInt` finds at the start of `String(m)` below 1e21: all of `m`. */
  lemma {:induction false} SpelledDigits(m: nat, rest: string)
    requires m < EXPONENT_THRESHOLD
    requires rest == [] || !IsDigit(rest[0])
    ensures ParseDigits(Spelling(m) + rest) == Some(m)
  {
    DigitsValueOfDecimal(m);
    ParseDigitsOfDigits(NatToDecimal(m), rest);
  }

  /** From 1e21 on only the leading digit, since a point or an "e" follows it. */
  lemma {:induction false} SpelledLeadingDigit(m: nat, rest: string)
    requires m >= EXPONENT_THRESHOLD
    requires rest == [] || !IsDigit(rest[0])
    ensures ParseDigits(Spelling(m) + rest) == Some(LeadingDigit(m))
  {
    var r := Exponential(m);
    LeadingDigitSpelled(m);
    assert r + rest == [r[0]] + (r[1..] + rest);
    assert (r[1..] + rest)[0] == r[1];
    ParseDigitsOfDigits([r[0]], r[1..] + rest);
    assert [r[0]][..0] == [];
  }

  /** `parseInt(String(n), 10)`, also when any non-digit text follows the number: `n` itself
      below 1e21 in magnitude, and from there on only the leading digit, with the sign of `n`. */
  lemma {:induction false} ParseIntOfNumber(n: int, rest: string)
    requires rest == [] || !IsDigit(rest[0])
    ensures -EXPONENT_THRESHOLD < n < EXPONENT_THRESHOLD ==> ParseInt(NumberToString(n) + rest) == Some(n)
    ensures n >= EXPONENT_THRESHOLD ==> ParseInt(NumberToString(n) + rest) == Some(LeadingDigit(n))
    ensures n <= -EXPONENT_THRESHOLD ==> ParseInt(NumberToString(n) + rest) == Some(-(LeadingDigit(-n) as int))
  {
    if n < 0 {
      ParseIntOfNegativeNumber(n, rest);
    } else {
      ParseIntOfSpelling(n, rest);
    }
  }

  /** The unsigned case of `ParseIntOfNumber`. */
  lemma {:induction false} ParseIntOfSpelling(m: nat, rest: string)
    requires rest == [] || !IsDigit(rest[0])
    ensures m < EXPONENT_THRESHOLD ==> ParseInt(Spelling(m) + rest) == Some(m)
    ensures m >= EXPONENT_THRESHOLD ==> ParseInt(Spelling(m) + rest) == Some(LeadingDigit(m))
  {
    assert (Spelling(m) + rest)[0] == Spelling(m)[0];
    if m < EXPONENT_THRESHOLD {
      SpelledDigits(m, rest);
      ParseIntOfUnsigned(Spelling(m) + rest, m);
    } else {
      SpelledLeadingDigit(m, rest);
      ParseIntOfUnsigned(Spelling(m) + rest, LeadingDigit(m));
    }
  }

  /** The negative case of `ParseIntOfNumber`. */
  lemma {:induction false} ParseIntOfNegativeNumber(n: int, rest: string)
    requires n < 0
    requires rest == [] || !IsDigit(rest[0])
    ensures n > -EXPONENT_THRESHOLD ==> ParseInt(NumberToString(n) + rest) == Some(n)
    ensures n <= -EXPONENT_THRESHOLD ==> ParseInt(NumberToString(n) + rest) == Some(-(LeadingDigit(-n) as int))
  {
    var m: nat := -n;
    assert NumberToString(n) == "-" + Spelling(m);
    ParseIntOfMinusSpelling(m, rest, NumberToString(n) + rest);
  }

  /** A minus sign before the spelling of `m`, as the text `t`. */
  lemma {:induction false} ParseIntOfMinusSpelling(m: nat, rest: string, t: string)
    requires rest == [] || !IsDigit(rest[0])
    requires t == "-" + Spelling(m) + rest
    ensures m < EXPONENT_THRESHOLD ==> ParseInt(t) == Some(-(m as int))
    ensures m >= EXPONENT_THRESHOLD ==> ParseInt(t) == Some(-(LeadingDigit(m) as int))
  {
    assert t == "-" + (Spelling(m) + rest);
    if m < EXPONENT_THRESHOLD {
      SpelledDigits(m, rest);
      ParseIntOfNegative(Spelling(m) + rest, m);
    } else {
      SpelledLeadingDigit(m, rest);
      ParseIntOfNegative(Spelling(m) + rest, LeadingDigit(m));
    }
  }

  /** A number's spelling has no "0x" prefix, so `parseInt` reads it alike with or without
      the radix 10. */
  lemma ParseIntAutoOfNumber(n: int)
    ensures ParseIntAuto(NumberToString(n)) == ParseInt(NumberToString(n))
  {
    var m: nat := if n < 0 then -n else n;
    var t := NumberToString(n);
    NoLeadingWhite(t, []);
    assert t + [] == t;
    assert (if t != [] && (t[0] == '-' || t[0] == '+') then t[1..] else t) == Spelling(m);
    assert !HasHexPrefix(Spelling(m));
  }

  lemma {:induction false} HexPrefixOfHex(hs: string, rest: string)
    requires AllHex(hs)
    requires rest == [] || !IsHex(rest[0])
    ensures HexPrefix(hs + rest) == hs
    decreases |hs|
  {
    if hs != [] {
      assert (hs + rest)[1..] == hs[1..] + rest;
      HexPrefixOfHex(hs[1..], rest);
    } else {
      assert hs + rest == rest;
    }
  }

  /** `parseInt` with no radix reads the hexadecimal digits after a sign and "0x" or "0X". */
  lemma ParseIntAutoOfHex(sign: string, x: char, hs: string, rest: string)
    requires sign == "" || sign == "+" || sign == "-"
    requires x == 'x' || x == 'X'
    requires hs != [] && AllHex(hs)
    requires rest == [] || !IsHex(rest[0])
    ensures sign != "-" ==> ParseIntAuto(sign + ['0', x] + hs + rest) == Some(HexDigitsValue(hs))
    ensures sign == "-" ==> ParseIntAuto(sign + ['0', x] + hs + rest) == Some(-(HexDigitsValue(hs) as int))
  {
    var u := ['0', x] + hs + rest;
    assert sign + ['0', x] + hs + rest == sign + u;
    HexMagnitude(x, hs, rest);
    SignThenMagnitude(sign, u);
  }

  /** With no whitespace before it, the sign of the text decides the sign of the result. */
  lemma SignThenMagnitude(sign: string, u: string)
    requires sign == "" || sign == "+" || sign == "-"
    requires u != [] && IsDigit(u[0])
    ensures ParseIntAuto(sign + u) == match ParseMagnitude(u, true)
      case None => None
      case Some(m) => Some(if sign == "-" then -m else m)
  {
    var t := sign + u;
    if sign == "" {
      NoLeadingWhite(u, []);
      assert u + [] == u && t == u;
    } else {
      NoLeadingWhite(sign, u);
      assert t[1..] == u;
    }
  }

  /** "0x" or "0X", then hexadecimal digits: the magnitude `parseInt` reads with no radix. */
  lemma HexMagnitude(x: char, hs: string, rest: string)
    requires x == 'x' || x == 'X'
    requires hs != [] && AllHex(hs)
    requires rest == [] || !IsHex(rest[0])
    ensures ParseMagnitude(['0', x] + hs + rest, true) == Some(HexDigitsValue(hs))
  {
    var u := ['0', x] + hs + rest;
    assert u[0] == '0' && u[1] == x;
    assert u[2..] == hs + rest;
    HexPrefixOfHex(hs, rest);
  }


  /** A string with no digit at all is NaN for `parseInt`. */
  lemma ParseIntWithoutDigits(s: string)
    requires forall i :: 0 <= i < |s| ==> !IsDigit(s[i])
    ensures ParseInt(s) == None
  {
    var t := TrimStart(s);
    TrimStartSuffix(s);
    var unsigned := if t != [] && (t[0] == '-' || t[0] == '+') then t[1..] else t;
    assert unsigned == s[|s| - |unsigned|..];
    assert unsigned == [] || unsigned[0] == s[|s| - |unsigned|];
  }
}
