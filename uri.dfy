/**
 * `decodeURIComponent` (ECMAScript's Decode with an empty reserved set): every "%XX" escape is
 * read as a byte, the bytes of one escape run must form a valid UTF-8 encoding of one Unicode
 * scalar value (RFC 3629: no overlong forms, no surrogates, nothing above U+10FFFF), and any
 * malformed escape makes the whole call fail (a URIError, modelled as `None`). Also the
 * percent-encoding of section 2.1 of RFC 3986, the partner the decoder inverts.
 */
module UriCodec {
  import opened Wrappers
  import Js

  type Byte = b: int | 0 <= b < 256

  /** The upper-case hex digit for 0..15. */
  function HexChar(d: int): (c: char)
    requires 0 <= d < 16
    ensures Js.IsHex(c) && Js.HexValue(c) == d
  {
    if d < 10 then ('0' as int + d) as char else ('A' as int + d - 10) as char
  }

  /** The byte of a "%XX" escape at the start of `t`, if there is a complete one. */
  function EscapeAt(t: string): Option<Byte> {
    if |t| >= 3 && t[0] == '%' && Js.IsHex(t[1]) && Js.IsHex(t[2])
    then Some(Js.HexValue(t[1]) * 16 + Js.HexValue(t[2]))
    else None
  }

  /** How many of the leading bits of a byte are 1 (5 stands for "more than four"). */
  function LeadingOnes(b: Byte): nat {
    if b < 0x80 then 0
    else if b < 0xC0 then 1
    else if b < 0xE0 then 2
    else if b < 0xF0 then 3
    else if b < 0xF8 then 4
    else 5
  }

  predicate IsContinuation(b: Byte) {
    0x80 <= b < 0xC0
  }

  /** `count` escapes at the start of `t`, each a UTF-8 continuation byte (10xxxxxx). */
  function Continuations(t: string, count: nat): (r: Option<seq<Byte>>)
    ensures r.Some? ==> |r.value| == count && 3 * count <= |t|
    ensures r.Some? ==> forall j :: 0 <= j < count ==> IsContinuation(r.value[j])
    decreases count
  {
    if count == 0 then Some([])
    else match EscapeAt(t)
      case None => None
      case Some(b) =>
        if !IsContinuation(b) then None
        else match Continuations(t[3..], count - 1)
          case None => None
          case Some(rest) => Some([b] + rest)
  }

  /** The value a lead byte with `|cs| + 1` leading ones and its continuation bytes encode. */
  function CodePoint(lead: Byte, cs: seq<Byte>): int
    requires 1 <= |cs| <= 3
  {
    var b0: int := lead;
    if |cs| == 1 then (b0 - 0xC0) * 64 + (cs[0] as int - 0x80)
    else if |cs| == 2 then (b0 - 0xE0) * 4096 + (cs[0] as int - 0x80) * 64 + (cs[1] as int - 0x80)
    else
      (b0 - 0xF0) * 262144 + (cs[0] as int - 0x80) * 4096 + (cs[1] as int - 0x80) * 64
      + (cs[2] as int - 0x80)
  }

  /** The least value an n-byte UTF-8 sequence may encode (smaller ones are overlong). */
  function MinCodePoint(n: nat): int {
    if n == 2 then 0x80 else if n == 3 then 0x800 else 0x10000
  }

  /** A Unicode scalar value: what a Dafny `char` holds. */
  predicate IsScalar(v: int) {
    (0 <= v < 0xD800) || (0xE000 <= v < 0x11_0000)
  }

  function Cons(c: char, r: Option<string>): Option<string> {
    match r
    case None => None
    case Some(s) => Some([c] + s)
  }

  /** One "%XX" escape run at the start of `t`: the character its bytes encode and the number of
      input characters it takes, or `None` when the run is malformed. */
  function DecodeEscape(t: string): (r: Option<(char, nat)>)
    ensures r.Some? ==> 3 <= r.value.1 <= |t|
  {
    match EscapeAt(t)
    case None => None
    case Some(b) =>
      if b < 0x80 then Some((b as char, 3))
      else
        var n := LeadingOnes(b);
        if n < 2 || n > 4 then None
        else match Continuations(t[3..], n - 1)
          case None => None
          case Some(cs) =>
            var v := CodePoint(b, cs);
            if v < MinCodePoint(n) || !IsScalar(v) then None
            else Some((v as char, 3 * n))
  }

  /** The first character of the decoding of a non-empty `t` and the input it takes. */
  function Step(t: string): (r: Option<(char, nat)>)
    requires t != []
    ensures r.Some? ==> 1 <= r.value.1 <= |t|
  {
    if t[0] != '%' then Some((t[0], 1)) else DecodeEscape(t)
  }

  /** `decodeURIComponent(t)`, with `None` for the URIError it throws on a malformed escape. */
  function Decode(t: string): Option<string>
    decreases |t|
  {
    if t == [] then Some([])
    else match Step(t)
      case None => None
      case Some((c, k)) => Cons(c, Decode(t[k..]))
  }

  // ---------------------------------------------------------------------------------------
  // The encoding side

  /** The unreserved characters of section 2.3 of RFC 3986, which are never escaped. */
  predicate IsUnreserved(c: char) {
    ('A' <= c <= 'Z') || ('a' <= c <= 'z') || ('0' <= c <= '9') ||
    c == '-' || c == '.' || c == '_' || c == '~'
  }

  /** The UTF-8 encoding of one character (RFC 3629). */
  function Utf8(c: char): (bs: seq<Byte>)
    ensures 1 <= |bs| <= 4
  {
    var v := c as int;
    if v < 0x80 then [v]
    else if v < 0x800 then [0xC0 + v / 64, 0x80 + v % 64]
    else if v < 0x10000 then [0xE0 + v / 4096, 0x80 + (v / 64) % 64, 0x80 + v % 64]
    else [0xF0 + v / 262144, 0x80 + (v / 4096) % 64, 0x80 + (v / 64) % 64, 0x80 + v % 64]
  }

  function EscapeByte(b: Byte): string {
    ['%', HexChar(b / 16), HexChar(b % 16)]
  }

  function EscapeBytes(bs: seq<Byte>): (t: string)
    ensures |t| == 3 * |bs|
  {
    if bs == [] then [] else EscapeByte(bs[0]) + EscapeBytes(bs[1..])
  }

  /** Percent-encoding of one character: unreserved characters stand for themselves, every
      other character becomes the escapes of its UTF-8 bytes. */
  function EncodeChar(c: char): string {
    if IsUnreserved(c) then [c] else EscapeBytes(Utf8(c))
  }

  function Encode(s: string): string {
    if s == [] then [] else EncodeChar(s[0]) + Encode(s[1..])
  }

  // ---------------------------------------------------------------------------------------
  // Decoding inverts encoding

  lemma EscapeAtEscapeByte(b: Byte, rest: string)
    ensures EscapeAt(EscapeByte(b) + rest) == Some(b)
    ensures (EscapeByte(b) + rest)[3..] == rest
  {
  }

  lemma {:induction false} ContinuationsOfEscapes(cs: seq<Byte>, rest: string)
    requires forall j :: 0 <= j < |cs| ==> IsContinuation(cs[j])
    ensures Continuations(EscapeBytes(cs) + rest, |cs|) == Some(cs)
    decreases |cs|
  {
    if cs != [] {
      var t := EscapeBytes(cs) + rest;
      assert t == EscapeByte(cs[0]) + (EscapeBytes(cs[1..]) + rest);
      EscapeAtEscapeByte(cs[0], EscapeBytes(cs[1..]) + rest);
      ContinuationsOfEscapes(cs[1..], rest);
      assert [cs[0]] + cs[1..] == cs;
    }
  }

  /** The UTF-8 bytes of a character from U+0080 on decode back to it, and the decoder's
      multi-byte validity checks pass. */
  lemma Utf8Valid(c: char)
    requires c as int >= 0x80
    ensures var bs := Utf8(c);
      && LeadingOnes(bs[0]) == |bs|
      && (forall j :: 1 <= j < |bs| ==> IsContinuation(bs[j]))
      && CodePoint(bs[0], bs[1..]) == c as int
      && c as int >= MinCodePoint(|bs|)
  {
    var v := c as int;
    assert v == 64 * (v / 64) + v % 64;
    assert v / 64 == 64 * (v / 4096) + (v / 64) % 64;
    assert v / 4096 == 64 * (v / 262144) + (v / 4096) % 64;
  }

  /** The escapes of a character's UTF-8 bytes decode back to it. */
  lemma DecodeEscapeOfUtf8(c: char, rest: string)
    requires !IsUnreserved(c)
    ensures DecodeEscape(EscapeBytes(Utf8(c)) + rest) == Some((c, 3 * |Utf8(c)|))
  {
    var bs := Utf8(c);
    var t := EscapeBytes(bs) + rest;
    assert EscapeBytes(bs) == EscapeByte(bs[0]) + EscapeBytes(bs[1..]);
    assert t == EscapeByte(bs[0]) + (EscapeBytes(bs[1..]) + rest);
    EscapeAtEscapeByte(bs[0], EscapeBytes(bs[1..]) + rest);
    if c as int >= 0x80 {
      Utf8Valid(c);
      ContinuationsOfEscapes(bs[1..], rest);
    }
  }

  lemma StepEncodeChar(c: char, rest: string)
    ensures EncodeChar(c) + rest != []
    ensures Step(EncodeChar(c) + rest) == Some((c, |EncodeChar(c)|))
  {
    if !IsUnreserved(c) {
      DecodeEscapeOfUtf8(c, rest);
    }
  }

  /** Round trip: decoding the percent-encoding of any string gives that string back. */
  lemma {:induction false} DecodeEncode(s: string, rest: string)
    ensures Decode(Encode(s) + rest) == if Decode(rest).Some? then Some(s + Decode(rest).value) else None
    decreases |s|
  {
    if s == [] {
      assert Encode(s) + rest == rest;
      if Decode(rest).Some? {
        assert s + Decode(rest).value == Decode(rest).value;
      }
    } else {
      var tail := Encode(s[1..]) + rest;
      var t := Encode(s) + rest;
      assert t == EncodeChar(s[0]) + tail;
      StepEncodeChar(s[0], tail);
      assert t[|EncodeChar(s[0])|..] == tail;
      DecodeEncode(s[1..], rest);
      if Decode(rest).Some? {
        HeadTail(s, Decode(rest).value);
      }
    }
  }

  lemma HeadTail(s: string, x: string)
    requires s != []
    ensures [s[0]] + (s[1..] + x) == s + x
  {
    assert [s[0]] + s[1..] == s;
  }

  lemma DecodeOfEncode(s: string)
    ensures Decode(Encode(s)) == Some(s)
  {
    DecodeEncode(s, []);
    assert Encode(s) + [] == Encode(s);
    assert s + [] == s;
  }

  /** A string without any '%' is its own decoding. */
  lemma {:induction false} DecodeWithoutEscapes(t: string)
    requires forall i :: 0 <= i < |t| ==> t[i] != '%'
    ensures Decode(t) == Some(t)
    decreases |t|
  {
    if t != [] {
      DecodeWithoutEscapes(t[1..]);
      assert [t[0]] + t[1..] == t;
    }
  }
}
