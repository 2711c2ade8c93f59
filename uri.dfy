/**
 * Percent-encoding of text in URLs and form bodies: UTF-8 (RFC 3629), then
 * `%XX` with upper-case hexadecimal for every byte of a character outside the
 * unescaped set. Two sets are used by the login flow: the one of JavaScript's
 * `encodeURIComponent` (letters, digits and `-_.!~*'()`) and the one of the
 * `application/x-www-form-urlencoded` serializer behind `URLSearchParams`
 * (letters, digits and `*-._`, with a space written as `+`). `PercentDecode`
 * is a strict inverse used to state what the encodings preserve.
 */
module Uri {
  import opened Wrappers
  import opened Bytes

  // ---------------------------------------------------------------- UTF-8

  predicate IsScalarValue(n: int) {
    0 <= n < 0xD800 || 0xE000 <= n < 0x110000
  }

  /** The UTF-8 encoding of one character. */
  function Utf8(c: char): (bs: seq<byte>)
    ensures 1 <= |bs| <= 4
  {
    var n := c as int;
    if n < 0x80 then [n as byte]
    else if n < 0x800 then [(0xC0 + n / 0x40) as byte, (0x80 + n % 0x40) as byte]
    else if n < 0x10000 then
      [(0xE0 + n / 0x1000) as byte, (0x80 + n / 0x40 % 0x40) as byte, (0x80 + n % 0x40) as byte]
    else
      [(0xF0 + n / 0x40000) as byte, (0x80 + n / 0x1000 % 0x40) as byte,
       (0x80 + n / 0x40 % 0x40) as byte, (0x80 + n % 0x40) as byte]
  }

  /** The length of the sequence a lead byte announces; 0 for a byte that cannot lead. */
  function SequenceLength(b: byte): nat {
    if b < 0x80 then 1
    else if 0xC0 <= b < 0xE0 then 2
    else if 0xE0 <= b < 0xF0 then 3
    else if 0xF0 <= b < 0xF8 then 4
    else 0
  }

  predicate IsContinuation(b: byte) {
    0x80 <= b < 0xC0
  }

  /** The scalar value a well-formed sequence spells; None for a malformed, overlong or surrogate one. */
  function DecodeSequence(bs: seq<byte>): Option<char> {
    if |bs| == 0 || SequenceLength(bs[0]) != |bs| then None
    else if exists k :: 1 <= k < |bs| && !IsContinuation(bs[k]) then None
    else
      var n :=
        if |bs| == 1 then bs[0] as int
        else if |bs| == 2 then (bs[0] as int - 0xC0) * 0x40 + (bs[1] as int - 0x80)
        else if |bs| == 3 then (bs[0] as int - 0xE0) * 0x1000 + (bs[1] as int - 0x80) * 0x40 + (bs[2] as int - 0x80)
        else (bs[0] as int - 0xF0) * 0x40000 + (bs[1] as int - 0x80) * 0x1000 + (bs[2] as int - 0x80) * 0x40 + (bs[3] as int - 0x80);
      var least := if |bs| == 1 then 0 else if |bs| == 2 then 0x80 else if |bs| == 3 then 0x800 else 0x10000;
      if least <= n && IsScalarValue(n) then Some(n as char) else None
  }

  /** Decoding a character's UTF-8 encoding gives the character back. */
  lemma Utf8RoundTrip(c: char)
    ensures SequenceLength(Utf8(c)[0]) == |Utf8(c)|
    ensures forall k :: 1 <= k < |Utf8(c)| ==> IsContinuation(Utf8(c)[k])
    ensures DecodeSequence(Utf8(c)) == Some(c)
  {
    var n := c as int;
    assert n == n / 0x40 * 0x40 + n % 0x40;
    assert n / 0x40 == n / 0x1000 * 0x40 + n / 0x40 % 0x40;
    assert n / 0x1000 == n / 0x40000 * 0x40 + n / 0x1000 % 0x40;
  }

  // ---------------------------------------------------------------- percent-encoding

  /** The two unescaped sets in use. */
  datatype EncodeSet =
    | ComponentSet   // `encodeURIComponent`
    | FormSet        // `URLSearchParams`, spaces as `+`

  predicate IsAsciiAlphanumeric(c: char) {
    ('A' <= c <= 'Z') || ('a' <= c <= 'z') || ('0' <= c <= '9')
  }

  /** The characters an encoder writes as they are. */
  predicate Unescaped(es: EncodeSet, c: char) {
    match es
    case ComponentSet => IsAsciiAlphanumeric(c) || c in "-_.!~*'()"
    case FormSet => IsAsciiAlphanumeric(c) || c in "*-._"
  }

  /** An upper-case hexadecimal digit. */
  function HexDigit(d: nat): (c: char)
    requires d < 16
    ensures IsAsciiAlphanumeric(c)
  {
    if d < 10 then '0' + d as char else 'A' + (d - 10) as char
  }

  /** The value of a hexadecimal digit of either case. */
  function HexValue(c: char): Option<nat> {
    if '0' <= c <= '9' then Some(c as nat - '0' as nat)
    else if 'A' <= c <= 'F' then Some(c as nat - 'A' as nat + 10)
    else if 'a' <= c <= 'f' then Some(c as nat - 'a' as nat + 10)
    else None
  }

  /** `%XX` for one byte. */
  function EscapeByte(b: byte): string {
    ['%', HexDigit(b as nat / 16), HexDigit(b as nat % 16)]
  }

  function EscapeBytes(bs: seq<byte>): string {
    if |bs| == 0 then "" else EscapeByte(bs[0]) + EscapeBytes(bs[1..])
  }

  function EncodeChar(es: EncodeSet, c: char): string {
    if Unescaped(es, c) then [c]
    else if es == FormSet && c == ' ' then "+"
    else EscapeBytes(Utf8(c))
  }

  /** The characters an encoded text is made of. */
  predicate InEncodedAlphabet(es: EncodeSet, c: char) {
    Unescaped(es, c) || c == '%' || (es == FormSet && c == '+')
  }

  lemma EscapeBytesAlphabet(es: EncodeSet, bs: seq<byte>)
    ensures forall k :: 0 <= k < |EscapeBytes(bs)| ==> InEncodedAlphabet(es, EscapeBytes(bs)[k])
  {
    if |bs| > 0 {
      EscapeBytesAlphabet(es, bs[1..]);
      var e := EscapeBytes(bs);
      assert e == EscapeByte(bs[0]) + EscapeBytes(bs[1..]);
      forall k | 0 <= k < |e| ensures InEncodedAlphabet(es, e[k]) {
        if k >= 3 {
          assert e[k] == EscapeBytes(bs[1..])[k - 3];
        }
      }
    }
  }

  /**
   * `encodeURIComponent(s)` (with `ComponentSet`) or the form serializer's
   * encoding of one name or value (with `FormSet`). The result holds no
   * delimiter of a query: no `&`, `=`, `#` or `?`.
   */
  function Encode(es: EncodeSet, s: string): (r: string)
    ensures forall k :: 0 <= k < |r| ==> InEncodedAlphabet(es, r[k])
  {
    if |s| == 0 then ""
    else
      var head := EncodeChar(es, s[0]);
      EscapeBytesAlphabet(es, Utf8(s[0]));
      var tail := Encode(es, s[1..]);
      assert forall k :: |head| <= k < |head| + |tail| ==> (head + tail)[k] == tail[k - |head|];
      head + tail
  }

  /** Encoding leaves a text made of unescaped characters as it is. */
  lemma {:induction false} EncodeUnescaped(es: EncodeSet, s: string)
    requires forall k :: 0 <= k < |s| ==> Unescaped(es, s[k])
    ensures Encode(es, s) == s
  {
    if |s| > 0 {
      EncodeUnescaped(es, s[1..]);
    }
  }

  // ---------------------------------------------------------------- decoding

  /** A decoded unit: a character written as itself, or one byte from a `%XX` escape. */
  datatype Unit = Lit(c: char) | Raw(b: byte)

  function PrependUnits(us: seq<Unit>, rest: Option<seq<Unit>>): Option<seq<Unit>> {
    if rest.Some? then Some(us + rest.value) else None
  }

  function PrependChar(c: char, rest: Option<string>): Option<string> {
    if rest.Some? then Some([c] + rest.value) else None
  }

  /** Undoes the escapes, and `+` in a form; None for a `%` without two hexadecimal digits. */
  function Unescape(es: EncodeSet, s: string): Option<seq<Unit>> {
    if |s| == 0 then Some([])
    else if s[0] == '%' then
      if |s| < 3 || HexValue(s[1]).None? || HexValue(s[2]).None? then None
      else PrependUnits([Raw((HexValue(s[1]).value * 16 + HexValue(s[2]).value) as byte)], Unescape(es, s[3..]))
    else if es == FormSet && s[0] == '+' then PrependUnits([Lit(' ')], Unescape(es, s[1..]))
    else PrependUnits([Lit(s[0])], Unescape(es, s[1..]))
  }

  predicate AllRaw(us: seq<Unit>) {
    forall k :: 0 <= k < |us| ==> us[k].Raw?
  }

  function RawBytes(us: seq<Unit>): (bs: seq<byte>)
    requires AllRaw(us)
    ensures |bs| == |us|
  {
    if |us| == 0 then [] else [us[0].b] + RawBytes(us[1..])
  }

  /** Groups the bytes into UTF-8 sequences; None for a malformed one. */
  function Assemble(us: seq<Unit>): Option<string>
    decreases |us|
  {
    if |us| == 0 then Some("")
    else if us[0].Lit? then PrependChar(us[0].c, Assemble(us[1..]))
    else
      var n := SequenceLength(us[0].b);
      if n == 0 || |us| < n || !AllRaw(us[..n]) then None
      else match DecodeSequence(RawBytes(us[..n]))
        case Some(c) => PrependChar(c, Assemble(us[n..]))
        case None => None
  }

  /** The strict inverse of `Encode`. */
  function PercentDecode(es: EncodeSet, s: string): Option<string> {
    match Unescape(es, s)
    case Some(us) => Assemble(us)
    case None => None
  }

  /** The units a character encodes to. */
  function Raws(bs: seq<byte>): (us: seq<Unit>)
    ensures |us| == |bs| && AllRaw(us) && RawBytes(us) == bs
  {
    if |bs| == 0 then [] else [Raw(bs[0])] + Raws(bs[1..])
  }

  function UnitsOf(es: EncodeSet, c: char): seq<Unit> {
    if Unescaped(es, c) then [Lit(c)]
    else if es == FormSet && c == ' ' then [Lit(' ')]
    else Raws(Utf8(c))
  }

  function Units(es: EncodeSet, s: string): seq<Unit> {
    if |s| == 0 then [] else UnitsOf(es, s[0]) + Units(es, s[1..])
  }

  lemma HexRoundTrip(b: byte)
    ensures HexValue(HexDigit(b as nat / 16)) == Some(b as nat / 16)
    ensures HexValue(HexDigit(b as nat % 16)) == Some(b as nat % 16)
  {
  }

  lemma {:induction false} UnescapeEscapeBytes(es: EncodeSet, bs: seq<byte>, t: string)
    ensures Unescape(es, EscapeBytes(bs) + t) == PrependUnits(Raws(bs), Unescape(es, t))
  {
    if |bs| > 0 {
      var s := EscapeBytes(bs) + t;
      assert s == EscapeByte(bs[0]) + (EscapeBytes(bs[1..]) + t);
      HexRoundTrip(bs[0]);
      assert s[3..] == EscapeBytes(bs[1..]) + t;
      UnescapeEscapeBytes(es, bs[1..], t);
      assert s[0] == '%' && s[1] == HexDigit(bs[0] as nat / 16) && s[2] == HexDigit(bs[0] as nat % 16);
      assert (bs[0] as nat / 16 * 16 + bs[0] as nat % 16) as byte == bs[0];
      var rest := Unescape(es, t);
      if rest.Some? {
        assert [Raw(bs[0])] + (Raws(bs[1..]) + rest.value) == Raws(bs) + rest.value;
      }
    } else {
      assert EscapeBytes(bs) + t == t;
      var rest := Unescape(es, t);
      if rest.Some? {
        assert Raws(bs) + rest.value == rest.value;
      }
    }
  }

  /** Unescaping an encoding gives the units of the text. */
  lemma {:induction false} UnescapeEncode(es: EncodeSet, s: string)
    ensures Unescape(es, Encode(es, s)) == Some(Units(es, s))
  {
    if |s| > 0 {
      var c := s[0];
      var tail := Encode(es, s[1..]);
      UnescapeEncode(es, s[1..]);
      if Unescaped(es, c) || (es == FormSet && c == ' ') {
        if Unescaped(es, c) {
          assert Encode(es, s) == [c] + tail;
          assert ([c] + tail)[1..] == tail;
        } else {
          assert Encode(es, s) == "+" + tail;
          assert ("+" + tail)[1..] == tail;
        }
      } else {
        UnescapeEscapeBytes(es, Utf8(c), tail);
      }
    }
  }

  lemma AssembleUnitsOf(es: EncodeSet, c: char, rest: seq<Unit>)
    ensures Assemble(UnitsOf(es, c) + rest) == PrependChar(c, Assemble(rest))
  {
    var us := UnitsOf(es, c) + rest;
    if Unescaped(es, c) || (es == FormSet && c == ' ') {
      assert us[1..] == rest;
    } else {
      var bs := Utf8(c);
      Utf8RoundTrip(c);
      var n := |bs|;
      assert us[..n] == Raws(bs);
      assert us[n..] == rest;
    }
  }

  lemma {:induction false} AssembleUnits(es: EncodeSet, s: string)
    ensures Assemble(Units(es, s)) == Some(s)
  {
    if |s| > 0 {
      AssembleUnitsOf(es, s[0], Units(es, s[1..]));
      AssembleUnits(es, s[1..]);
      assert [s[0]] + s[1..] == s;
    }
  }

  /** Decoding an encoding gives the text back, for either set. */
  lemma EncodeRoundTrip(es: EncodeSet, s: string)
    ensures PercentDecode(es, Encode(es, s)) == Some(s)
  {
    UnescapeEncode(es, s);
    AssembleUnits(es, s);
  }
}
