/**
  The five text codecs of the document boundary, as strict parsers and printers over bytes.
  UTF-8 follows section 3 of RFC 3629, UTF-16 section 2 of RFC 2781 and UTF-32 section 3.10 of
  the Unicode Standard.  A `char` is a Unicode scalar value, so every text can be encoded.
 */
module Codec {
  import opened Prelude

  type byte = b: int | 0 <= b < 256

  datatype Encoding = Utf8 | Utf16LE | Utf16BE | Utf32LE | Utf32BE

  predicate IsScalar(v: int) {
    0 <= v < 0xD800 || 0xE000 <= v < 0x11_0000
  }

  predicate IsContinuation(b: byte) {
    0x80 <= b < 0xC0
  }

  function EncodeUtf8(v: int): seq<byte>
    requires IsScalar(v)
  {
    if v < 0x80 then [v]
    else if v < 0x800 then [0xC0 + v / 0x40, 0x80 + v % 0x40]
    else if v < 0x1_0000 then [0xE0 + v / 0x1000, 0x80 + v / 0x40 % 0x40, 0x80 + v % 0x40]
    else [0xF0 + v / 0x4_0000, 0x80 + v / 0x1000 % 0x40, 0x80 + v / 0x40 % 0x40, 0x80 + v % 0x40]
  }

  /** One 16-bit unit in the byte order of `e`. */
  function Unit16(e: Encoding, u: int): seq<byte>
    requires 0 <= u < 0x1_0000
  {
    if e == Utf16LE then [u % 0x100, u / 0x100] else [u / 0x100, u % 0x100]
  }

  function EncodeUtf16(e: Encoding, v: int): seq<byte>
    requires IsScalar(v)
  {
    if v < 0x1_0000 then Unit16(e, v)
    else Unit16(e, 0xD800 + (v - 0x1_0000) / 0x400) + Unit16(e, 0xDC00 + (v - 0x1_0000) % 0x400)
  }

  function EncodeUtf32(e: Encoding, v: int): seq<byte>
    requires IsScalar(v)
  {
    if e == Utf32LE then [v % 0x100, v / 0x100 % 0x100, v / 0x1_0000, 0]
    else [0, v / 0x1_0000, v / 0x100 % 0x100, v % 0x100]
  }

  function EncodeChar(e: Encoding, c: char): (bs: seq<byte>)
    ensures 0 < |bs| <= 4
  {
    match e
    case Utf8 => EncodeUtf8(c as int)
    case Utf16LE => EncodeUtf16(e, c as int)
    case Utf16BE => EncodeUtf16(e, c as int)
    case Utf32LE => EncodeUtf32(e, c as int)
    case Utf32BE => EncodeUtf32(e, c as int)
  }

  /** The first character of a byte string together with the number of bytes it takes. */
  datatype Head = Malformed | Head(c: char, size: nat)

  function HeadOf(v: int, size: nat, lowest: int): Head {
    if lowest <= v && IsScalar(v) then Head(v as char, size) else Malformed
  }

  function Code2(a: int, b: int): int { (a - 0xC0) * 0x40 + (b - 0x80) }

  function Code3(a: int, b: int, c: int): int { (a - 0xE0) * 0x1000 + (b - 0x80) * 0x40 + (c - 0x80) }

  function Code4(a: int, b: int, c: int, d: int): int {
    (a - 0xF0) * 0x4_0000 + (b - 0x80) * 0x1000 + (c - 0x80) * 0x40 + (d - 0x80)
  }

  function DecodeUtf8(bs: seq<byte>): Head
    requires bs != []
  {
    if bs[0] < 0x80 then HeadOf(bs[0], 1, 0)
    else if bs[0] < 0xC0 || bs[0] >= 0xF8 || |bs| < 2 || !IsContinuation(bs[1]) then Malformed
    else if bs[0] < 0xE0 then HeadOf(Code2(bs[0], bs[1]), 2, 0x80)
    else if |bs| < 3 || !IsContinuation(bs[2]) then Malformed
    else if bs[0] < 0xF0 then HeadOf(Code3(bs[0], bs[1], bs[2]), 3, 0x800)
    else if |bs| < 4 || !IsContinuation(bs[3]) then Malformed
    else HeadOf(Code4(bs[0], bs[1], bs[2], bs[3]), 4, 0x1_0000)
  }

  function Pair(low: int, high: int): int { low + high * 0x100 }

  function ReadUnit16(e: Encoding, bs: seq<byte>): (u: int)
    requires |bs| >= 2
    ensures 0 <= u < 0x1_0000 && bs[..2] == Unit16(e, u)
  {
    if e == Utf16LE then Pair(bs[0], bs[1]) else Pair(bs[1], bs[0])
  }

  function DecodeUtf16(e: Encoding, bs: seq<byte>): Head {
    if |bs| < 2 then Malformed
    else
      var u := ReadUnit16(e, bs);
      if IsScalar(u) then Head(u as char, 2)
      else if u >= 0xDC00 || |bs| < 4 then Malformed
      else
        var low := ReadUnit16(e, bs[2..]);
        if 0xDC00 <= low < 0xE000 then HeadOf(0x1_0000 + (u - 0xD800) * 0x400 + (low - 0xDC00), 4, 0)
        else Malformed
  }

  function DecodeUtf32(e: Encoding, bs: seq<byte>): Head {
    if |bs| < 4 then Malformed
    else if e == Utf32LE then HeadOf(Pair(bs[0], bs[1]) + Pair(bs[2], bs[3]) * 0x1_0000, 4, 0)
    else HeadOf(Pair(bs[3], bs[2]) + Pair(bs[1], bs[0]) * 0x1_0000, 4, 0)
  }

  function DecodeChar(e: Encoding, bs: seq<byte>): (h: Head)
    requires bs != []
    ensures h.Head? ==> 0 < h.size <= |bs|
  {
    match e
    case Utf8 => DecodeUtf8(bs)
    case Utf16LE => DecodeUtf16(e, bs)
    case Utf16BE => DecodeUtf16(e, bs)
    case Utf32LE => DecodeUtf32(e, bs)
    case Utf32BE => DecodeUtf32(e, bs)
  }

  /** `text.encode(encoding)`. */
  function Encode(e: Encoding, s: string): seq<byte> {
    if s == "" then [] else EncodeChar(e, s[0]) + Encode(e, s[1..])
  }

  /** `bytes.decode(encoding, errors="strict")`; `None` is the decode error. */
  function Decode(e: Encoding, bs: seq<byte>): Option<string> {
    if bs == [] then Some("")
    else match DecodeChar(e, bs)
      case Malformed => None
      case Head(c, n) =>
        match Decode(e, bs[n..])
        case None => None
        case Some(rest) => Some([c] + rest)
  }

  lemma Digits(v: int)
    requires 0 <= v
    ensures v == v / 0x40 * 0x40 + v % 0x40
    ensures v / 0x40 == v / 0x1000 * 0x40 + v / 0x40 % 0x40
    ensures v / 0x1000 == v / 0x4_0000 * 0x40 + v / 0x1000 % 0x40
  {
  }

  lemma Utf8HeadOfThree(v: int, rest: seq<byte>)
    requires IsScalar(v) && 0x800 <= v < 0x1_0000
    ensures DecodeUtf8(EncodeUtf8(v) + rest) == Head(v as char, 3)
  {
    Digits(v);
    var bs := EncodeUtf8(v) + rest;
    assert bs[0] == 0xE0 + v / 0x1000 && bs[1] == 0x80 + v / 0x40 % 0x40 && bs[2] == 0x80 + v % 0x40;
    assert Code3(bs[0], bs[1], bs[2]) == v;
  }

  lemma Utf8HeadOfFour(v: int, rest: seq<byte>)
    requires IsScalar(v) && 0x1_0000 <= v
    ensures DecodeUtf8(EncodeUtf8(v) + rest) == Head(v as char, 4)
  {
    Digits(v);
    var bs := EncodeUtf8(v) + rest;
    assert bs[0] == 0xF0 + v / 0x4_0000 && bs[1] == 0x80 + v / 0x1000 % 0x40;
    assert bs[2] == 0x80 + v / 0x40 % 0x40 && bs[3] == 0x80 + v % 0x40;
    assert Code4(bs[0], bs[1], bs[2], bs[3]) == v;
  }

  lemma Utf8HeadOfEncoded(v: int, rest: seq<byte>)
    requires IsScalar(v)
    ensures DecodeUtf8(EncodeUtf8(v) + rest) == Head(v as char, |EncodeUtf8(v)|)
  {
    Digits(v);
    var bs := EncodeUtf8(v) + rest;
    if v < 0x80 {
    } else if v < 0x800 {
      assert bs[0] == 0xC0 + v / 0x40 && bs[1] == 0x80 + v % 0x40;
      assert Code2(bs[0], bs[1]) == v;
    } else if v < 0x1_0000 {
      Utf8HeadOfThree(v, rest);
    } else {
      Utf8HeadOfFour(v, rest);
    }
  }

  lemma Utf16HeadOfEncoded(e: Encoding, v: int, rest: seq<byte>)
    requires IsScalar(v)
    ensures DecodeUtf16(e, EncodeUtf16(e, v) + rest) == Head(v as char, |EncodeUtf16(e, v)|)
  {
    var bs := EncodeUtf16(e, v) + rest;
    if v >= 0x1_0000 {
      assert bs[2..] == Unit16(e, 0xDC00 + (v - 0x1_0000) % 0x400) + rest;
    }
  }

  lemma Code2Digits(a: int, b: int)
    requires 0xC0 <= a && 0x80 <= b < 0xC0
    ensures var v := Code2(a, b); v / 0x40 == a - 0xC0 && v % 0x40 == b - 0x80
  {
  }

  lemma Code3Digits(a: int, b: int, c: int)
    requires 0xE0 <= a && 0x80 <= b < 0xC0 && 0x80 <= c < 0xC0
    ensures var v := Code3(a, b, c); v / 0x1000 == a - 0xE0 && v / 0x40 % 0x40 == b - 0x80 && v % 0x40 == c - 0x80
  {
    assert Code3(a, b, c) / 0x40 == (a - 0xE0) * 0x40 + (b - 0x80);
  }

  lemma Code4Digits(a: int, b: int, c: int, d: int)
    requires 0xF0 <= a && 0x80 <= b < 0xC0 && 0x80 <= c < 0xC0 && 0x80 <= d < 0xC0
    ensures
      var v := Code4(a, b, c, d);
      v / 0x4_0000 == a - 0xF0 && v / 0x1000 % 0x40 == b - 0x80 && v / 0x40 % 0x40 == c - 0x80 && v % 0x40 == d - 0x80
  {
    var v := Code4(a, b, c, d);
    assert v / 0x1000 == (a - 0xF0) * 0x40 + (b - 0x80);
    assert v / 0x40 == ((a - 0xF0) * 0x40 + (b - 0x80)) * 0x40 + (c - 0x80);
  }

  lemma Utf8EncodedOfTwo(bs: seq<byte>)
    requires bs != [] && DecodeUtf8(bs).Head? && DecodeUtf8(bs).size == 2
    ensures 2 <= |bs| && bs[..2] == EncodeUtf8(DecodeUtf8(bs).c as int)
  {
    Code2Digits(bs[0], bs[1]);
  }

  lemma Utf8EncodedOfThree(bs: seq<byte>)
    requires bs != [] && DecodeUtf8(bs).Head? && DecodeUtf8(bs).size == 3
    ensures 3 <= |bs| && bs[..3] == EncodeUtf8(DecodeUtf8(bs).c as int)
  {
    Code3Digits(bs[0], bs[1], bs[2]);
  }

  lemma Utf8EncodedOfFour(bs: seq<byte>)
    requires bs != [] && DecodeUtf8(bs).Head? && DecodeUtf8(bs).size == 4
    ensures 4 <= |bs| && bs[..4] == EncodeUtf8(DecodeUtf8(bs).c as int)
  {
    Code4Digits(bs[0], bs[1], bs[2], bs[3]);
  }

  lemma Utf8EncodedOfHead(bs: seq<byte>)
    requires bs != [] && DecodeUtf8(bs).Head?
    ensures var h := DecodeUtf8(bs); 0 < h.size <= |bs| && bs[..h.size] == EncodeUtf8(h.c as int)
  {
    var h := DecodeUtf8(bs);
    if h.size == 2 {
      Utf8EncodedOfTwo(bs);
    } else if h.size == 3 {
      Utf8EncodedOfThree(bs);
    } else if h.size == 4 {
      Utf8EncodedOfFour(bs);
    }
  }

  lemma Utf16EncodedOfHead(e: Encoding, bs: seq<byte>)
    requires DecodeUtf16(e, bs).Head?
    ensures var h := DecodeUtf16(e, bs); 0 < h.size <= |bs| && bs[..h.size] == EncodeUtf16(e, h.c as int)
  {
    if !IsScalar(ReadUnit16(e, bs)) {
      assert bs[..4] == bs[..2] + bs[2..][..2];
    }
  }

  lemma Octets(a: int, b: int, c: int, d: int)
    requires 0 <= a < 0x100 && 0 <= b < 0x100 && 0 <= c < 0x100 && 0 <= d < 0x100
    requires IsScalar(Pair(a, b) + Pair(c, d) * 0x1_0000)
    ensures
      var v := Pair(a, b) + Pair(c, d) * 0x1_0000;
      d == 0 && v % 0x100 == a && v / 0x100 % 0x100 == b && v / 0x1_0000 == c
  {
    var v := Pair(a, b) + Pair(c, d) * 0x1_0000;
    assert v / 0x1_0000 == Pair(c, d);
    assert v / 0x100 == Pair(c, d) * 0x100 + b;
  }

  lemma Utf32EncodedOfHead(e: Encoding, bs: seq<byte>)
    requires DecodeUtf32(e, bs).Head?
    ensures var h := DecodeUtf32(e, bs); h.size == 4 <= |bs| && bs[..4] == EncodeUtf32(e, h.c as int)
  {
    if e == Utf32LE {
      Octets(bs[0], bs[1], bs[2], bs[3]);
    } else {
      Octets(bs[3], bs[2], bs[1], bs[0]);
    }
  }

  /** A character read from the front of a byte string has exactly one encoding: the bytes read. */
  lemma EncodedOfHead(e: Encoding, bs: seq<byte>)
    requires bs != [] && DecodeChar(e, bs).Head?
    ensures var h := DecodeChar(e, bs); bs[..h.size] == EncodeChar(e, h.c)
  {
    match e
    case Utf8 => Utf8EncodedOfHead(bs);
    case Utf16LE => Utf16EncodedOfHead(e, bs);
    case Utf16BE => Utf16EncodedOfHead(e, bs);
    case Utf32LE => Utf32EncodedOfHead(e, bs);
    case Utf32BE => Utf32EncodedOfHead(e, bs);
  }

  lemma Utf32HeadOfEncoded(e: Encoding, v: int, rest: seq<byte>)
    requires IsScalar(v)
    ensures DecodeUtf32(e, EncodeUtf32(e, v) + rest) == Head(v as char, 4)
  {
    var bs := EncodeUtf32(e, v) + rest;
    assert v == v / 0x1_0000 * 0x1_0000 + v / 0x100 % 0x100 * 0x100 + v % 0x100;
    if e == Utf32LE {
      assert bs[0] == v % 0x100 && bs[1] == v / 0x100 % 0x100 && bs[2] == v / 0x1_0000 && bs[3] == 0;
    } else {
      assert bs[3] == v % 0x100 && bs[2] == v / 0x100 % 0x100 && bs[1] == v / 0x1_0000 && bs[0] == 0;
    }
  }

  lemma HeadOfEncoded(e: Encoding, c: char, rest: seq<byte>)
    ensures DecodeChar(e, EncodeChar(e, c) + rest) == Head(c, |EncodeChar(e, c)|)
  {
    match e
    case Utf8 => Utf8HeadOfEncoded(c as int, rest);
    case Utf16LE => Utf16HeadOfEncoded(e, c as int, rest);
    case Utf16BE => Utf16HeadOfEncoded(e, c as int, rest);
    case Utf32LE => Utf32HeadOfEncoded(e, c as int, rest);
    case Utf32BE => Utf32HeadOfEncoded(e, c as int, rest);
  }

  /** Every text survives its encoding. */
  lemma {:induction false} DecodeEncode(e: Encoding, s: string)
    ensures Decode(e, Encode(e, s)) == Some(s)
  {
    if s == "" {
    } else {
      var first, rest := EncodeChar(e, s[0]), Encode(e, s[1..]);
      HeadOfEncoded(e, s[0], rest);
      assert (first + rest)[|first|..] == rest;
      DecodeEncode(e, s[1..]);
      assert [s[0]] + s[1..] == s;
    }
  }

  lemma DecodeUncons(e: Encoding, bs: seq<byte>) returns (h: Head, rest: string)
    requires bs != [] && Decode(e, bs).Some?
    ensures h == DecodeChar(e, bs) && h.Head?
    ensures Decode(e, bs[h.size..]) == Some(rest) && Decode(e, bs) == Some([h.c] + rest)
  {
    h := DecodeChar(e, bs);
    rest := Decode(e, bs[h.size..]).value;
  }

  lemma EncodeUncons(e: Encoding, bs: seq<byte>, h: Head, rest: string)
    requires bs != [] && h == DecodeChar(e, bs) && h.Head? && Encode(e, rest) == bs[h.size..]
    ensures Encode(e, [h.c] + rest) == bs
  {
    EncodedOfHead(e, bs);
    assert ([h.c] + rest)[1..] == rest;
    assert bs == bs[..h.size] + bs[h.size..];
  }

  /** The decoders are strict: what they accept is the encoding of what they return. */
  lemma {:induction false} EncodeDecode(e: Encoding, bs: seq<byte>)
    requires Decode(e, bs).Some?
    ensures Encode(e, Decode(e, bs).value) == bs
  {
    if bs == [] {
    } else {
      var h, rest := DecodeUncons(e, bs);
      EncodeDecode(e, bs[h.size..]);
      EncodeUncons(e, bs, h, rest);
    }
  }

  // --- What the standards promise of the forms themselves ------------------------------------

  /** Bytewise lexicographic order. */
  predicate Precedes(a: seq<byte>, b: seq<byte>)
    decreases |a|
  {
    b != [] && (a == [] || a[0] < b[0] || (a[0] == b[0] && Precedes(a[1..], b[1..])))
  }

  /** Every byte but the first of an encoded character is a continuation, so boundaries are found from anywhere. */
  lemma Utf8Boundaries(v: int)
    requires IsScalar(v)
    ensures !IsContinuation(EncodeUtf8(v)[0]) && forall i | 0 < i < |EncodeUtf8(v)| :: IsContinuation(EncodeUtf8(v)[i])
  {}

  lemma FirstByteDecides(a: seq<byte>, b: seq<byte>)
    requires a != [] && b != [] && a[0] < b[0]
    ensures Precedes(a, b)
  {}

  lemma SameFirstByte(a: seq<byte>, b: seq<byte>)
    requires a != [] && b != [] && a[0] == b[0] && Precedes(a[1..], b[1..])
    ensures Precedes(a, b)
  {}

  /** The last `n` of the continuation bytes of `v`. */
  function LowDigits(v: int, n: nat): (r: seq<byte>)
    requires 0 <= v
    ensures |r| == n
    decreases n
  {
    if n == 0 then [] else LowDigits(v / 0x40, n - 1) + [0x80 + v % 0x40]
  }

  lemma {:induction false} AppendPrecedes(a: seq<byte>, b: seq<byte>, x: byte, y: byte)
    requires |a| == |b| && (Precedes(a, b) || (a == b && x < y))
    ensures Precedes(a + [x], b + [y])
    decreases |a|
  {
    if a == [] {
    } else {
      assert (a + [x])[1..] == a[1..] + [x] && (b + [y])[1..] == b[1..] + [y];
      if a[0] == b[0] { AppendPrecedes(a[1..], b[1..], x, y); }
    }
  }

  function Quotient(v: int, n: nat): int
    requires 0 <= v
    decreases n
  {
    if n == 0 then v else Quotient(v / 0x40, n - 1)
  }

  lemma {:induction false} DigitsInOrder(v: int, w: int, n: nat, lead: byte, lead': byte)
    requires 0 <= v < w && lead <= lead' && (lead == lead' ==> Quotient(v, n) == Quotient(w, n))
    requires lead < lead' || n > 0
    ensures Precedes([lead] + LowDigits(v, n), [lead'] + LowDigits(w, n))
    decreases n
  {
    var a, b := [lead] + LowDigits(v, n), [lead'] + LowDigits(w, n);
    if lead < lead' {
      FirstByteDecides(a, b);
    } else {
      var a', b' := [lead] + LowDigits(v / 0x40, n - 1), [lead'] + LowDigits(w / 0x40, n - 1);
      assert a == a' + [0x80 + v % 0x40] && b == b' + [0x80 + w % 0x40];
      if v / 0x40 < w / 0x40 { DigitsInOrder(v / 0x40, w / 0x40, n - 1, lead, lead'); }
      AppendPrecedes(a', b', 0x80 + v % 0x40, 0x80 + w % 0x40);
    }
  }

  /** How many bytes follow the first. */
  function Followers(v: int): nat {
    if v < 0x80 then 0 else if v < 0x800 then 1 else if v < 0x1_0000 then 2 else 3
  }

  function Lead(v: int): byte
    requires IsScalar(v)
  {
    if v < 0x80 then v
    else if v < 0x800 then 0xC0 + v / 0x40
    else if v < 0x1_0000 then 0xE0 + v / 0x1000
    else 0xF0 + v / 0x4_0000
  }

  lemma Utf8Digits(v: int)
    requires IsScalar(v)
    ensures EncodeUtf8(v) == [Lead(v)] + LowDigits(v, Followers(v))
    ensures Quotient(v, Followers(v))
         == if v < 0x80 then v else Lead(v) - (if v < 0x800 then 0xC0 else if v < 0x1_0000 then 0xE0 else 0xF0)
  {
    assert v / 0x40 / 0x40 == v / 0x1000 && v / 0x40 / 0x40 / 0x40 == v / 0x4_0000;
    assert LowDigits(v / 0x40 / 0x40 / 0x40, 0) == [];
    assert LowDigits(v / 0x40 / 0x40, 1) == [0x80 + v / 0x40 / 0x40 % 0x40];
    assert LowDigits(v / 0x40, 1) == [0x80 + v / 0x40 % 0x40];
    assert Quotient(v, 1) == v / 0x40 && Quotient(v, 2) == Quotient(v / 0x40, 1) == v / 0x40 / 0x40;
    assert Quotient(v, 3) == Quotient(v / 0x40, 2) == Quotient(v / 0x40 / 0x40, 1);
  }

  /** UTF-8 strings sort like the characters they stand for. */
  lemma Utf8InOrder(v: int, w: int)
    requires IsScalar(v) && IsScalar(w) && v < w
    ensures Precedes(EncodeUtf8(v), EncodeUtf8(w))
  {
    Utf8Digits(v);
    Utf8Digits(w);
    if Followers(v) < Followers(w) {
      FirstByteDecides(EncodeUtf8(v), EncodeUtf8(w));
    } else {
      DigitsInOrder(v, w, Followers(v), Lead(v), Lead(w));
    }
  }

  /** The first difference decides. */
  lemma {:induction false} PrecedesAt(a: seq<byte>, b: seq<byte>, i: nat)
    requires i < |a| && i < |b| && a[i] < b[i] && forall k | 0 <= k < i :: a[k] == b[k]
    ensures Precedes(a, b)
    decreases i
  {
    if i == 0 {
    } else {
      PrecedesAt(a[1..], b[1..], i - 1);
    }
  }

  lemma PrecedesIf(a: seq<byte>, b: seq<byte>, i: nat)
    requires i < |a| && i < |b| && a[i] < b[i] && (i > 0 ==> a[0] == b[0]) && (i > 1 ==> a[1] == b[1])
    requires (i > 2 ==> a[2] == b[2]) && i < 4
    ensures Precedes(a, b)
  {
    PrecedesAt(a, b, i);
  }

  lemma OctetsInOrder(v: int, w: int)
    requires 0 <= v < w
    ensures
      || v / 0x1_0000 < w / 0x1_0000
      || (v / 0x1_0000 == w / 0x1_0000
          && (v / 0x100 % 0x100 < w / 0x100 % 0x100
              || (v / 0x100 % 0x100 == w / 0x100 % 0x100 && v % 0x100 < w % 0x100)))
  {
    assert v / 0x100 == v / 0x1_0000 * 0x100 + v / 0x100 % 0x100;
    assert w / 0x100 == w / 0x1_0000 * 0x100 + w / 0x100 % 0x100;
  }

  lemma Utf32InOrder(v: int, w: int)
    requires IsScalar(v) && IsScalar(w) && v < w
    ensures Precedes(EncodeUtf32(Utf32BE, v), EncodeUtf32(Utf32BE, w))
  {
    hide Precedes;
    OctetsInOrder(v, w);
    var a, b := EncodeUtf32(Utf32BE, v), EncodeUtf32(Utf32BE, w);
    PrecedesIf(a, b, if a[1] < b[1] then 1 else if a[2] < b[2] then 2 else 3);
  }

  /** Beyond the basic plane a character takes two units, and big-endian units sort like the characters. */
  lemma Utf16InOrder(v: int, w: int)
    requires IsScalar(v) && IsScalar(w) && v < w
    ensures |EncodeUtf16(Utf16BE, v)| == if v < 0x1_0000 then 2 else 4
    ensures (v < 0x1_0000 <==> w < 0x1_0000) ==> Precedes(EncodeUtf16(Utf16BE, v), EncodeUtf16(Utf16BE, w))
  {
    hide Precedes;
    var a, b := EncodeUtf16(Utf16BE, v), EncodeUtf16(Utf16BE, w);
    if v < 0x1_0000 <==> w < 0x1_0000 {
      PrecedesIf(a, b, if a[0] < b[0] then 0 else if a[1] < b[1] then 1 else if a[2] < b[2] then 2 else 3);
    }
  }

  lemma Append(e: Encoding, c: char, s: string)
    ensures Encode(e, [c] + s) == EncodeChar(e, c) + Encode(e, s)
  {
    assert ([c] + s)[1..] == s;
  }

  lemma OneCharacter(e: Encoding, c: char)
    ensures Encode(e, [c]) == EncodeChar(e, c)
  {}

  lemma FourCharacters(e: Encoding, a: char, b: char, c: char, d: char)
    ensures Encode(e, [a, b, c, d]) == EncodeChar(e, a) + EncodeChar(e, b) + EncodeChar(e, c) + EncodeChar(e, d)
  {
    hide EncodeChar;
    assert [a, b, c, d] == [a] + ([b] + ([c] + [d]));
    Append(e, a, [b] + ([c] + [d]));
    Append(e, b, [c] + [d]);
    Append(e, c, [d]);
    OneCharacter(e, d);
  }

  /** The examples of RFC 3629 (section 7) and RFC 2781 (section 4.3), and U+10302 in both orders of UTF-32. */
  lemma ReferenceExamples()
    ensures Encode(Utf8, ['A', '\U{2262}', '\U{0391}', '.']) == [0x41, 0xE2, 0x89, 0xA2, 0xCE, 0x91, 0x2E]
    ensures Encode(Utf8, ['\U{233B4}']) == [0xF0, 0xA3, 0x8E, 0xB4]
    ensures Encode(Utf16BE, ['\U{12345}']) == [0xD8, 0x08, 0xDF, 0x45]
    ensures Encode(Utf16LE, ['\U{12345}']) == [0x08, 0xD8, 0x45, 0xDF]
    ensures Encode(Utf32BE, ['\U{10302}']) == [0, 0x01, 0x03, 0x02]
    ensures Encode(Utf32LE, ['\U{10302}']) == [0x02, 0x03, 0x01, 0]
  {
    hide Encode;
    FourCharacters(Utf8, 'A', '\U{2262}', '\U{0391}', '.');
    OneCharacter(Utf8, '\U{233B4}');
    OneCharacter(Utf16BE, '\U{12345}');
    OneCharacter(Utf16LE, '\U{12345}');
    OneCharacter(Utf32BE, '\U{10302}');
    OneCharacter(Utf32LE, '\U{10302}');
  }
}
