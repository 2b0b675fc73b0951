/**
 UTF-8 as the platform's TextEncoder and TextDecoder implement it: section 3 of RFC 3629
 for the encoding, with U+FFFD in place of each maximal ill-formed prefix on decoding.
 Text is a sequence of Unicode scalar values, that is, a well-formed string.
 */
module Utf8 {
  type Byte = x: int | 0 <= x < 0x100

  type Scalar = x: int | 0 <= x < 0xD800 || 0xE000 <= x < 0x110000

  type Text = seq<Scalar>

  const REPLACEMENT: Scalar := 0xFFFD
  const BYTE_ORDER_MARK: Scalar := 0xFEFF

  function EncodeScalar(c: Scalar): (bytes: seq<Byte>)
    ensures 1 <= |bytes| <= 4
  {
    if c < 0x80 then [c]
    else if c < 0x800 then [0xC0 + c / 0x40, 0x80 + c % 0x40]
    else if c < 0x10000 then [0xE0 + c / 0x1000, 0x80 + c / 0x40 % 0x40, 0x80 + c % 0x40]
    else [0xF0 + c / 0x40000, 0x80 + c / 0x1000 % 0x40, 0x80 + c / 0x40 % 0x40, 0x80 + c % 0x40]
  }

  function Encode(text: Text): seq<Byte> {
    if text == [] then [] else EncodeScalar(text[0]) + Encode(text[1..])
  }

  /** How many continuation bytes follow lead byte `b`; 0 also for a byte that leads nothing. */
  function Needed(b: Byte): nat {
    if 0xC2 <= b <= 0xDF then 1
    else if 0xE0 <= b <= 0xEF then 2
    else if 0xF0 <= b <= 0xF4 then 3
    else 0
  }

  /** The range the byte right after lead byte `b` must lie in. */
  function Lower(b: Byte): Byte {
    if b == 0xE0 then 0xA0 else if b == 0xF0 then 0x90 else 0x80
  }

  function Upper(b: Byte): Byte {
    if b == 0xED then 0x9F else if b == 0xF4 then 0x8F else 0xBF
  }

  predicate Continues(b: Byte) {
    0x80 <= b <= 0xBF
  }

  /** How many bytes after the lead of `bytes` fit, up to the number it needs. */
  function Fitting(bytes: seq<Byte>): (n: nat)
    requires bytes != []
    ensures n <= Needed(bytes[0]) && n < |bytes|
  {
    var need := Needed(bytes[0]);
    if need == 0 || |bytes| < 2 || !(Lower(bytes[0]) <= bytes[1] <= Upper(bytes[0])) then 0
    else if need == 1 || |bytes| < 3 || !Continues(bytes[2]) then 1
    else if need == 2 || |bytes| < 4 || !Continues(bytes[3]) then 2
    else 3
  }

  function Assemble(bytes: seq<Byte>): Scalar
    requires bytes != [] && Needed(bytes[0]) > 0 && Fitting(bytes) == Needed(bytes[0])
  {
    var lead: int := bytes[0];
    match Needed(bytes[0])
    case 1 => (lead - 0xC0) * 0x40 + Tail(bytes[1])
    case 2 => (lead - 0xE0) * 0x1000 + Tail(bytes[1]) * 0x40 + Tail(bytes[2])
    case _ => (lead - 0xF0) * 0x40000 + Tail(bytes[1]) * 0x1000 + Tail(bytes[2]) * 0x40 + Tail(bytes[3])
  }

  /** The six bits a continuation byte carries. */
  function Tail(b: Byte): int {
    b - 0x80
  }

  /** The first character of `bytes` and the number of bytes it takes up. */
  function DecodeFirst(bytes: seq<Byte>): (r: (Scalar, nat))
    requires bytes != []
    ensures 1 <= r.1 <= |bytes|
  {
    if bytes[0] < 0x80 then (bytes[0], 1)
    else if Needed(bytes[0]) > 0 && Fitting(bytes) == Needed(bytes[0]) then (Assemble(bytes), 1 + Fitting(bytes))
    else (REPLACEMENT, 1 + Fitting(bytes))
  }

  function Decode(bytes: seq<Byte>): Text {
    if bytes == [] then []
    else
      var (c, n) := DecodeFirst(bytes);
      [c] + Decode(bytes[n..])
  }

  /** `new TextDecoder().decode(bytes)`: a leading byte-order mark is swallowed. */
  function TextDecoderDecode(bytes: seq<Byte>): Text {
    if |bytes| >= 3 && bytes[..3] == [0xEF, 0xBB, 0xBF] then Decode(bytes[3..]) else Decode(bytes)
  }

  lemma DecodeEncodedScalar(c: Scalar, rest: seq<Byte>)
    ensures DecodeFirst(EncodeScalar(c) + rest) == (c, |EncodeScalar(c)|)
  {
    var bytes := EncodeScalar(c) + rest;
    if c < 0x80 {
    } else if c < 0x800 {
      assert bytes[0] == 0xC0 + c / 0x40 && bytes[1] == 0x80 + c % 0x40;
    } else if c < 0x10000 {
      ThreeBytes(c);
      assert bytes[0] == 0xE0 + c / 0x1000 && bytes[1] == 0x80 + c / 0x40 % 0x40 && bytes[2] == 0x80 + c % 0x40;
    } else {
      FourBytes(c);
      assert bytes[0] == 0xF0 + c / 0x40000 && bytes[1] == 0x80 + c / 0x1000 % 0x40;
      assert bytes[2] == 0x80 + c / 0x40 % 0x40 && bytes[3] == 0x80 + c % 0x40;
    }
  }

  lemma ThreeBytes(c: Scalar)
    requires 0x800 <= c < 0x10000
    ensures c == c / 0x1000 * 0x1000 + c / 0x40 % 0x40 * 0x40 + c % 0x40
    ensures c / 0x1000 == 0 ==> c / 0x40 % 0x40 >= 0x20
    ensures c / 0x1000 == 0xD ==> c / 0x40 % 0x40 < 0x20
  {
    assert c / 0x40 / 0x40 == c / 0x1000;
  }

  lemma FourBytes(c: Scalar)
    requires 0x10000 <= c
    ensures c == c / 0x40000 * 0x40000 + c / 0x1000 % 0x40 * 0x1000 + c / 0x40 % 0x40 * 0x40 + c % 0x40
    ensures c / 0x40000 <= 4
    ensures c / 0x40000 == 0 ==> c / 0x1000 % 0x40 >= 0x10
    ensures c / 0x40000 == 4 ==> c / 0x1000 % 0x40 < 0x10
  {
    assert c / 0x40 / 0x40 == c / 0x1000;
    assert c / 0x1000 / 0x40 == c / 0x40000;
  }

  /** Decoding undoes encoding, for every well-formed text. */
  lemma {:induction false} DecodeEncode(text: Text)
    ensures Decode(Encode(text)) == text
  {
    if text != [] {
      var rest := Encode(text[1..]);
      DecodeEncodedScalar(text[0], rest);
      assert (EncodeScalar(text[0]) + rest)[|EncodeScalar(text[0])|..] == rest;
      DecodeEncode(text[1..]);
    }
  }

  /** The examples of section 7 of RFC 3629, and U+10FFFF, the last scalar value. */
  lemma EncodingExamples()
    ensures EncodeScalar(0x41) == [0x41]
    ensures EncodeScalar(0x391) == [0xCE, 0x91]
    ensures EncodeScalar(0x2262) == [0xE2, 0x89, 0xA2]
    ensures EncodeScalar(0x65E5) == [0xE6, 0x97, 0xA5]
    ensures EncodeScalar(0xD55C) == [0xED, 0x95, 0x9C]
    ensures EncodeScalar(0x233B4) == [0xF0, 0xA3, 0x8E, 0xB4]
    ensures EncodeScalar(0x10FFFF) == [0xF4, 0x8F, 0xBF, 0xBF]
    ensures EncodeScalar(BYTE_ORDER_MARK) == [0xEF, 0xBB, 0xBF]
  {
  }

  lemma Sixths(high: nat, low: nat)
    requires low < 0x40
    ensures (high * 0x40 + low) / 0x40 == high && (high * 0x40 + low) % 0x40 == low
  {
  }

  lemma AssembledTwo(bytes: seq<Byte>)
    requires |bytes| >= 2 && Needed(bytes[0]) == 1 && Fitting(bytes) == 1
    ensures EncodeScalar(Assemble(bytes)) == bytes[..2]
  {
    Sixths(bytes[0] - 0xC0, Tail(bytes[1]));
  }

  lemma AssembledThree(bytes: seq<Byte>)
    requires |bytes| >= 3 && Needed(bytes[0]) == 2 && Fitting(bytes) == 2
    ensures EncodeScalar(Assemble(bytes)) == bytes[..3]
  {
    var c: int := Assemble(bytes);
    var high := (bytes[0] - 0xE0) * 0x40 + Tail(bytes[1]);
    assert c == high * 0x40 + Tail(bytes[2]);
    Sixths(high, Tail(bytes[2]));
    Sixths(bytes[0] - 0xE0, Tail(bytes[1]));
    assert c / 0x40 / 0x40 == c / 0x1000;
  }

  lemma AssembledFour(bytes: seq<Byte>)
    requires |bytes| >= 4 && Needed(bytes[0]) == 3 && Fitting(bytes) == 3
    ensures EncodeScalar(Assemble(bytes)) == bytes[..4]
  {
    var c: int := Assemble(bytes);
    var top := (bytes[0] - 0xF0) * 0x40 + Tail(bytes[1]);
    var high := top * 0x40 + Tail(bytes[2]);
    assert c == high * 0x40 + Tail(bytes[3]);
    Sixths(high, Tail(bytes[3]));
    Sixths(top, Tail(bytes[2]));
    Sixths(bytes[0] - 0xF0, Tail(bytes[1]));
    assert c / 0x40 / 0x40 == c / 0x1000;
    assert c / 0x1000 / 0x40 == c / 0x40000;
  }

  /** Decoding invents nothing: a character is read off exactly its own encoding, and U+FFFD stands where no encoding does. */
  lemma DecodeFirstIff(bytes: seq<Byte>, d: Scalar)
    requires bytes != []
    ensures EncodeScalar(d) <= bytes <==> bytes[..DecodeFirst(bytes).1] == EncodeScalar(d)
    ensures bytes[..DecodeFirst(bytes).1] == EncodeScalar(d) ==> DecodeFirst(bytes).0 == d
    ensures DecodeFirst(bytes).0 == REPLACEMENT || bytes[..DecodeFirst(bytes).1] == EncodeScalar(DecodeFirst(bytes).0)
  {
    if EncodeScalar(d) <= bytes {
      DecodeEncodedScalar(d, bytes[|EncodeScalar(d)|..]);
      assert EncodeScalar(d) + bytes[|EncodeScalar(d)|..] == bytes;
    }
    if bytes[0] >= 0x80 && Needed(bytes[0]) > 0 && Fitting(bytes) == Needed(bytes[0]) {
      if Needed(bytes[0]) == 1 {
        AssembledTwo(bytes);
      } else if Needed(bytes[0]) == 2 {
        AssembledThree(bytes);
      } else {
        AssembledFour(bytes);
      }
    }
  }

  predicate StartsWithMark(text: Text) {
    text != [] && text[0] == BYTE_ORDER_MARK
  }

  lemma MarkBytes(text: Text)
    ensures |Encode(text)| >= 3 && Encode(text)[..3] == [0xEF, 0xBB, 0xBF] <==> StartsWithMark(text)
  {
    var bytes := Encode(text);
    if text != [] {
      DecodeEncodedScalar(text[0], Encode(text[1..]));
      if |bytes| >= 3 && bytes[..3] == [0xEF, 0xBB, 0xBF] {
        assert bytes[0] == 0xEF && bytes[1] == 0xBB && bytes[2] == 0xBF;
        assert DecodeFirst(bytes).0 == BYTE_ORDER_MARK;
      }
    }
  }

  /** TextDecoder gives the text back exactly when it does not start with U+FEFF. */
  lemma TextDecoderRoundTrip(text: Text)
    ensures TextDecoderDecode(Encode(text)) == if StartsWithMark(text) then text[1..] else text
  {
    MarkBytes(text);
    DecodeEncode(text);
    if StartsWithMark(text) {
      assert EncodeScalar(BYTE_ORDER_MARK) == [0xEF, 0xBB, 0xBF];
      assert Encode(text)[3..] == Encode(text[1..]);
      DecodeEncode(text[1..]);
    }
  }
}
