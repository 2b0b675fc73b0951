/**
 Base64 (section 4 of RFC 4648) and its URL-safe alphabet (section 5), with the platform's
 `btoa` and forgiving `atob`, and Node's lenient `Buffer.from(text, "base64")`.
 */
module Base64 {
  import opened Utf8
  import opened Wrappers

  type Sextet = x: int | 0 <= x < 64

  function SextetChar(v: Sextet): char {
    if v < 26 then 'A' + v as char
    else if v < 52 then 'a' + (v - 26) as char
    else if v < 62 then '0' + (v - 52) as char
    else if v == 62 then '+'
    else '/'
  }

  predicate InAlphabet(c: char) {
    'A' <= c <= 'Z' || 'a' <= c <= 'z' || '0' <= c <= '9' || c == '+' || c == '/'
  }

  function CharSextet(c: char): Sextet
    requires InAlphabet(c)
  {
    if 'A' <= c <= 'Z' then c as int - 'A' as int
    else if 'a' <= c <= 'z' then c as int - 'a' as int + 26
    else if '0' <= c <= '9' then c as int - '0' as int + 52
    else if c == '+' then 62
    else 63
  }

  lemma SextetCharInverse(v: Sextet)
    ensures InAlphabet(SextetChar(v)) && CharSextet(SextetChar(v)) == v
  {
  }

  /** Table 1 of section 4 of RFC 4648. */
  lemma AlphabetIs(v: Sextet)
    ensures v < 26 ==> SextetChar(v) == "ABCDEFGHIJKLMNOPQRSTUVWXYZ"[v]
    ensures 26 <= v < 52 ==> SextetChar(v) == "abcdefghijklmnopqrstuvwxyz"[v - 26]
    ensures 52 <= v < 62 ==> SextetChar(v) == "0123456789"[v - 52]
    ensures SextetChar(62) == '+' && SextetChar(63) == '/'
  {
  }

  predicate AllInAlphabet(text: string) {
    forall i | 0 <= i < |text| :: InAlphabet(text[i])
  }

  /** The characters of one, two or three bytes. */
  function One(a: Byte): (q: string)
    ensures |q| == 2 && AllInAlphabet(q)
  {
    SextetCharInverse(a / 4);
    SextetCharInverse(a % 4 * 16);
    [SextetChar(a / 4), SextetChar(a % 4 * 16)]
  }

  function Two(a: Byte, b: Byte): (q: string)
    ensures |q| == 3 && AllInAlphabet(q)
  {
    SextetCharInverse(a / 4);
    SextetCharInverse(a % 4 * 16 + b / 16);
    SextetCharInverse(b % 16 * 4);
    [SextetChar(a / 4), SextetChar(a % 4 * 16 + b / 16), SextetChar(b % 16 * 4)]
  }

  function Three(a: Byte, b: Byte, c: Byte): (q: string)
    ensures |q| == 4 && AllInAlphabet(q)
  {
    SextetCharInverse(a / 4);
    SextetCharInverse(a % 4 * 16 + b / 16);
    SextetCharInverse(b % 16 * 4 + c / 64);
    SextetCharInverse(c % 64);
    [SextetChar(a / 4), SextetChar(a % 4 * 16 + b / 16), SextetChar(b % 16 * 4 + c / 64), SextetChar(c % 64)]
  }

  /** Padded base64. */
  function Encode64(b: seq<Byte>): string {
    if b == [] then []
    else if |b| == 1 then One(b[0]) + "=="
    else if |b| == 2 then Two(b[0], b[1]) + "="
    else Three(b[0], b[1], b[2]) + Encode64(b[3..])
  }

  lemma BlockVectors()
    ensures One(0x66) == "Zg" && Two(0x66, 0x6F) == "Zm8" && Three(0x66, 0x6F, 0x6F) == "Zm9v"
    ensures One(0x62) == "Yg" && Two(0x62, 0x61) == "YmE" && Three(0x62, 0x61, 0x72) == "YmFy"
  {
  }

  lemma EncodeBlocks(a: Byte, b: Byte, c: Byte, rest: seq<Byte>)
    ensures Encode64([a, b, c] + rest) == Three(a, b, c) + Encode64(rest)
    ensures Encode64([a]) == One(a) + "==" && Encode64([a, b]) == Two(a, b) + "=" && Encode64([a, b, c]) == Three(a, b, c)
  {
    assert ([a, b, c] + rest)[3..] == rest;
    assert [a, b, c][3..] == [];
    assert Encode64([]) == [];
  }

  /** The test vectors of section 10 of RFC 4648. */
  lemma EncodingVectors()
    ensures Encode64([]) == ""
    ensures Encode64([0x66]) == "Zg=="
    ensures Encode64([0x66, 0x6F]) == "Zm8="
    ensures Encode64([0x66, 0x6F, 0x6F]) == "Zm9v"
  {
    BlockVectors();
    EncodeBlocks(0x66, 0x6F, 0x6F, []);
  }

  lemma LongerEncodingVectors()
    ensures Encode64([0x66, 0x6F, 0x6F, 0x62]) == "Zm9vYg=="
    ensures Encode64([0x66, 0x6F, 0x6F, 0x62, 0x61]) == "Zm9vYmE="
    ensures Encode64([0x66, 0x6F, 0x6F, 0x62, 0x61, 0x72]) == "Zm9vYmFy"
  {
    BlockVectors();
    EncodeBlocks(0x62, 0x61, 0x72, []);
    assert [0x66, 0x6F, 0x6F] + [0x62] == [0x66, 0x6F, 0x6F, 0x62];
    assert [0x66, 0x6F, 0x6F] + [0x62, 0x61] == [0x66, 0x6F, 0x6F, 0x62, 0x61];
    assert [0x66, 0x6F, 0x6F] + [0x62, 0x61, 0x72] == [0x66, 0x6F, 0x6F, 0x62, 0x61, 0x72];
    EncodeBlocks(0x66, 0x6F, 0x6F, [0x62]);
    EncodeBlocks(0x66, 0x6F, 0x6F, [0x62, 0x61]);
    EncodeBlocks(0x66, 0x6F, 0x6F, [0x62, 0x61, 0x72]);
  }

  /** The whole bytes in a run of sextets; bits left over at the end are dropped. */
  function Bytes(core: string): seq<Byte>
    requires AllInAlphabet(core)
  {
    if |core| < 2 then []
    else
      var s0, s1 := CharSextet(core[0]), CharSextet(core[1]);
      if |core| == 2 then [s0 * 4 + s1 / 16]
      else
        var s2 := CharSextet(core[2]);
        if |core| == 3 then [s0 * 4 + s1 / 16, s1 % 16 * 16 + s2 / 4]
        else [s0 * 4 + s1 / 16, s1 % 16 * 16 + s2 / 4, s2 % 4 * 64 + CharSextet(core[3])] + Bytes(core[4..])
  }

  // ----- btoa and atob -----

  type CodeUnit = x: int | 0 <= x < 0x10000

  datatype CodecError = InvalidCharacterError

  /** `btoa` takes one code unit per byte and refuses anything above U+00FF. */
  function Btoa(binary: seq<CodeUnit>): Result<string, CodecError> {
    if exists i | 0 <= i < |binary| :: binary[i] > 0xFF then Err(InvalidCharacterError)
    else Ok(Encode64(seq(|binary|, i requires 0 <= i < |binary| => binary[i] as Byte)))
  }

  predicate IsWhitespace(c: char) {
    c == '\t' || c == '\n' || c == 12 as char || c == '\r' || c == ' '
  }

  function StripWhitespace(text: string): string {
    if text == [] then []
    else if IsWhitespace(text[0]) then StripWhitespace(text[1..])
    else [text[0]] + StripWhitespace(text[1..])
  }

  /** Up to two trailing `=`, dropped only when the length is a multiple of four. */
  function DropPadding(text: string): string {
    if |text| % 4 != 0 || text == [] || text[|text| - 1] != '=' then text
    else if text[|text| - 2] != '=' then text[..|text| - 1]
    else text[..|text| - 2]
  }

  function Atob(text: string): Result<seq<Byte>, CodecError> {
    var core := DropPadding(StripWhitespace(text));
    if |core| % 4 == 1 || !AllInAlphabet(core) then Err(InvalidCharacterError)
    else Ok(Bytes(core))
  }

  lemma {:induction false} StripConcat(a: string, b: string)
    ensures StripWhitespace(a + b) == StripWhitespace(a) + StripWhitespace(b)
  {
    if a == [] {
      assert a + b == b;
    } else {
      assert (a + b)[1..] == a[1..] + b;
      StripConcat(a[1..], b);
    }
  }

  /** `atob` skips the five ASCII whitespace characters, wherever they stand, and no other character. */
  lemma WhitespaceIsSkipped(a: string, c: char, b: string)
    ensures c as int in {0x09, 0x0A, 0x0C, 0x0D, 0x20} ==> Atob(a + [c] + b) == Atob(a + b)
    ensures c as int !in {0x09, 0x0A, 0x0C, 0x0D, 0x20} ==>
      StripWhitespace(a + [c] + b) == StripWhitespace(a) + [c] + StripWhitespace(b)
  {
    StripConcat(a + [c], b);
    StripConcat(a, [c]);
    StripConcat(a, b);
    assert [c][1..] == [];
    assert StripWhitespace([]) == [];
    assert StripWhitespace([c]) == if c as int in {0x09, 0x0A, 0x0C, 0x0D, 0x20} then [] else [c];
    assert StripWhitespace(a) + [] == StripWhitespace(a);
  }

  // ----- encode and back -----

  /** How many `=` the encoding of `b` ends in. */
  function PadCount(b: seq<Byte>): nat {
    (3 - |b| % 3) % 3
  }

  function Pad(n: nat): (pad: string)
    ensures |pad| == n && forall i | 0 <= i < n :: pad[i] == '='
  {
    if n == 0 then [] else ['='] + Pad(n - 1)
  }

  /** The encoding of `b` without its padding. */
  function Core(b: seq<Byte>): (core: string)
    ensures AllInAlphabet(core)
  {
    if b == [] then []
    else if |b| == 1 then One(b[0])
    else if |b| == 2 then Two(b[0], b[1])
    else Three(b[0], b[1], b[2]) + Core(b[3..])
  }

  lemma {:induction false} CoreLength(b: seq<Byte>)
    ensures |Core(b)| == |b| / 3 * 4 + (if |b| % 3 == 0 then 0 else |b| % 3 + 1)
  {
    if |b| >= 3 {
      CoreLength(b[3..]);
    }
  }

  lemma ShortIsCorePadded(b: seq<Byte>)
    requires |b| < 3
    ensures Encode64(b) == Core(b) + Pad(PadCount(b))
  {
    Pads();
    if b == [] {
      assert Encode64(b) == "" && Core(b) == "";
    } else if |b| == 1 {
      assert PadCount(b) == 2;
    } else {
      assert PadCount(b) == 1;
    }
  }

  lemma Pads()
    ensures Pad(0) == "" && Pad(1) == "=" && Pad(2) == "=="
  {
  }

  lemma PadCountStep(n: nat)
    requires n >= 3
    ensures (3 - (n - 3) % 3) % 3 == (3 - n % 3) % 3
  {
    assert (n - 3) % 3 == n % 3;
  }

  lemma {:induction false} EncodedIsCorePadded(b: seq<Byte>)
    ensures Encode64(b) == Core(b) + Pad(PadCount(b))
  {
    if |b| < 3 {
      ShortIsCorePadded(b);
    } else {
      EncodedIsCorePadded(b[3..]);
      PadCountStep(|b|);
      Regroup(Three(b[0], b[1], b[2]), Core(b[3..]), Pad(PadCount(b)));
    }
  }

  lemma Regroup(x: string, y: string, z: string)
    ensures x + (y + z) == x + y + z
  {
  }

  lemma PaddedShape(text: string, core: string, pad: nat)
    requires text == core + Pad(pad)
    ensures |text| == |core| + pad
    ensures forall i | 0 <= i < |core| :: text[i] == core[i]
    ensures forall i | |core| <= i < |text| :: text[i] == '='
  {
  }

  lemma PadCompletesQuads(b: seq<Byte>)
    ensures (|Core(b)| + PadCount(b)) % 4 == 0 && |Core(b)| % 4 != 1
  {
    CoreLength(b);
    Quads(|b| / 3, |b| % 3);
  }

  lemma Quads(q: nat, r: nat)
    requires r < 3
    ensures var n := q * 4 + (if r == 0 then 0 else r + 1); (n + (3 - r) % 3) % 4 == 0 && n % 4 != 1
  {
    assert r == 0 ==> (3 - r) % 3 == 0;
  }

  /** The shape of padded base64: whole quads of alphabet characters and trailing padding. */
  lemma EncodedShape(b: seq<Byte>)
    ensures |Encode64(b)| % 4 == 0 && |Encode64(b)| == |Core(b)| + PadCount(b) && |Core(b)| % 4 != 1
    ensures forall i | 0 <= i < |Core(b)| :: Encode64(b)[i] == Core(b)[i]
    ensures forall i | |Core(b)| <= i < |Encode64(b)| :: Encode64(b)[i] == '='
  {
    EncodedIsCorePadded(b);
    PaddedShape(Encode64(b), Core(b), PadCount(b));
    PadCompletesQuads(b);
  }

  lemma BytesOfOne(a: Byte)
    ensures Bytes(One(a)) == [a]
  {
    SextetCharInverse(a / 4);
    SextetCharInverse(a % 4 * 16);
  }

  lemma BytesOfTwo(a: Byte, b: Byte)
    ensures Bytes(Two(a, b)) == [a, b]
  {
    SextetCharInverse(a / 4);
    SextetCharInverse(a % 4 * 16 + b / 16);
    SextetCharInverse(b % 16 * 4);
  }

  /** Four sextets make three bytes, whatever follows them. */
  lemma BytesOfQuad(q: string, rest: string)
    requires |q| == 4 && AllInAlphabet(q) && AllInAlphabet(rest)
    ensures Bytes(q + rest) == BytesOfSextets(CharSextet(q[0]), CharSextet(q[1]), CharSextet(q[2]), CharSextet(q[3])) + Bytes(rest)
  {
    assert (q + rest)[4..] == rest;
    assert q[0] == (q + rest)[0] && q[1] == (q + rest)[1] && q[2] == (q + rest)[2] && q[3] == (q + rest)[3];
  }

  function BytesOfSextets(s0: Sextet, s1: Sextet, s2: Sextet, s3: Sextet): seq<Byte> {
    [s0 * 4 + s1 / 16, s1 % 16 * 16 + s2 / 4, s2 % 4 * 64 + s3]
  }

  lemma SextetsOfBytes(a: Byte, b: Byte, c: Byte)
    ensures BytesOfSextets(a / 4, a % 4 * 16 + b / 16, b % 16 * 4 + c / 64, c % 64) == [a, b, c]
  {
    assert (b % 16 * 4 + c / 64) / 4 == b % 16 && (b % 16 * 4 + c / 64) % 4 == c / 64;
  }

  lemma BytesOfThree(a: Byte, b: Byte, c: Byte, rest: string)
    requires AllInAlphabet(rest)
    ensures Bytes(Three(a, b, c) + rest) == [a, b, c] + Bytes(rest)
  {
    BytesOfQuad(Three(a, b, c), rest);
    SextetCharInverse(a / 4);
    SextetCharInverse(a % 4 * 16 + b / 16);
    SextetCharInverse(b % 16 * 4 + c / 64);
    SextetCharInverse(c % 64);
    SextetsOfBytes(a, b, c);
  }

  lemma {:induction false} BytesOfCore(b: seq<Byte>)
    ensures Bytes(Core(b)) == b
  {
    if |b| >= 3 {
      BytesOfThree(b[0], b[1], b[2], Core(b[3..]));
      BytesOfCore(b[3..]);
      assert b == [b[0], b[1], b[2]] + b[3..];
    } else if |b| == 2 {
      BytesOfTwo(b[0], b[1]);
    } else if |b| == 1 {
      BytesOfOne(b[0]);
    }
  }

  lemma {:induction false} NothingToStrip(text: string)
    requires forall i | 0 <= i < |text| :: !IsWhitespace(text[i])
    ensures StripWhitespace(text) == text
  {
    if text != [] {
      NothingToStrip(text[1..]);
    }
  }

  lemma DropPaddingOfEncoded(core: string, text: string, pad: nat)
    requires AllInAlphabet(core) && text == core + Pad(pad) && |text| % 4 == 0 && pad <= 2
    ensures DropPadding(text) == core
  {
    assert text[..|core|] == core;
    if text != [] && pad < 2 {
      assert text[|text| - 1 - pad] == core[|core| - 1];
    }
  }

  lemma AtobAccepts(text: string, core: string)
    requires StripWhitespace(text) == text && DropPadding(text) == core
    requires AllInAlphabet(core) && |core| % 4 != 1
    ensures Atob(text) == Ok(Bytes(core))
  {
  }

  /** `atob` undoes `btoa` on every byte string. */
  lemma AtobUndoesBtoa(b: seq<Byte>)
    ensures Atob(Encode64(b)) == Ok(b)
  {
    var text, core := Encode64(b), Core(b);
    EncodedShape(b);
    assert forall i | 0 <= i < |text| :: text[i] == '=' || InAlphabet(text[i]);
    NothingToStrip(text);
    EncodedIsCorePadded(b);
    DropPaddingOfEncoded(core, text, PadCount(b));
    AtobAccepts(text, core);
    BytesOfCore(b);
  }

  // ----- the URL-safe variant -----

  /** Each `-` becomes `+` and each `_` becomes `/`. */
  function StandardChar(c: char): char {
    if c == '-' then '+' else if c == '_' then '/' else c
  }

  function Standard(text: string): (r: string)
    ensures |r| == |text|
  {
    seq(|text|, i requires 0 <= i < |text| => StandardChar(text[i]))
  }

  function UrlSafe(text: string): (r: string)
    ensures |r| == |text|
  {
    seq(|text|, i requires 0 <= i < |text| =>
      if text[i] == '+' then '-' else if text[i] == '/' then '_' else text[i])
  }

  function Base64UrlToBase64(input: string): string {
    var normalized := Standard(input);
    normalized + Pad(if |normalized| % 4 == 0 then 0 else 4 - |normalized| % 4)
  }

  /** It leaves alone exactly what already is padded and free of the URL-safe characters. */
  lemma NormalisesOnlyIfNeeded(input: string)
    ensures Base64UrlToBase64(input) == input <==> |input| % 4 == 0 && '-' !in input && '_' !in input
  {
    var r := Standard(input);
    if |input| % 4 == 0 {
      assert Base64UrlToBase64(input) == r;
      if '-' !in input && '_' !in input {
        assert r == input;
      } else if '-' in input {
        var i :| 0 <= i < |input| && input[i] == '-';
        assert r[i] != input[i];
      } else {
        var i :| 0 <= i < |input| && input[i] == '_';
        assert r[i] != input[i];
      }
    } else {
      assert |Base64UrlToBase64(input)| != |input|;
    }
  }

  /** The spellings of a byte string that buyers send: either alphabet, with or without padding. */
  function Spelling(b: seq<Byte>, urlSafe: bool, padded: bool): string {
    var text := if padded then Encode64(b) else Core(b);
    if urlSafe then UrlSafe(text) else text
  }

  lemma StandardOfUrlSafe(text: string)
    requires forall i | 0 <= i < |text| :: text[i] != '-' && text[i] != '_'
    ensures Standard(UrlSafe(text)) == text && Standard(text) == text
  {
  }

  lemma Completes(text: string, input: string, pad: nat)
    requires Standard(input) == text && |text| == |input| && pad < 4 && (|text| + pad) % 4 == 0
    ensures Base64UrlToBase64(input) == text + Pad(pad)
  {
  }

  /** All four spellings normalise to the same padded base64. */
  lemma SpellingsNormalise(b: seq<Byte>, urlSafe: bool, padded: bool)
    ensures Base64UrlToBase64(Spelling(b, urlSafe, padded)) == Encode64(b)
  {
    EncodedShape(b);
    EncodedIsCorePadded(b);
    var text := if padded then Encode64(b) else Core(b);
    assert forall i | 0 <= i < |text| :: text[i] == '=' || InAlphabet(text[i]);
    StandardOfUrlSafe(text);
    Completes(text, Spelling(b, urlSafe, padded), if padded then 0 else PadCount(b));
  }

  // ----- Buffer -----

  /** What Node keeps of a base64 text: the characters of either alphabet, read as the standard one. */
  function Significant(text: string): (core: string)
    ensures AllInAlphabet(core)
  {
    if text == [] then []
    else if InAlphabet(StandardChar(text[0])) then [StandardChar(text[0])] + Significant(text[1..])
    else Significant(text[1..])
  }

  function BufferFrom(text: string): seq<Byte> {
    Bytes(Significant(text))
  }

  lemma {:induction false} SignificantOfAlphabet(core: string, pad: nat)
    requires AllInAlphabet(core)
    ensures Significant(core + Pad(pad)) == core
    decreases |core| + pad
  {
    var text := core + Pad(pad);
    if core != [] {
      assert text[1..] == core[1..] + Pad(pad);
      SignificantOfAlphabet(core[1..], pad);
    } else if pad > 0 {
      assert text[1..] == [] + Pad(pad - 1);
      SignificantOfAlphabet([], pad - 1);
    }
  }

  lemma BufferUndoesEncode(b: seq<Byte>)
    ensures BufferFrom(Encode64(b)) == b
  {
    EncodedIsCorePadded(b);
    SignificantOfAlphabet(Core(b), PadCount(b));
    BytesOfCore(b);
  }
}
