/**
 The X-PAYMENT and X-PAYMENT-RESPONSE headers: JSON text to UTF-8 to base64 and back, on
 both runtime branches, with the server accepting either alphabet, padded or not.
 */
module HeaderCodec {
  import opened Base64
  import opened Utf8
  import opened Wrappers

  // ----- the client's helpers, and the server's response encoder -----

  /**
   Grow a binary string byte by byte and hand it to `btoa`, as both encoders do without
   Buffer: the client's, and the server's for X-PAYMENT-RESPONSE.
   */
  method BtoaOfBytes(bytes: seq<Byte>) returns (text: string)
    ensures text == Encode64(bytes)
  {
    var binary: seq<CodeUnit> := [];
    for i := 0 to |bytes|
      invariant |binary| == i && forall j | 0 <= j < i :: binary[j] == bytes[j]
    {
      binary := binary + [bytes[i]];
    }
    assert seq(|binary|, i requires 0 <= i < |binary| => binary[i] as Byte) == bytes;
    text := Btoa(binary).value;
  }

  /** Fill a byte array from a binary string. */
  method BytesOfBinary(binary: seq<Byte>) returns (bytes: array<Byte>)
    ensures bytes[..] == binary
  {
    bytes := new Byte[|binary|];
    for i := 0 to |binary|
      invariant bytes[..i] == binary[..i]
    {
      bytes[i] := binary[i];
    }
  }

  /** The two runtime branches agree, and neither can throw. */
  method EncodeBase64(value: Text, hasBuffer: bool) returns (header: string)
    ensures header == Encode64(Encode(value))
  {
    if hasBuffer {
      header := Encode64(Encode(value));
    } else {
      header := BtoaOfBytes(Encode(value));
    }
  }

  /** The text a base64 value stands for: Buffer keeps a byte-order mark, TextDecoder drops it. */
  function TextOf(value: string, hasBuffer: bool): Result<Text, CodecError> {
    if hasBuffer then Ok(Decode(BufferFrom(value)))
    else
      match Atob(value)
      case Err(e) => Err(e)
      case Ok(bytes) => Ok(TextDecoderDecode(bytes))
  }

  method DecodeBase64(value: string, hasBuffer: bool) returns (r: Result<Text, CodecError>)
    ensures r == TextOf(value, hasBuffer)
  {
    if hasBuffer {
      return Ok(Decode(BufferFrom(value)));
    }
    var binary := Atob(value);
    if binary.Err? {
      return Err(binary.error);
    }
    var bytes := BytesOfBinary(binary.value);
    r := Ok(TextDecoderDecode(bytes[..]));
  }

  /**
   The round trip on every well-formed text: decoding gives the text back if and only if
   Buffer did the decoding or the text does not start with U+FEFF.
   */
  lemma DecodeUndoesEncode(text: Text, hasBuffer: bool)
    ensures TextOf(Encode64(Encode(text)), hasBuffer).Ok?
    ensures TextOf(Encode64(Encode(text)), hasBuffer) == Ok(text) <==> hasBuffer || !StartsWithMark(text)
  {
    AtobUndoesBtoa(Encode(text));
    BufferUndoesEncode(Encode(text));
    TextDecoderRoundTrip(text);
    DecodeEncode(text);
    if StartsWithMark(text) {
      assert |text[1..]| != |text|;
    }
  }

  // ----- the server's header decoder -----

  datatype DecodeError = MISSING_HEADER | INVALID_BASE64 | INVALID_JSON | INVALID_PAYLOAD

  /** JSON.parse and the payload schema are parameters; both may refuse. */
  datatype Parsers<!J, !P> = Parsers(json: Text -> Option<J>, payload: J -> Option<P>)

  function ParseText<J, P>(text: Text, parsers: Parsers<J, P>): Result<P, DecodeError> {
    match parsers.json(text)
    case None => Err(INVALID_JSON)
    case Some(value) =>
      match parsers.payload(value)
      case None => Err(INVALID_PAYLOAD)
      case Some(payload) => Ok(payload)
  }

  function DecodedHeader<J, P>(header: Option<string>, hasAtob: bool, parsers: Parsers<J, P>): Result<P, DecodeError> {
    if header.None? || header.value == [] then Err(MISSING_HEADER)
    else
      match TextOf(Base64UrlToBase64(header.value), !hasAtob)
      case Err(_) => Err(INVALID_BASE64)
      case Ok(text) => ParseText(text, parsers)
  }

  method DecodeXPaymentHeader<J, P>(header: Option<string>, hasAtob: bool, parsers: Parsers<J, P>)
    returns (r: Result<P, DecodeError>)
    ensures r == DecodedHeader(header, hasAtob, parsers)
  {
    if header.None? || |header.value| == 0 {
      return Err(MISSING_HEADER);
    }
    var padded := Base64UrlToBase64(header.value);
    var decoded: Text;
    if hasAtob {
      var binary := Atob(padded);
      if binary.Err? {
        return Err(INVALID_BASE64);
      }
      var bytes := BytesOfBinary(binary.value);
      decoded := TextDecoderDecode(bytes[..]);
    } else {
      decoded := Decode(BufferFrom(padded));
    }
    var parsed := parsers.json(decoded);
    if parsed.None? {
      return Err(INVALID_JSON);
    }
    var payload := parsers.payload(parsed.value);
    if payload.None? {
      return Err(INVALID_PAYLOAD);
    }
    r := Ok(payload.value);
  }

  /** Each answer of the decoder has its exact cause, in this order: no header, no base64, no JSON, no payload. */
  lemma AnswersBecause<J, P>(header: Option<string>, hasAtob: bool, parsers: Parsers<J, P>)
    ensures
      var present := header.Some? && header.value != "";
      var text := if present then TextOf(Base64UrlToBase64(header.value), !hasAtob) else Err(InvalidCharacterError);
      var value := if text.Ok? then parsers.json(text.value) else None;
      match DecodedHeader(header, hasAtob, parsers)
      case Err(MISSING_HEADER) => !present
      case Err(INVALID_BASE64) => present && text.Err? && hasAtob
      case Err(INVALID_JSON) => present && text.Ok? && value.None?
      case Err(INVALID_PAYLOAD) => value.Some? && parsers.payload(value.value).None?
      case Ok(payload) => value.Some? && parsers.payload(value.value) == Some(payload)
  {
  }

  /**
   Whatever spelling of base64 the buyer used, the server parses exactly the text the
   buyer encoded: for every non-empty text without a leading byte-order mark.
   */
  lemma HeaderCarriesText<J, P>(text: Text, urlSafe: bool, padded: bool, hasAtob: bool, parsers: Parsers<J, P>)
    requires text != [] && !StartsWithMark(text)
    ensures DecodedHeader(Some(Spelling(Encode(text), urlSafe, padded)), hasAtob, parsers) == ParseText(text, parsers)
  {
    var bytes := Encode(text);
    EncodedShape(bytes);
    assert |Spelling(bytes, urlSafe, padded)| > 0 by {
      CoreLength(bytes);
      assert |bytes| > 0;
    }
    SpellingsNormalise(bytes, urlSafe, padded);
    DecodeUndoesEncode(text, !hasAtob);
  }

  // ----- which headers are base64 at all -----

  /** The length of the run of `=` at the end. */
  function TrailingPad(text: string): (k: nat)
    ensures k <= |text|
    ensures forall i | |text| - k <= i < |text| :: text[i] == '='
    ensures k < |text| ==> text[|text| - 1 - k] != '='
  {
    if text == [] || text[|text| - 1] != '=' then 0
    else 1 + TrailingPad(text[..|text| - 1])
  }

  /** The characters before that run are all in one of the two alphabets. */
  predicate BodyInAlphabet(header: string) {
    forall i | 0 <= i < |header| - TrailingPad(header) :: InAlphabet(StandardChar(header[i]))
  }

  function Completion(header: string): nat {
    (4 - |header| % 4) % 4
  }

  lemma {:induction false} StripStandard(text: string)
    ensures StripWhitespace(Standard(text)) == Standard(StripWhitespace(text))
  {
    if text != [] {
      assert Standard(text)[1..] == Standard(text[1..]);
      StripStandard(text[1..]);
    }
  }

  /** What `atob` looks at once the header is normalised, padded and stripped of whitespace. */
  function Stripped(header: string): string {
    Standard(StripWhitespace(header)) + Pad(Completion(header))
  }

  lemma NormalisedStrips(header: string)
    ensures StripWhitespace(Base64UrlToBase64(header)) == Stripped(header)
  {
    CompletionFills(|header|);
    Completes(Standard(header), header, Completion(header));
    StripConcat(Standard(header), Pad(Completion(header)));
    StripStandard(header);
    NothingToStrip(Pad(Completion(header)));
  }

  lemma StrippedShape(header: string)
    ensures var text, own := Stripped(header), StripWhitespace(header);
      var body := |own| - TrailingPad(own);
      && |text| == |own| + Completion(header)
      && (forall i | 0 <= i < body :: text[i] == StandardChar(own[i]))
      && (forall i | body <= i < |text| :: text[i] == '=')
      && (body > 0 ==> text[body - 1] != '=')
  {
    var own := StripWhitespace(header);
    PaddedShape(Stripped(header), Standard(own), Completion(header));
    assert forall i | 0 <= i < |own| :: Stripped(header)[i] == StandardChar(own[i]);
  }

  lemma CompletionFills(n: nat)
    ensures (n + (4 - n % 4) % 4) % 4 == 0
  {
    assert n % 4 == 0 ==> (4 - n % 4) % 4 == 0;
  }

  /** The run of `=` at the end of a text of whole quads is dropped if it is no longer than two, and refused otherwise. */
  lemma LongRunRefused(text: string, body: nat)
    requires |text| % 4 == 0 && body + 2 < |text|
    requires forall i | body <= i < |text| :: text[i] == '='
    ensures !AllInAlphabet(DropPadding(text))
  {
    assert DropPadding(text) == text[..|text| - 2];
    assert DropPadding(text)[body] == '=';
  }

  lemma ShortRunDropped(text: string, body: nat)
    requires |text| % 4 == 0 && body <= |text| <= body + 2
    requires forall i | body <= i < |text| :: text[i] == '='
    requires body > 0 ==> text[body - 1] != '='
    ensures DropPadding(text) == text[..body] && body % 4 != 1
  {
    assert |text| == body || |text| == body + 1 || |text| == body + 2;
    assert text[..|text|] == text;
  }

  /** Whether `own` padding characters and `added` ones suit a text of `length` characters before the added ones. */
  predicate PaddingFits(length: nat, own: nat, added: nat) {
    if (length + added) % 4 == 0 then own + added <= 2 else own + added == 0 && length % 4 != 1
  }

  lemma DroppedIff(text: string, body: nat)
    requires body <= |text|
    requires forall i | body <= i < |text| :: text[i] == '='
    requires body > 0 ==> text[body - 1] != '='
    ensures AllInAlphabet(DropPadding(text)) && |DropPadding(text)| % 4 != 1 <==>
      && AllInAlphabet(text[..body])
      && if |text| % 4 == 0 then |text| <= body + 2 else |text| == body && body % 4 != 1
  {
    if |text| % 4 != 0 {
      assert DropPadding(text) == text;
      if |text| > body {
        assert !InAlphabet(text[body]);
      } else {
        assert text[..body] == text;
      }
    } else if |text| <= body + 2 {
      ShortRunDropped(text, body);
    } else {
      LongRunRefused(text, body);
    }
  }

  lemma AtobOkIff(text: string)
    ensures Atob(text).Ok? <==>
      AllInAlphabet(DropPadding(StripWhitespace(text))) && |DropPadding(StripWhitespace(text))| % 4 != 1
  {
  }

  lemma BodyIff(header: string, body: nat)
    requires body == |StripWhitespace(header)| - TrailingPad(StripWhitespace(header))
    ensures body <= |Stripped(header)|
    ensures AllInAlphabet(Stripped(header)[..body]) <==> BodyInAlphabet(StripWhitespace(header))
  {
    var text, own := Stripped(header), StripWhitespace(header);
    StrippedShape(header);
    assert forall i | 0 <= i < body :: text[..body][i] == StandardChar(own[i]);
  }

  /**
   A header gets past the base64 step if and only if, whitespace aside, it is a run of
   characters of either alphabet followed by `=`, and the `=` it has and those appended to
   fill its last quad fit: at most two when the whole comes to full quads. The quads are
   filled up before whitespace is dropped, so with whitespace inside they may not come to
   full quads; then there must be no `=` at all.
   */
  lemma HeaderIsBase64Iff(header: string)
    ensures Atob(Base64UrlToBase64(header)).Ok? <==>
      var own := StripWhitespace(header);
      BodyInAlphabet(own) && PaddingFits(|own|, TrailingPad(own), Completion(header))
  {
    var body := |StripWhitespace(header)| - TrailingPad(StripWhitespace(header));
    AtobOkIff(Base64UrlToBase64(header));
    NormalisedStrips(header);
    StrippedShape(header);
    BodyIff(header, body);
    DroppedIff(Stripped(header), body);
  }

  /** Without whitespace the condition is just that at most two `=` are had or needed. */
  lemma PaddingFitsIff(header: string, own: nat)
    ensures PaddingFits(|header|, own, Completion(header)) <==> own + Completion(header) <= 2
  {
    CompletionFills(|header|);
  }
}
