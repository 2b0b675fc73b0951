/**
 Plain JSON values and the text `JSON.stringify` prints for them.

 Strings are sequences of UTF-16 code units, lone surrogates included. A number is
 represented by the numeral it prints as: every finite number prints as exactly one
 numeral, and two numbers that are `===` print alike.
 */
module Json {
  type CodeUnit = x: int | 0 <= x < 0x10000

  type JsString = seq<CodeUnit>

  /** A digit, sign, decimal point or exponent mark. */
  predicate IsNumeralUnit(c: CodeUnit) {
    0x30 <= c <= 0x39 || c == 0x2B || c == 0x2D || c == 0x2E || c == 0x65
  }

  type Numeral = s: JsString | s != [] && forall i | 0 <= i < |s| :: IsNumeralUnit(s[i])
    witness [0x30]

  datatype Json =
    | JNull
    | JBool(b: bool)
    | JNumber(numeral: Numeral)
    | JString(s: JsString)
    | JArray(items: seq<Json>)
    | JObject(members: seq<Member>)

  /** Members stand in `Object.keys` order. */
  datatype Member = Member(key: JsString, value: Json)

  ghost predicate UniqueKeys(members: seq<Member>) {
    forall i, j | 0 <= i < j < |members| :: members[i].key != members[j].key
  }

  /** A value JSON.parse can return: no object has the same key twice. */
  ghost predicate WellFormed(v: Json) {
    match v
    case JArray(items) => forall i | 0 <= i < |items| :: WellFormed(items[i])
    case JObject(members) =>
      UniqueKeys(members) && forall i | 0 <= i < |members| :: WellFormed(members[i].value)
    case _ => true
  }

  // ----- printing -----

  const QUOTE: CodeUnit := 0x22
  const BACKSLASH: CodeUnit := 0x5C
  const COMMA: CodeUnit := 0x2C
  const COLON: CodeUnit := 0x3A
  const OPEN_BRACKET: CodeUnit := 0x5B
  const CLOSE_BRACKET: CodeUnit := 0x5D
  const OPEN_BRACE: CodeUnit := 0x7B
  const CLOSE_BRACE: CodeUnit := 0x7D

  const NULL_TEXT: JsString := [0x6E, 0x75, 0x6C, 0x6C]
  const TRUE_TEXT: JsString := [0x74, 0x72, 0x75, 0x65]
  const FALSE_TEXT: JsString := [0x66, 0x61, 0x6C, 0x73, 0x65]

  predicate IsHighSurrogate(c: CodeUnit) { 0xD800 <= c <= 0xDBFF }

  predicate IsLowSurrogate(c: CodeUnit) { 0xDC00 <= c <= 0xDFFF }

  predicate StartsWithPair(s: JsString) {
    |s| >= 2 && IsHighSurrogate(s[0]) && IsLowSurrogate(s[1])
  }

  /** A lower-case hexadecimal digit. */
  function HexDigit(d: int): CodeUnit
    requires 0 <= d < 16
  {
    if d < 10 then 0x30 + d else 0x57 + d
  }

  function HexEscape(c: CodeUnit): JsString {
    [BACKSLASH, 0x75, HexDigit(c / 4096), HexDigit(c / 256 % 16), HexDigit(c / 16 % 16), HexDigit(c % 16)]
  }

  /** The printed form of one code unit that does not start a surrogate pair. */
  function EscapeUnit(c: CodeUnit): JsString {
    if c == QUOTE || c == BACKSLASH then [BACKSLASH, c]
    else if c == 0x08 then [BACKSLASH, 0x62]
    else if c == 0x09 then [BACKSLASH, 0x74]
    else if c == 0x0A then [BACKSLASH, 0x6E]
    else if c == 0x0C then [BACKSLASH, 0x66]
    else if c == 0x0D then [BACKSLASH, 0x72]
    else if c < 0x20 || IsHighSurrogate(c) || IsLowSurrogate(c) then HexEscape(c)
    else [c]
  }

  function Escape(s: JsString): JsString {
    if s == [] then []
    else if StartsWithPair(s) then s[..2] + Escape(s[2..])
    else EscapeUnit(s[0]) + Escape(s[1..])
  }

  function PrintString(s: JsString): JsString {
    [QUOTE] + Escape(s) + [QUOTE]
  }

  function Print(v: Json): JsString
    decreases v, 0
  {
    match v
    case JNull => NULL_TEXT
    case JBool(b) => if b then TRUE_TEXT else FALSE_TEXT
    case JNumber(numeral) => numeral
    case JString(s) => PrintString(s)
    case JArray(items) => [OPEN_BRACKET] + PrintItems(items) + [CLOSE_BRACKET]
    case JObject(members) => [OPEN_BRACE] + PrintMembers(members) + [CLOSE_BRACE]
  }

  function PrintItems(items: seq<Json>): JsString
    decreases items, 1
  {
    if items == [] then []
    else if |items| == 1 then Print(items[0])
    else Print(items[0]) + [COMMA] + PrintItems(items[1..])
  }

  function PrintMember(m: Member): JsString
    decreases m, 1
  {
    PrintString(m.key) + [COLON] + Print(m.value)
  }

  function PrintMembers(members: seq<Member>): JsString
    decreases members, 2
  {
    if members == [] then []
    else if |members| == 1 then PrintMember(members[0])
    else PrintMember(members[0]) + [COMMA] + PrintMembers(members[1..])
  }

  /** The printed text of small values, code unit by code unit. */
  lemma PrintedExamples()
    ensures Print(JNull) == [0x6E, 0x75, 0x6C, 0x6C]
    ensures Print(JBool(true)) == [0x74, 0x72, 0x75, 0x65]
    ensures Print(JBool(false)) == [0x66, 0x61, 0x6C, 0x73, 0x65]
    ensures Print(JArray([])) == [0x5B, 0x5D] && Print(JObject([])) == [0x7B, 0x7D]
  {
  }

  lemma PrintedPairs(v: Json, w: Json, k: JsString, l: JsString)
    ensures Print(JArray([v, w])) == [0x5B] + (Print(v) + [0x2C] + Print(w)) + [0x5D]
    ensures Print(JObject([Member(k, v), Member(l, w)])) ==
      [0x7B] + ((PrintString(k) + [0x3A] + Print(v)) + [0x2C] + (PrintString(l) + [0x3A] + Print(w))) + [0x7D]
  {
    var items, members := [v, w], [Member(k, v), Member(l, w)];
    assert items[1..] == [w] && members[1..] == [Member(l, w)];
    assert PrintItems([w]) == Print(w) && PrintItems(items) == Print(v) + [COMMA] + PrintItems([w]);
    assert PrintMembers([Member(l, w)]) == PrintMember(Member(l, w));
    assert PrintMembers(members) == PrintMember(Member(k, v)) + [COMMA] + PrintMembers([Member(l, w)]);
  }

  /** Quotes, backslashes, control characters and lone surrogates are escaped as ECMA-262 says, and nothing else is. */
  lemma EscapesExactly(c: CodeUnit)
    ensures EscapeUnit(0x22) == [0x5C, 0x22] && EscapeUnit(0x5C) == [0x5C, 0x5C]
    ensures EscapeUnit(0x08) == [0x5C, 0x62] && EscapeUnit(0x09) == [0x5C, 0x74] && EscapeUnit(0x0A) == [0x5C, 0x6E]
    ensures EscapeUnit(0x0C) == [0x5C, 0x66] && EscapeUnit(0x0D) == [0x5C, 0x72]
    ensures EscapeUnit(0x1F) == [0x5C, 0x75, 0x30, 0x30, 0x31, 0x66]
    ensures EscapeUnit(0xD83D) == [0x5C, 0x75, 0x64, 0x38, 0x33, 0x64]
    ensures EscapeUnit(c) == [c] <==> c >= 0x20 && c != 0x22 && c != 0x5C && !(0xD800 <= c <= 0xDFFF)
  {
  }

  // ----- the printer is injective -----

  lemma DropFirst(a: JsString, x: JsString, b: JsString, y: JsString)
    requires a + x == b + y && |a| == |b|
    ensures a == b && x == y
  {
    assert a == (a + x)[..|a|] && b == (b + y)[..|b|];
    assert x == (a + x)[|a|..] && y == (b + y)[|b|..];
  }

  lemma HexDigitInjective(d: int, e: int)
    requires 0 <= d < 16 && 0 <= e < 16 && HexDigit(d) == HexDigit(e)
    ensures d == e
  {
  }

  /** A code unit is made of its four nibbles. */
  lemma Nibbles(c: CodeUnit)
    ensures c == (c / 4096) * 4096 + (c / 256 % 16) * 256 + (c / 16 % 16) * 16 + c % 16
    ensures 0 <= c / 4096 < 16
  {
    assert c / 16 / 16 == c / 256;
    assert c / 256 / 16 == c / 4096;
  }

  lemma HexEscapeInjective(c: CodeUnit, d: CodeUnit)
    requires HexEscape(c) == HexEscape(d)
    ensures c == d
  {
    var x, y := HexEscape(c), HexEscape(d);
    assert x[2] == y[2] && x[3] == y[3] && x[4] == y[4] && x[5] == y[5];
    Nibbles(c);
    Nibbles(d);
    HexDigitInjective(c / 4096, d / 4096);
    HexDigitInjective(c / 256 % 16, d / 256 % 16);
    HexDigitInjective(c / 16 % 16, d / 16 % 16);
    HexDigitInjective(c % 16, d % 16);
  }

  /** Escape codes are prefix-free: what follows an escaped unit cannot change how it is read. */
  lemma EscapeUnitPrefix(c: CodeUnit, x: JsString, d: CodeUnit, y: JsString)
    requires EscapeUnit(c) + x == EscapeUnit(d) + y
    ensures c == d && x == y
  {
    var a, b := EscapeUnit(c), EscapeUnit(d);
    assert a[0] == (a + x)[0] && b[0] == (b + y)[0];
    if |a| >= 2 {
      assert a[1] == (a + x)[1] && b[1] == (b + y)[1];
    }
    DropFirst(a, x, b, y);
    if |a| == 6 {
      HexEscapeInjective(c, d);
    }
  }

  /** The text an escaped string starts with, and what it leaves to escape. */
  function EscapeHead(s: JsString): JsString
    requires s != []
  {
    if StartsWithPair(s) then s[..2] else EscapeUnit(s[0])
  }

  function EscapeTail(s: JsString): JsString
    requires s != []
  {
    if StartsWithPair(s) then s[2..] else s[1..]
  }

  lemma EscapeHeadStart(s: JsString)
    requires s != []
    ensures EscapeHead(s) != [] && EscapeHead(s)[0] != QUOTE
    ensures IsHighSurrogate(EscapeHead(s)[0]) <==> StartsWithPair(s)
  {
  }

  lemma EscapeUnfold(s: JsString, x: JsString)
    requires s != []
    ensures Escape(s) + x == EscapeHead(s) + (Escape(EscapeTail(s)) + x)
    ensures Escape(s) != [] && (Escape(s) + x)[0] != QUOTE
  {
    EscapeHeadStart(s);
    assert Escape(s) == EscapeHead(s) + Escape(EscapeTail(s));
  }

  /** Both strings start alike, so they go on alike. */
  lemma EscapeHeadPrefix(s: JsString, x: JsString, t: JsString, y: JsString)
    requires s != [] && t != [] && EscapeHead(s) + x == EscapeHead(t) + y
    ensures x == y && StartsWithPair(s) == StartsWithPair(t)
    ensures EscapeTail(s) == EscapeTail(t) ==> s == t
  {
    EscapeHeadStart(s);
    EscapeHeadStart(t);
    assert (EscapeHead(s) + x)[0] == EscapeHead(s)[0] && (EscapeHead(t) + y)[0] == EscapeHead(t)[0];
    if StartsWithPair(s) {
      DropFirst(s[..2], x, t[..2], y);
      assert s == s[..2] + s[2..] && t == t[..2] + t[2..];
    } else {
      EscapeUnitPrefix(s[0], x, t[0], y);
      assert s == [s[0]] + s[1..] && t == [t[0]] + t[1..];
    }
  }

  /** A quoted string ends where its text says, so both the string and what follows it can be read back. */
  lemma {:induction false} EscapePrefix(s: JsString, x: JsString, t: JsString, y: JsString)
    requires Escape(s) + ([QUOTE] + x) == Escape(t) + ([QUOTE] + y)
    ensures s == t && x == y
    decreases |s|
  {
    var x', y' := [QUOTE] + x, [QUOTE] + y;
    if s != [] {
      EscapeUnfold(s, x');
    }
    if t != [] {
      EscapeUnfold(t, y');
    }
    if s == [] || t == [] {
      assert Escape([]) + x' == x' && Escape([]) + y' == y';
      assert s == t;
      DropFirst([QUOTE], x, [QUOTE], y);
    } else {
      EscapeHeadPrefix(s, Escape(EscapeTail(s)) + x', t, Escape(EscapeTail(t)) + y');
      EscapePrefix(EscapeTail(s), x, EscapeTail(t), y);
    }
  }

  lemma PrintStringPrefix(s: JsString, x: JsString, t: JsString, y: JsString)
    requires PrintString(s) + x == PrintString(t) + y
    ensures s == t && x == y
  {
    var a, b := Escape(s) + ([QUOTE] + x), Escape(t) + ([QUOTE] + y);
    assert PrintString(s) + x == [QUOTE] + a;
    assert PrintString(t) + y == [QUOTE] + b;
    DropFirst([QUOTE], a, [QUOTE], b);
    EscapePrefix(s, x, t, y);
  }

  /** What may follow a value inside a document: nothing, or a unit no numeral contains. */
  predicate Delimits(rest: JsString) {
    rest == [] || !IsNumeralUnit(rest[0])
  }

  function NumeralRun(s: JsString): nat {
    if s == [] || !IsNumeralUnit(s[0]) then 0 else 1 + NumeralRun(s[1..])
  }

  lemma {:induction false} NumeralRunOf(m: JsString, x: JsString)
    requires (forall i | 0 <= i < |m| :: IsNumeralUnit(m[i])) && Delimits(x)
    ensures NumeralRun(m + x) == |m|
  {
    if m == [] {
      assert m + x == x;
    } else {
      assert (m + x)[1..] == m[1..] + x;
      NumeralRunOf(m[1..], x);
    }
  }

  lemma NumeralPrefix(m: Numeral, x: JsString, n: Numeral, y: JsString)
    requires m + x == n + y && Delimits(x) && Delimits(y)
    ensures m == n && x == y
  {
    NumeralRunOf(m, x);
    NumeralRunOf(n, y);
    DropFirst(m, x, n, y);
  }

  /** The first unit of a printed value tells which kind of value it is. */
  function Kind(v: Json): nat {
    match v
    case JNull => 0
    case JBool(b) => if b then 1 else 2
    case JNumber(_) => 3
    case JString(_) => 4
    case JArray(_) => 5
    case JObject(_) => 6
  }

  function KindOfUnit(c: CodeUnit): int {
    if c == 0x6E then 0
    else if c == 0x74 then 1
    else if c == 0x66 then 2
    else if IsNumeralUnit(c) then 3
    else if c == QUOTE then 4
    else if c == OPEN_BRACKET then 5
    else if c == OPEN_BRACE then 6
    else -1
  }

  lemma PrintStart(v: Json, x: JsString)
    ensures Print(v) != [] && KindOfUnit((Print(v) + x)[0]) == Kind(v)
  {
    if v.JNumber? {
      assert IsNumeralUnit(v.numeral[0]);
    }
  }

  lemma Regroup(first: JsString, c: CodeUnit, rest: JsString, x: JsString)
    ensures first + [c] + rest + x == first + ([c] + (rest + x))
  {
  }

  /** Printed values can be read back: the text fixes the value and where it ends. */
  lemma {:induction false} PrintPrefix(v: Json, x: JsString, w: Json, y: JsString)
    requires Print(v) + x == Print(w) + y && Delimits(x) && Delimits(y)
    ensures v == w && x == y
    decreases v, 0
  {
    PrintStart(v, x);
    PrintStart(w, y);
    match v
    case JNull => DropFirst(NULL_TEXT, x, NULL_TEXT, y);
    case JBool(b) => DropFirst(Print(v), x, Print(w), y);
    case JNumber(numeral) => NumeralPrefix(numeral, x, w.numeral, y);
    case JString(s) => PrintStringPrefix(s, x, w.s, y);
    case JArray(items) =>
      Bracketed(OPEN_BRACKET, PrintItems(items), CLOSE_BRACKET, x, PrintItems(w.items), y);
      ItemsPrefix(items, x, w.items, y);
    case JObject(members) =>
      Bracketed(OPEN_BRACE, PrintMembers(members), CLOSE_BRACE, x, PrintMembers(w.members), y);
      MembersPrefix(members, x, w.members, y);
  }

  lemma Bracketed(open: CodeUnit, a: JsString, close: CodeUnit, x: JsString, b: JsString, y: JsString)
    requires [open] + a + [close] + x == [open] + b + [close] + y
    ensures a + ([close] + x) == b + ([close] + y)
  {
    assert [open] + a + [close] + x == [open] + (a + ([close] + x));
    assert [open] + b + [close] + y == [open] + (b + ([close] + y));
    DropFirst([open], a + ([close] + x), [open], b + ([close] + y));
  }

  lemma {:induction false} ItemsPrefix(a: seq<Json>, x: JsString, b: seq<Json>, y: JsString)
    requires PrintItems(a) + ([CLOSE_BRACKET] + x) == PrintItems(b) + ([CLOSE_BRACKET] + y)
    ensures a == b && x == y
    decreases a, 1
  {
    var x', y' := [CLOSE_BRACKET] + x, [CLOSE_BRACKET] + y;
    if a == [] || b == [] {
      if a != [] {
        ItemsUnfold(a, x');
        PrintStart(a[0], ItemsRest(a, x'));
      }
      if b != [] {
        ItemsUnfold(b, y');
        PrintStart(b[0], ItemsRest(b, y'));
      }
      assert a == b && PrintItems(a) + x' == x' && PrintItems(b) + y' == y';
      DropFirst([CLOSE_BRACKET], x, [CLOSE_BRACKET], y);
    } else {
      ItemsUnfold(a, x');
      ItemsUnfold(b, y');
      PrintPrefix(a[0], ItemsRest(a, x'), b[0], ItemsRest(b, y'));
      assert ItemsRest(a, x')[0] == ItemsRest(b, y')[0];
      assert ItemsRest(a, x')[1..] == ItemsRest(b, y')[1..];
      if |a| == 1 {
        assert x'[1..] == x && y'[1..] == y;
      } else {
        assert ([COMMA] + (PrintItems(a[1..]) + x'))[1..] == PrintItems(a[1..]) + x';
        assert ([COMMA] + (PrintItems(b[1..]) + y'))[1..] == PrintItems(b[1..]) + y';
        ItemsPrefix(a[1..], x, b[1..], y);
      }
      assert a == [a[0]] + a[1..] && b == [b[0]] + b[1..];
    }
  }

  function ItemsRest(a: seq<Json>, x: JsString): JsString
    requires a != []
  {
    if |a| == 1 then x else [COMMA] + (PrintItems(a[1..]) + x)
  }

  lemma ItemsUnfold(a: seq<Json>, x: JsString)
    requires a != []
    ensures PrintItems(a) + x == Print(a[0]) + ItemsRest(a, x)
  {
    if |a| > 1 {
      Regroup(Print(a[0]), COMMA, PrintItems(a[1..]), x);
    }
  }

  lemma {:induction false} MembersPrefix(a: seq<Member>, x: JsString, b: seq<Member>, y: JsString)
    requires PrintMembers(a) + ([CLOSE_BRACE] + x) == PrintMembers(b) + ([CLOSE_BRACE] + y)
    ensures a == b && x == y
    decreases a, 2
  {
    var x', y' := [CLOSE_BRACE] + x, [CLOSE_BRACE] + y;
    if a == [] || b == [] {
      if a != [] {
        MembersUnfold(a, x');
      }
      if b != [] {
        MembersUnfold(b, y');
      }
      assert a == b && PrintMembers(a) + x' == x' && PrintMembers(b) + y' == y';
      DropFirst([CLOSE_BRACE], x, [CLOSE_BRACE], y);
    } else {
      MembersUnfold(a, x');
      MembersUnfold(b, y');
      MemberPrefix(a[0], MembersRest(a, x'), b[0], MembersRest(b, y'));
      assert MembersRest(a, x')[0] == MembersRest(b, y')[0];
      assert MembersRest(a, x')[1..] == MembersRest(b, y')[1..];
      if |a| == 1 {
        assert x'[1..] == x && y'[1..] == y;
      } else {
        assert ([COMMA] + (PrintMembers(a[1..]) + x'))[1..] == PrintMembers(a[1..]) + x';
        assert ([COMMA] + (PrintMembers(b[1..]) + y'))[1..] == PrintMembers(b[1..]) + y';
        MembersPrefix(a[1..], x, b[1..], y);
      }
      assert a == [a[0]] + a[1..] && b == [b[0]] + b[1..];
    }
  }

  lemma MemberUnfold(m: Member, x: JsString)
    ensures PrintMember(m) + x == PrintString(m.key) + ([COLON] + (Print(m.value) + x))
    ensures (PrintMember(m) + x)[0] == QUOTE
  {
    Regroup(PrintString(m.key), COLON, Print(m.value), x);
  }

  lemma {:induction false} MemberPrefix(m: Member, x: JsString, n: Member, y: JsString)
    requires PrintMember(m) + x == PrintMember(n) + y && Delimits(x) && Delimits(y)
    ensures m == n && x == y
    decreases m, 1
  {
    MemberUnfold(m, x);
    MemberUnfold(n, y);
    var v, w := Print(m.value) + x, Print(n.value) + y;
    PrintStringPrefix(m.key, [COLON] + v, n.key, [COLON] + w);
    DropFirst([COLON], v, [COLON], w);
    PrintPrefix(m.value, x, n.value, y);
  }

  function MembersRest(a: seq<Member>, x: JsString): JsString
    requires a != []
  {
    if |a| == 1 then x else [COMMA] + (PrintMembers(a[1..]) + x)
  }

  lemma MembersUnfold(a: seq<Member>, x: JsString)
    requires a != []
    ensures PrintMembers(a) + x == PrintMember(a[0]) + MembersRest(a, x)
    ensures (PrintMembers(a) + x)[0] == QUOTE
  {
    MemberUnfold(a[0], MembersRest(a, x));
    if |a| > 1 {
      Regroup(PrintMember(a[0]), COMMA, PrintMembers(a[1..]), x);
    }
  }

  /** Two values that print the same are the same value. */
  lemma PrintInjective(v: Json, w: Json)
    requires Print(v) == Print(w)
    ensures v == w
  {
    assert Print(v) + [] == Print(v) && Print(w) + [] == Print(w);
    PrintPrefix(v, [], w, []);
  }
}
