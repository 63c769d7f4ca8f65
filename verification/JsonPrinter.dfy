/** The canonical printer, and the tree its text belongs to. */
module JsonPrinter {
  import opened Utf8
  import opened JsonGrammar

  /** A lower-case hexadecimal digit. */
  function LowerHex(n: nat): (b: Byte)
    requires n < 16
  {
    if n < 10 then 0x30 + n else 0x61 + (n - 10)
  }

  /** How escape_json writes one byte. */
  function EscapedByte(c: Byte): Bytes
  {
    if c == QUOTE || c == BACKSLASH then [BACKSLASH, c]
    else if c == 0x08 then [BACKSLASH, 0x62]
    else if c == 0x0c then [BACKSLASH, 0x66]
    else if c == 0x0a then [BACKSLASH, 0x6e]
    else if c == 0x0d then [BACKSLASH, 0x72]
    else if c == 0x09 then [BACKSLASH, 0x74]
    else if c < 0x20 then [BACKSLASH, LETTER_U, 0x30, 0x30, LowerHex(c / 16), LowerHex(c % 16)]
    else [c]
  }

  function Escaped(b: Bytes): Bytes
  {
    if b == [] then [] else EscapedByte(b[0]) + Escaped(b[1..])
  }

  function Quoted(b: Bytes): Bytes
  {
    [QUOTE] + Escaped(b) + [QUOTE]
  }

  /** canonical_json. */
  function Print(v: Json): Bytes
    decreases v
  {
    match v
    case Null => NULL
    case Boolean(b) => if b then TRUE else FALSE
    case Number(text) => text
    case String(chars) => Quoted(chars)
    case Array(items) => [OPEN_ARRAY] + PrintItems(items)
    case Object(members) => [OPEN_OBJECT] + PrintMembers(members)
  }

  function PrintItems(items: seq<Json>): Bytes
    decreases items
  {
    if items == [] then [CLOSE_ARRAY]
    else Print(items[0]) + (if |items| == 1 then [CLOSE_ARRAY] else [COMMA] + PrintItems(items[1..]))
  }

  function PrintMember(m: Member): Bytes
    decreases m
  {
    Quoted(m.key) + [COLON] + Print(m.value)
  }

  function PrintMembers(ms: seq<Member>): Bytes
    decreases ms
  {
    if ms == [] then [CLOSE_OBJECT]
    else PrintMember(ms[0]) + (if |ms| == 1 then [CLOSE_OBJECT] else [COMMA] + PrintMembers(ms[1..]))
  }

  // ----- values the reader can return

  /** Grammatical numbers that strtod takes, well-formed UTF-8, keys in order, sizes and depth in the limits. */
  ghost predicate Storable(v: Json, depth: nat, inRange: Bytes -> bool)
    decreases v
  {
    depth <= MAXIMUM_JSON_DEPTH &&
    match v
    case Null => true
    case Boolean(b) => true
    case Number(text) => IsNumber(text) && inRange(text)
    case String(chars) => StorableString(chars)
    case Array(items) =>
      |items| <= MAXIMUM_VECTOR_ITEMS && forall i :: 0 <= i < |items| ==> Storable(items[i], depth + 1, inRange)
    case Object(members) =>
      Sorted(members) && forall i :: 0 <= i < |members| ==> StorableMember(members[i], depth + 1, inRange)
  }

  predicate StorableString(b: Bytes)
  {
    Utf8String(b) && |b| <= MAXIMUM_JSON_STRING
  }

  ghost predicate StorableMember(m: Member, depth: nat, inRange: Bytes -> bool)
    decreases m
  {
    StorableString(m.key) && Storable(m.value, depth, inRange)
  }

  // ----- the tree of a canonical text

  function CanonChar(c: Bytes): Char
    requires c != []
  {
    if c[0] == QUOTE || c[0] == BACKSLASH then Short(c[0])
    else if c[0] == 0x08 then Short(0x62)
    else if c[0] == 0x0c then Short(0x66)
    else if c[0] == 0x0a then Short(0x6e)
    else if c[0] == 0x0d then Short(0x72)
    else if c[0] == 0x09 then Short(0x74)
    else if c[0] < 0x20 then Unit([0x30, 0x30, LowerHex(c[0] / 16), LowerHex(c[0] % 16)])
    else Raw(c)
  }

  function CanonChars(b: Bytes): seq<Char>
  {
    if b == [] then []
    else
      var n := if Length(b[0]) <= |b| then Length(b[0]) else |b|;
      [CanonChar(b[..n])] + CanonChars(b[n..])
  }

  function CanonTree(v: Json): Tree
    decreases v
  {
    match v
    case Null => NullT
    case Boolean(b) => BooleanT(b)
    case Number(text) => NumberT(text)
    case String(chars) => StringT(CanonChars(chars))
    case Array(items) => ArrayT([], CanonItems(items))
    case Object(members) => ObjectT([], CanonFields(members))
  }

  function CanonItems(items: seq<Json>): (r: seq<Item>)
    ensures |r| == |items|
    decreases items
  {
    if items == [] then [] else [Item([], CanonTree(items[0]), [])] + CanonItems(items[1..])
  }

  function CanonField(m: Member): Field
    decreases m
  {
    Field([], CanonChars(m.key), [], Item([], CanonTree(m.value), []))
  }

  function CanonFields(ms: seq<Member>): (r: seq<Field>)
    ensures |r| == |ms|
    decreases ms
  {
    if ms == [] then [] else [CanonField(ms[0])] + CanonFields(ms[1..])
  }

  // ----- strings

  lemma {:induction false} EscapedConcat(a: Bytes, b: Bytes)
    ensures Escaped(a + b) == Escaped(a) + Escaped(b)
  {
    if a == [] {
      assert a + b == b;
    } else {
      assert (a + b)[1..] == a[1..] + b;
      EscapedConcat(a[1..], b);
    }
  }

  /** Bytes that need no escape print as they are. */
  lemma {:induction false} PlainBytes(b: Bytes)
    requires forall i :: 0 <= i < |b| ==> b[i] >= 0x20 && b[i] != QUOTE && b[i] != BACKSLASH
    ensures Escaped(b) == b
  {
    if b != [] {
      PlainBytes(b[1..]);
      assert b == [b[0]] + b[1..];
    }
  }

  lemma HexBack(n: nat)
    requires n < 16
    ensures IsHex(LowerHex(n)) && HexDigit(LowerHex(n)) == n
  {
  }

  lemma ControlUnit(c: Byte)
    requires c < 0x20
    ensures var h := [0x30, 0x30, LowerHex(c / 16), LowerHex(c % 16)];
      IsHex4(h) && Hex4Value(h) == c && CharOk(Unit(h)) && CharValue(Unit(h)) == [c]
  {
    HexBack(c / 16);
    HexBack(c % 16);
  }

  lemma EscapedOne(c: Byte)
    ensures Escaped([c]) == EscapedByte(c)
  {
    assert [c][1..] == [];
  }

  lemma LongIsPlain(c: Bytes)
    requires Utf8Char(c) && |c| > 1
    ensures forall i :: 0 <= i < |c| ==> c[i] >= 0x80
  {
  }

  lemma CanonCharIs(c: Bytes)
    requires Utf8Char(c)
    ensures CharOk(CanonChar(c)) && CharValue(CanonChar(c)) == c && CharText(CanonChar(c)) == Escaped(c)
  {
    if |c| == 1 {
      EscapedOne(c[0]);
      assert c == [c[0]];
      if c[0] < 0x20 { ControlUnit(c[0]); }
    } else {
      LongIsPlain(c);
      PlainBytes(c);
    }
  }

  lemma FirstCanon(b: Bytes) returns (c: Bytes, rest: Bytes)
    requires b != [] && Utf8String(b)
    ensures b == c + rest && |rest| < |b| && Utf8Char(c) && Utf8String(rest)
    ensures CanonChars(b) == [CanonChar(c)] + CanonChars(rest)
  {
    hide CanonChar, Utf8Char;
    var n := Length(b[0]);
    c, rest := b[..n], b[n..];
  }

  lemma OneMoreChar(c: Char, cs: seq<Char>)
    requires CharOk(c) && CharsOk(cs)
    ensures CharsOk([c] + cs)
    ensures CharsValue([c] + cs) == CharValue(c) + CharsValue(cs) && CharsText([c] + cs) == CharText(c) + CharsText(cs)
  {
    hide CharOk, CharValue, CharText;
    assert ([c] + cs)[1..] == cs;
  }

  lemma {:induction false} CanonCharsIs(b: Bytes)
    requires Utf8String(b)
    ensures CharsOk(CanonChars(b)) && CharsValue(CanonChars(b)) == b && CharsText(CanonChars(b)) == Escaped(b) + [QUOTE]
  {
    if b != [] {
      var c, rest := FirstCanon(b);
      CanonCharIs(c);
      CanonCharsIs(rest);
      OneMoreChar(CanonChar(c), CanonChars(rest));
      EscapedConcat(c, rest);
      hide *;
      assert Escaped(c) + (Escaped(rest) + [QUOTE]) == Escaped(c) + Escaped(rest) + [QUOTE];
    }
  }

  /** An escaped string is never longer than any other way of writing it. */
  lemma CharNoLonger(c: Char)
    requires CharOk(c)
    ensures |Escaped(CharValue(c))| <= |CharText(c)|
  {
    match c
    case Raw(b) =>
      if |b| == 1 { assert b == [b[0]]; EscapedOne(b[0]); } else { LongIsPlain(b); PlainBytes(b); }
    case Short(letter) => EscapedOne(ShortValue(letter)[0]);
    case Unit(h) => EncodedNoLonger(Hex4Value(h));
    case Surrogates(h, l) => EncodedNoLonger(PairValue(Hex4Value(h), Hex4Value(l)));
  }

  lemma EncodedNoLonger(cp: nat)
    requires Scalar(cp)
    ensures |Escaped(Encode(cp))| <= 6
  {
    EncodeIsUtf8(cp);
    if cp <= 0x7f { EscapedOne(cp); } else { LongIsPlain(Encode(cp)); PlainBytes(Encode(cp)); }
  }

  lemma {:induction false} CharsNoLonger(cs: seq<Char>)
    requires CharsOk(cs)
    ensures |Escaped(CharsValue(cs))| + 1 <= |CharsText(cs)|
  {
    hide CharOk, CharValue, CharText;
    if cs != [] {
      CharNoLonger(cs[0]);
      CharsNoLonger(cs[1..]);
      EscapedConcat(CharValue(cs[0]), CharsValue(cs[1..]));
    }
  }
}
