/** JSON: the values the profile reader works with, and the grammar of sections 2 to 7 of RFC 8259 as
    concrete syntax trees, each with its text and its meaning. */
module JsonGrammar {
  import opened Utf8

  const MAXIMUM_PROFILE_BYTES: nat := 16 * 1024 * 1024
  const MAXIMUM_JSON_DEPTH: nat := 64
  const MAXIMUM_JSON_STRING: nat := 1024 * 1024
  const MAXIMUM_VECTOR_ITEMS: nat := 16384

  const QUOTE: Byte := 0x22
  const COMMA: Byte := 0x2c
  const MINUS: Byte := 0x2d
  const PLUS: Byte := 0x2b
  const DOT: Byte := 0x2e
  const COLON: Byte := 0x3a
  const OPEN_ARRAY: Byte := 0x5b
  const BACKSLASH: Byte := 0x5c
  const CLOSE_ARRAY: Byte := 0x5d
  const LETTER_U: Byte := 0x75
  const OPEN_OBJECT: Byte := 0x7b
  const CLOSE_OBJECT: Byte := 0x7d
  const TRUE: Bytes := [0x74, 0x72, 0x75, 0x65]
  const FALSE: Bytes := [0x66, 0x61, 0x6c, 0x73, 0x65]
  const NULL: Bytes := [0x6e, 0x75, 0x6c, 0x6c]

  // ----- values

  /** A parsed value. Numbers keep their text; an object is its members in key order. */
  datatype Json =
    | Null | Boolean(boolean: bool) | Number(text: Bytes) | String(chars: Bytes)
    | Array(items: seq<Json>) | Object(members: seq<Member>)

  datatype Member = Member(key: Bytes, value: Json)

  /** The order of keys: lexicographic, by unsigned bytes. */
  predicate Less(a: Bytes, b: Bytes)
  {
    b != [] && (a == [] || a[0] < b[0] || (a[0] == b[0] && Less(a[1..], b[1..])))
  }

  predicate HasKey(ms: seq<Member>, key: Bytes)
  {
    exists i :: 0 <= i < |ms| && ms[i].key == key
  }

  predicate Sorted(ms: seq<Member>)
  {
    forall i, j :: 0 <= i < j < |ms| ==> Less(ms[i].key, ms[j].key)
  }

  /** emplace on an ordered map: a key that is already there keeps its value. */
  function Emplaced(ms: seq<Member>, m: Member): seq<Member>
  {
    if ms == [] || Less(m.key, ms[0].key) then [m] + ms
    else if m.key == ms[0].key then ms
    else [ms[0]] + Emplaced(ms[1..], m)
  }

  // ----- characters of a string

  datatype Char =
    | Raw(octets: Bytes) | Short(letter: Byte) | Unit(hex: Bytes) | Surrogates(high: Bytes, low: Bytes)

  predicate IsHex(b: Byte)
  {
    0x30 <= b <= 0x39 || 0x61 <= b <= 0x66 || 0x41 <= b <= 0x46
  }

  function HexDigit(b: Byte): (n: nat)
    requires IsHex(b)
    ensures n < 16
  {
    if b <= 0x39 then b - 0x30 else if b <= 0x46 then 10 + (b - 0x41) else 10 + (b - 0x61)
  }

  predicate IsHex4(h: Bytes)
  {
    |h| == 4 && IsHex(h[0]) && IsHex(h[1]) && IsHex(h[2]) && IsHex(h[3])
  }

  function Hex4Value(h: Bytes): (n: nat)
    requires IsHex4(h)
    ensures n <= 0xffff
  {
    ((HexDigit(h[0]) * 16 + HexDigit(h[1])) * 16 + HexDigit(h[2])) * 16 + HexDigit(h[3])
  }

  /** The letters of two-character escapes and what they stand for: " \ / b f n r t. */
  function ShortValue(letter: Byte): Bytes
  {
    if letter == 0x22 || letter == 0x5c || letter == 0x2f then [letter]
    else if letter == 0x62 then [0x08]
    else if letter == 0x66 then [0x0c]
    else if letter == 0x6e then [0x0a]
    else if letter == 0x72 then [0x0d]
    else if letter == 0x74 then [0x09]
    else []
  }

  predicate HighSurrogate(n: nat)
  {
    0xd800 <= n <= 0xdbff
  }

  predicate LowSurrogate(n: nat)
  {
    0xdc00 <= n <= 0xdfff
  }

  function PairValue(high: nat, low: nat): (cp: nat)
    requires HighSurrogate(high) && LowSurrogate(low)
    ensures 0x10000 <= cp <= 0x10ffff
  {
    0x10000 + (high - 0xd800) * 1024 + (low - 0xdc00)
  }

  predicate CharOk(c: Char)
  {
    match c
    case Raw(b) => Utf8Char(b) && b[0] >= 0x20 && b[0] != QUOTE && b[0] != BACKSLASH
    case Short(letter) => ShortValue(letter) != []
    case Unit(h) => IsHex4(h) && !HighSurrogate(Hex4Value(h)) && !LowSurrogate(Hex4Value(h))
    case Surrogates(h, l) => IsHex4(h) && IsHex4(l) && HighSurrogate(Hex4Value(h)) && LowSurrogate(Hex4Value(l))
  }

  function CharText(c: Char): Bytes
  {
    match c
    case Raw(b) => b
    case Short(letter) => [BACKSLASH, letter]
    case Unit(h) => [BACKSLASH, LETTER_U] + h
    case Surrogates(h, l) => [BACKSLASH, LETTER_U] + h + [BACKSLASH, LETTER_U] + l
  }

  /** What a character contributes to the string; nothing when it is not one. */
  function CharValue(c: Char): Bytes
  {
    if !CharOk(c) then []
    else
    match c
    case Raw(b) => b
    case Short(letter) => ShortValue(letter)
    case Unit(h) => Encode(Hex4Value(h))
    case Surrogates(h, l) => Encode(PairValue(Hex4Value(h), Hex4Value(l)))
  }

  predicate CharsOk(cs: seq<Char>)
  {
    forall c :: c in cs ==> CharOk(c)
  }

  /** The characters and the closing quote. */
  function CharsText(cs: seq<Char>): Bytes
  {
    if cs == [] then [QUOTE] else CharText(cs[0]) + CharsText(cs[1..])
  }

  function CharsValue(cs: seq<Char>): Bytes
  {
    if cs == [] then [] else CharValue(cs[0]) + CharsValue(cs[1..])
  }

  // ----- numbers

  predicate IsDigit(b: Byte)
  {
    0x30 <= b <= 0x39
  }

  predicate Digits(b: Bytes)
  {
    b == [] || (IsDigit(b[0]) && Digits(b[1..]))
  }

  predicate Digits1(b: Bytes)
  {
    b != [] && Digits(b)
  }

  /** number = [ minus ] int [ frac ] [ exp ], section 6 of RFC 8259, each part as its text. */
  datatype Numeral = Numeral(sign: Bytes, whole: Bytes, frac: Bytes, exp: Bytes)

  predicate IsSign(b: Byte)
  {
    b == PLUS || b == MINUS
  }

  predicate WholeOk(b: Bytes)
  {
    Digits1(b) && (b[0] == 0x30 ==> |b| == 1)
  }

  predicate FracOk(b: Bytes)
  {
    b == [] || (b[0] == DOT && Digits1(b[1..]))
  }

  predicate ExpOk(b: Bytes)
  {
    b == [] || ((b[0] == 0x65 || b[0] == 0x45) && SignedDigits(b[1..]))
  }

  predicate SignedDigits(b: Bytes)
  {
    if b != [] && IsSign(b[0]) then Digits1(b[1..]) else Digits1(b)
  }

  predicate NumeralOk(n: Numeral)
  {
    (n.sign == [] || n.sign == [MINUS]) && WholeOk(n.whole) && FracOk(n.frac) && ExpOk(n.exp)
  }

  function NumeralText(n: Numeral): Bytes
  {
    n.sign + (n.whole + (n.frac + n.exp))
  }

  ghost predicate IsNumber(text: Bytes)
  {
    exists n :: NumeralOk(n) && NumeralText(n) == text
  }

  // ----- values as trees

  predicate IsSpace(b: Byte)
  {
    b == 0x20 || b == 0x0a || b == 0x0d || b == 0x09
  }

  predicate Spaces(b: Bytes)
  {
    b == [] || (IsSpace(b[0]) && Spaces(b[1..]))
  }

  datatype Tree =
    | NullT | BooleanT(boolean: bool) | NumberT(text: Bytes) | StringT(chars: seq<Char>)
    | ArrayT(gap: Bytes, items: seq<Item>)      // gap: what stands between the brackets when there is nothing else
    | ObjectT(gap: Bytes, fields: seq<Field>)

  datatype Item = Item(before: Bytes, tree: Tree, after: Bytes)

  datatype Field = Field(before: Bytes, key: seq<Char>, mid: Bytes, value: Item)

  /** section 2: the text of a value. */
  function Text(t: Tree): Bytes
    decreases t
  {
    match t
    case NullT => NULL
    case BooleanT(b) => if b then TRUE else FALSE
    case NumberT(text) => text
    case StringT(cs) => [QUOTE] + CharsText(cs)
    case ArrayT(gap, items) => [OPEN_ARRAY] + (if items == [] then gap + [CLOSE_ARRAY] else ItemsText(items))
    case ObjectT(gap, fields) => [OPEN_OBJECT] + (if fields == [] then gap + [CLOSE_OBJECT] else FieldsText(fields))
  }

  function ItemText(i: Item): Bytes
    decreases i
  {
    i.before + Text(i.tree) + i.after
  }

  function FieldText(f: Field): Bytes
    decreases f
  {
    f.before + [QUOTE] + CharsText(f.key) + f.mid + [COLON] + ItemText(f.value)
  }

  /** The items and the closing bracket. */
  function ItemsText(items: seq<Item>): Bytes
    requires items != []
    decreases items
  {
    ItemText(items[0]) + (if |items| == 1 then [CLOSE_ARRAY] else [COMMA] + ItemsText(items[1..]))
  }

  function FieldsText(fields: seq<Field>): Bytes
    requires fields != []
    decreases fields
  {
    FieldText(fields[0]) + (if |fields| == 1 then [CLOSE_OBJECT] else [COMMA] + FieldsText(fields[1..]))
  }

  /** The parts of the grammar the shape of a tree does not show. */
  ghost predicate TreeOk(t: Tree)
    decreases t
  {
    match t
    case NullT => true
    case BooleanT(b) => true
    case NumberT(text) => IsNumber(text)
    case StringT(cs) => CharsOk(cs)
    case ArrayT(gap, items) => Spaces(gap) && forall i :: 0 <= i < |items| ==> ItemOk(items[i])
    case ObjectT(gap, fields) => Spaces(gap) && forall i :: 0 <= i < |fields| ==> FieldOk(fields[i])
  }

  ghost predicate ItemOk(i: Item)
    decreases i
  {
    Spaces(i.before) && TreeOk(i.tree) && Spaces(i.after)
  }

  ghost predicate FieldOk(f: Field)
    decreases f
  {
    Spaces(f.before) && CharsOk(f.key) && Spaces(f.mid) && ItemOk(f.value)
  }

  // ----- meaning

  function Meaning(t: Tree): Json
    decreases t
  {
    match t
    case NullT => Null
    case BooleanT(b) => Boolean(b)
    case NumberT(text) => Number(text)
    case StringT(cs) => String(CharsValue(cs))
    case ArrayT(gap, items) => Array(ItemsMeaning(items))
    case ObjectT(gap, fields) => Object(Gathered(fields, []))
  }

  function ItemsMeaning(items: seq<Item>): (r: seq<Json>)
    ensures |r| == |items|
    decreases items
  {
    if items == [] then [] else [Meaning(items[0].tree)] + ItemsMeaning(items[1..])
  }

  function FieldMeaning(f: Field): Member
    decreases f
  {
    Member(CharsValue(f.key), Meaning(f.value.tree))
  }

  /** The members collected one after the other. */
  function Gathered(fields: seq<Field>, acc: seq<Member>): seq<Member>
    decreases fields
  {
    if fields == [] then acc else Gathered(fields[1..], Emplaced(acc, FieldMeaning(fields[0])))
  }

  // ----- limits

  predicate DistinctKeys(fields: seq<Field>)
  {
    forall i, j :: 0 <= i < j < |fields| ==> CharsValue(fields[i].key) != CharsValue(fields[j].key)
  }

  /** The limits of the reader, for a value inside `depth` arrays and objects: nesting, string and array
      sizes, distinct keys, and numbers that strtod takes. */
  predicate Within(t: Tree, depth: nat, inRange: Bytes -> bool)
    decreases t
  {
    depth <= MAXIMUM_JSON_DEPTH &&
    match t
    case NullT => true
    case BooleanT(b) => true
    case NumberT(text) => inRange(text)
    case StringT(cs) => |CharsValue(cs)| <= MAXIMUM_JSON_STRING
    case ArrayT(gap, items) =>
      |items| <= MAXIMUM_VECTOR_ITEMS && forall i :: 0 <= i < |items| ==> Within(items[i].tree, depth + 1, inRange)
    case ObjectT(gap, fields) =>
      DistinctKeys(fields) && forall i :: 0 <= i < |fields| ==> FieldWithin(fields[i], depth + 1, inRange)
  }

  predicate FieldWithin(f: Field, depth: nat, inRange: Bytes -> bool)
    decreases f
  {
    |CharsValue(f.key)| <= MAXIMUM_JSON_STRING && Within(f.value.tree, depth, inRange)
  }
}
