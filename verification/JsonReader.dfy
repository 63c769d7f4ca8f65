/** The JSON reader of src/profile.cpp as functions of text and position; the class that follows the source
    is in JsonParser.dfy. */
module JsonReader {
  import opened Utf8
  import opened JsonGrammar

  /** The text stands at position p. */
  predicate At(s: Bytes, p: nat, text: Bytes)
    decreases |text|
  {
    p + |text| <= |s| && (text == [] || (s[p] == text[0] && At(s, p + 1, text[1..])))
  }

  function SkipSpace(s: Bytes, p: nat): (r: nat)
    requires p <= |s|
    ensures p <= r <= |s|
    decreases |s| - p
  {
    if p < |s| && IsSpace(s[p]) then SkipSpace(s, p + 1) else p
  }

  // ----- strings

  function Hex4At(s: Bytes, p: nat): (r: Parsed<nat>)
    ensures r.Done? ==> r.next == p + 4 <= |s| && r.value <= 0xffff
  {
    if p + 4 > |s| || !IsHex4(s[p..p + 4]) then Failed else Done(Hex4Value(s[p..p + 4]), p + 4)
  }

  function UnicodeAt(s: Bytes, p: nat): (r: Parsed<Bytes>)
    ensures r.Done? ==> p < r.next <= |s|
  {
    match Hex4At(s, p)
    case Failed => Failed
    case Done(unit, q) =>
      if HighSurrogate(unit) then
        if q + 2 > |s| || s[q] != BACKSLASH || s[q + 1] != LETTER_U then Failed
        else
          match Hex4At(s, q + 2)
          case Failed => Failed
          case Done(low, n) => if LowSurrogate(low) then Done(Encode(PairValue(unit, low)), n) else Failed
      else if LowSurrogate(unit) then Failed
      else Done(Encode(unit), q)
  }

  /** What follows a backslash. */
  function EscapeAt(s: Bytes, p: nat): (r: Parsed<Bytes>)
    ensures r.Done? ==> p < r.next <= |s|
  {
    if p >= |s| then Failed
    else if s[p] == LETTER_U then UnicodeAt(s, p + 1)
    else if ShortValue(s[p]) != [] then Done(ShortValue(s[p]), p + 1)
    else Failed
  }

  /** One character of a string. */
  function CharAt(s: Bytes, p: nat): (r: Parsed<Bytes>)
    requires p < |s| && s[p] != QUOTE
    ensures r.Done? ==> p < r.next <= |s|
  {
    if s[p] < 0x20 then Failed
    else if s[p] == BACKSLASH then EscapeAt(s, p + 1)
    else if s[p] >= 0x80 then RawAt(s, p)
    else Done([s[p]], p + 1)
  }

  /** The rest of a string, up to and with the closing quote. */
  function CharsAt(s: Bytes, p: nat, acc: Bytes): (r: Parsed<Bytes>)
    ensures r.Done? ==> p < r.next <= |s|
    decreases |s| - p
  {
    if p >= |s| then Failed
    else if s[p] == QUOTE then Done(acc, p + 1)
    else
      match CharAt(s, p)
      case Failed => Failed
      case Done(octets, next) =>
        if |acc + octets| > MAXIMUM_JSON_STRING then Failed else CharsAt(s, next, acc + octets)
  }

  // ----- numbers

  function DigitsEnd(s: Bytes, p: nat): (r: nat)
    requires p <= |s|
    ensures p <= r <= |s|
    decreases |s| - p
  {
    if p < |s| && IsDigit(s[p]) then DigitsEnd(s, p + 1) else p
  }

  /** How far a part of a number reaches. */
  datatype Reach = To(next: nat) | Nowhere

  /** The integer part: a zero, or digits that do not start with one. */
  function WholeAt(s: Bytes, p: nat): (r: Reach)
    ensures r.To? ==> p < r.next <= |s|
  {
    if p >= |s| then Nowhere
    else if s[p] == 0x30 then To(p + 1)
    else if IsDigit(s[p]) then To(DigitsEnd(s, p + 1))
    else Nowhere
  }

  /** A fraction if there is a dot, else nothing. */
  function FracAt(s: Bytes, p: nat): (r: Reach)
    requires p <= |s|
    ensures r.To? ==> p <= r.next <= |s|
  {
    if p < |s| && s[p] == DOT then
      if DigitsEnd(s, p + 1) == p + 1 then Nowhere else To(DigitsEnd(s, p + 1))
    else To(p)
  }

  function AfterSign(s: Bytes, p: nat): (d: nat)
    requires p <= |s|
    ensures p <= d <= |s|
  {
    if p < |s| && IsSign(s[p]) then p + 1 else p
  }

  /** An exponent if there is an e or E, else nothing. */
  function ExpAt(s: Bytes, p: nat): (r: Reach)
    requires p <= |s|
    ensures r.To? ==> p <= r.next <= |s|
  {
    if p < |s| && (s[p] == 0x65 || s[p] == 0x45) then
      var d := AfterSign(s, p + 1);
      if DigitsEnd(s, d) == d then Nowhere else To(DigitsEnd(s, d))
    else To(p)
  }

  function NumberAt(s: Bytes, p: nat, inRange: Bytes -> bool): (r: Parsed<Bytes>)
    requires p < |s|
    ensures r.Done? ==> p < r.next <= |s|
  {
    match WholeAt(s, if s[p] == MINUS then p + 1 else p)
    case Nowhere => Failed
    case To(q) =>
      match FracAt(s, q)
      case Nowhere => Failed
      case To(t) =>
        match ExpAt(s, t)
        case Nowhere => Failed
        case To(e) => if inRange(s[p..e]) then Done(s[p..e], e) else Failed
  }

  // ----- values

  function ValueAt(s: Bytes, p: nat, depth: nat, inRange: Bytes -> bool): (r: Parsed<Json>)
    requires p <= |s|
    ensures r.Done? ==> p < r.next <= |s|
    decreases |s| - p, 1
  {
    if depth > MAXIMUM_JSON_DEPTH then Failed else
    var q := SkipSpace(s, p);
    if q >= |s| then Failed
    else if s[q] == OPEN_OBJECT then ObjectAt(s, q, depth + 1, inRange)
    else if s[q] == OPEN_ARRAY then ArrayAt(s, q, depth + 1, inRange)
    else if s[q] == QUOTE then
      (match CharsAt(s, q + 1, [])
       case Failed => Failed
       case Done(chars, n) => Done(String(chars), n))
    else if At(s, q, TRUE) then Done(Boolean(true), q + 4)
    else if At(s, q, FALSE) then Done(Boolean(false), q + 5)
    else if At(s, q, NULL) then Done(Null, q + 4)
    else if s[q] == MINUS || IsDigit(s[q]) then
      (match NumberAt(s, q, inRange)
       case Failed => Failed
       case Done(text, n) => Done(Number(text), n))
    else Failed
  }

  function ArrayAt(s: Bytes, p: nat, depth: nat, inRange: Bytes -> bool): (r: Parsed<Json>)
    requires p < |s|
    ensures r.Done? ==> p < r.next <= |s|
    decreases |s| - p, 0
  {
    var q := SkipSpace(s, p + 1);
    if q < |s| && s[q] == CLOSE_ARRAY then Done(Array([]), q + 1)
    else
      match ItemsAt(s, p + 1, depth, [], inRange)
      case Failed => Failed
      case Done(items, n) => Done(Array(items), n)
  }

  /** The rest of an array, up to and with the closing bracket. */
  function ItemsAt(s: Bytes, p: nat, depth: nat, acc: seq<Json>, inRange: Bytes -> bool): (r: Parsed<seq<Json>>)
    requires p <= |s|
    ensures r.Done? ==> p < r.next <= |s|
    decreases |s| - p, 2
  {
    if |acc| >= MAXIMUM_VECTOR_ITEMS then Failed else
    match ValueAt(s, p, depth, inRange)
    case Failed => Failed
    case Done(v, n) =>
      var d := SkipSpace(s, n);
      if d >= |s| then Failed
      else if s[d] == CLOSE_ARRAY then Done(acc + [v], d + 1)
      else if s[d] == COMMA then ItemsAt(s, d + 1, depth, acc + [v], inRange)
      else Failed
  }

  function ObjectAt(s: Bytes, p: nat, depth: nat, inRange: Bytes -> bool): (r: Parsed<Json>)
    requires p < |s|
    ensures r.Done? ==> p < r.next <= |s|
    decreases |s| - p, 0
  {
    var q := SkipSpace(s, p + 1);
    if q < |s| && s[q] == CLOSE_OBJECT then Done(Object([]), q + 1)
    else
      match FieldsAt(s, p + 1, depth, [], inRange)
      case Failed => Failed
      case Done(members, n) => Done(Object(members), n)
  }

  /** A key and the colon after it. */
  function KeyAt(s: Bytes, p: nat): (r: Parsed<Bytes>)
    requires p <= |s|
    ensures r.Done? ==> p < r.next <= |s|
  {
    var k := SkipSpace(s, p);
    if k >= |s| || s[k] != QUOTE then Failed
    else
      match CharsAt(s, k + 1, [])
      case Failed => Failed
      case Done(key, q) =>
        var c := SkipSpace(s, q);
        if c >= |s| || s[c] != COLON then Failed else Done(key, c + 1)
  }

  /** The rest of an object, up to and with the closing brace. */
  function FieldsAt(s: Bytes, p: nat, depth: nat, acc: seq<Member>, inRange: Bytes -> bool): (r: Parsed<seq<Member>>)
    requires p <= |s|
    ensures r.Done? ==> p < r.next <= |s|
    decreases |s| - p, 2
  {
    match KeyAt(s, p)
    case Failed => Failed
    case Done(key, q) =>
      match ValueAt(s, q, depth, inRange)
      case Failed => Failed
      case Done(v, n) =>
        if HasKey(acc, key) then Failed else
        var d := SkipSpace(s, n);
        if d >= |s| then Failed
        else if s[d] == CLOSE_OBJECT then Done(Emplaced(acc, Member(key, v)), d + 1)
        else if s[d] == COMMA then FieldsAt(s, d + 1, depth, Emplaced(acc, Member(key, v)), inRange)
        else Failed
  }

  function Parse(s: Bytes, inRange: Bytes -> bool): (r: Parsed<Json>)
    ensures r.Done? ==> r.next == |s|
  {
    if |s| > MAXIMUM_PROFILE_BYTES then Failed
    else
      match ValueAt(s, 0, 0, inRange)
      case Failed => Failed
      case Done(v, n) => if SkipSpace(s, n) == |s| then Done(v, |s|) else Failed
  }
}
