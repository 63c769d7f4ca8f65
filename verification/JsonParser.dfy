/** The reader and the printer in the form the source gives them: a position that moves over the input, loops
    and local buffers. Each method is proved to compute the function of the same name. */
module JsonParser {
  import opened Utf8
  import opened JsonGrammar
  import R = JsonReader
  import P = JsonPrinter

  /** A result, or the error the source throws. */
  datatype Outcome<T> = Got(value: T) | Thrown

  /** What a reading function says, given what the method returned and where it stopped. */
  ghost predicate Agrees<T>(spec: Parsed<T>, r: Outcome<T>, position: nat)
  {
    spec == if r.Got? then Done(r.value, position) else Failed
  }

  lemma {:induction false} SkipAgain(s: Bytes, p: nat)
    requires p <= |s|
    ensures R.SkipSpace(s, R.SkipSpace(s, p)) == R.SkipSpace(s, p)
    decreases |s| - p
  {
    if p < |s| && IsSpace(s[p]) { SkipAgain(s, p + 1); }
  }

  /** Skipping spaces before a value changes nothing. */
  lemma ValueAfterSpace(s: Bytes, p: nat, depth: nat, inRange: Bytes -> bool)
    requires p <= |s|
    ensures R.ValueAt(s, R.SkipSpace(s, p), depth, inRange) == R.ValueAt(s, p, depth, inRange)
  {
    hide R.ObjectAt, R.ArrayAt, R.CharsAt, R.NumberAt, R.At;
    SkipAgain(s, p);
  }

  lemma ItemsAfterSpace(s: Bytes, p: nat, depth: nat, acc: seq<Json>, inRange: Bytes -> bool)
    requires p <= |s|
    ensures R.ItemsAt(s, R.SkipSpace(s, p), depth, acc, inRange) == R.ItemsAt(s, p, depth, acc, inRange)
  {
    hide R.ValueAt, R.SkipSpace;
    ValueAfterSpace(s, p, depth, inRange);
  }

  lemma FieldsAfterSpace(s: Bytes, p: nat, depth: nat, acc: seq<Member>, inRange: Bytes -> bool)
    requires p <= |s|
    ensures R.FieldsAt(s, R.SkipSpace(s, p), depth, acc, inRange) == R.FieldsAt(s, p, depth, acc, inRange)
  {
    hide R.ValueAt, R.SkipSpace, R.CharsAt;
    SkipAgain(s, p);
  }

  /** The first k digits of a \u escape, as far as they are read. */
  function HexPrefix(s: Bytes, p: nat, k: nat): nat
    requires p + k <= |s| && forall i :: p <= i < p + k ==> IsHex(s[i])
  {
    if k == 0 then 0 else HexPrefix(s, p, k - 1) * 16 + HexDigit(s[p + k - 1])
  }

  lemma HexPrefixIs(s: Bytes, p: nat)
    requires p + 4 <= |s| && forall i :: p <= i < p + 4 ==> IsHex(s[i])
    ensures IsHex4(s[p..p + 4]) && HexPrefix(s, p, 4) == Hex4Value(s[p..p + 4])
  {
    var h := s[p..p + 4];
    assert h[0] == s[p] && h[1] == s[p + 1] && h[2] == s[p + 2] && h[3] == s[p + 3];
    assert HexPrefix(s, p, 1) == HexDigit(s[p]);
    assert HexPrefix(s, p, 2) == HexPrefix(s, p, 1) * 16 + HexDigit(s[p + 1]);
    assert HexPrefix(s, p, 3) == HexPrefix(s, p, 2) * 16 + HexDigit(s[p + 2]);
  }

  /** The shift and the or the digits are collected with. */
  lemma HexShift(value: bv32, digit: bv32)
    requires value <= 0xfff && digit <= 0xf
    ensures ((value << 4) | digit) == value * 16 + digit
  {
  }

  lemma OneContinuation(s: Bytes, p: nat, k: nat, cp: nat)
    ensures Continuation(s, p, k, cp) ==
            if k == 0 then Done(cp, p)
            else if p >= |s| || !Tail(s[p]) then Failed
            else Continuation(s, p + 1, k - 1, Push(cp, s[p]))
  {
    hide Push;
  }

  lemma OnlyOneLiteral(s: Bytes, p: nat)
    requires p < |s|
    ensures R.At(s, p, TRUE) ==> s[p] == 0x74
    ensures R.At(s, p, FALSE) ==> s[p] == 0x66
    ensures R.At(s, p, NULL) ==> s[p] == 0x6e
  {
  }

  lemma ItemsUnfold(s: Bytes, p: nat, depth: nat, acc: seq<Json>, inRange: Bytes -> bool)
    requires p <= |s| && |acc| < MAXIMUM_VECTOR_ITEMS
    ensures var v := R.ValueAt(s, p, depth, inRange);
      R.ItemsAt(s, p, depth, acc, inRange) ==
      if v.Failed? then Failed else
      var d := R.SkipSpace(s, v.next);
      if d >= |s| then Failed
      else if s[d] == CLOSE_ARRAY then Done(acc + [v.value], d + 1)
      else if s[d] == COMMA then R.ItemsAt(s, d + 1, depth, acc + [v.value], inRange)
      else Failed
  {
    hide R.ValueAt, R.SkipSpace;
  }

  lemma FieldsUnfold(s: Bytes, p: nat, depth: nat, acc: seq<Member>, inRange: Bytes -> bool)
    requires p <= |s|
    ensures var k := R.KeyAt(s, p);
      R.FieldsAt(s, p, depth, acc, inRange) ==
      if k.Failed? then Failed else
      var v := R.ValueAt(s, k.next, depth, inRange);
      if v.Failed? || HasKey(acc, k.value) then Failed else
      var d := R.SkipSpace(s, v.next);
      var acc' := Emplaced(acc, Member(k.value, v.value));
      if d >= |s| then Failed
      else if s[d] == CLOSE_OBJECT then Done(acc', d + 1)
      else if s[d] == COMMA then R.FieldsAt(s, d + 1, depth, acc', inRange)
      else Failed
  {
    hide R.ValueAt, R.SkipSpace, R.KeyAt, HasKey, Emplaced;
  }

  lemma LiteralNext(input: Bytes, p: nat, literal: Bytes)
    requires literal != [] && p + |literal| <= |input|
    ensures R.At(input, p, literal) <==> input[p] == literal[0] && R.At(input, p + 1, literal[1..])
  {
  }

  lemma LiteralEnds(input: Bytes, p: nat, literal: Bytes)
    ensures p + |literal| > |input| ==> !R.At(input, p, literal)
    ensures literal == [] && p <= |input| ==> R.At(input, p, literal)
  {
  }

  class JsonParser {
    const input: Bytes
    const inRange: Bytes -> bool
    var position: nat

    constructor (input: Bytes, inRange: Bytes -> bool)
      ensures this.input == input && this.inRange == inRange && position == 0
    {
      this.input, this.inRange, position := input, inRange, 0;
    }

    method Parse() returns (r: Outcome<Json>)
      requires position == 0 && |input| <= MAXIMUM_PROFILE_BYTES
      modifies this`position
      ensures position <= |input| && Agrees(R.Parse(input, inRange), r, position)
    {
      SkipSpace();
      ValueAfterSpace(input, 0, 0, inRange);
      r := ParseValue(0);
      if r.Got? {
        SkipSpace();
        if position != |input| { r := Thrown; }
      }
    }

    method SkipSpace()
      requires position <= |input|
      modifies this`position
      ensures position == R.SkipSpace(input, old(position)) <= |input|
    {
      while position < |input|
        invariant position <= |input|
        invariant R.SkipSpace(input, position) == R.SkipSpace(input, old(position))
        decreases |input| - position
      {
        if !IsSpace(input[position]) { break; }
        position := position + 1;
      }
    }

    method Consume(literal: Bytes) returns (ok: bool)
      requires position <= |input|
      modifies this`position
      ensures ok == R.At(input, old(position), literal)
      ensures position == (if ok then old(position) + |literal| else old(position)) <= |input|
    {
      hide R.At;
      ok := position + |literal| <= |input|;
      LiteralEnds(input, position, literal);
      var i := 0;
      while ok && i < |literal|
        invariant i <= |literal| && position == old(position)
        invariant ok ==> position + |literal| <= |input|
        invariant R.At(input, position, literal) == (ok && R.At(input, position + i, literal[i..]))
        decreases |literal| - i, ok
      {
        LiteralNext(input, position + i, literal[i..]);
        assert literal[i..][1..] == literal[i + 1..];
        if input[position + i] != literal[i] { ok := false; } else { i := i + 1; }
      }
      if ok {
        LiteralEnds(input, position + i, literal[i..]);
        position := position + |literal|;
      }
    }

    method ParseValue(depth: nat) returns (r: Outcome<Json>)
      requires position <= |input|
      modifies this`position
      ensures position <= |input| && Agrees(R.ValueAt(input, old(position), depth, inRange), r, position)
      decreases |input| - position, 1
    {
      hide R.ObjectAt, R.ArrayAt, R.CharsAt, R.NumberAt, R.At, R.SkipSpace;
      if depth > MAXIMUM_JSON_DEPTH { return Thrown; }
      SkipSpace();
      if position >= |input| { return Thrown; }
      var c := input[position];
      if c == OPEN_OBJECT { r := ParseObject(depth + 1); return; }
      if c == OPEN_ARRAY { r := ParseArray(depth + 1); return; }
      if c == QUOTE {
        var chars := ParseString();
        return if chars.Got? then Got(String(chars.value)) else Thrown;
      }
      OnlyOneLiteral(input, position);
      if c == 0x74 {
        var ok := Consume(TRUE);
        if ok { return Got(Boolean(true)); }
      }
      if c == 0x66 {
        var ok := Consume(FALSE);
        if ok { return Got(Boolean(false)); }
      }
      if c == 0x6e {
        var ok := Consume(NULL);
        if ok { return Got(Null); }
      }
      if c == MINUS || IsDigit(c) {
        var text := ParseNumber();
        return if text.Got? then Got(Number(text.value)) else Thrown;
      }
      return Thrown;
    }

    method ParseObject(depth: nat) returns (r: Outcome<Json>)
      requires position < |input|
      modifies this`position
      ensures position <= |input| && Agrees(R.ObjectAt(input, old(position), depth, inRange), r, position)
      decreases |input| - position, 0
    {
      hide R.FieldsAt, R.CharsAt, R.ValueAt, R.SkipSpace, R.KeyAt, HasKey, Emplaced;
      var members: seq<Member> := [];
      ghost var start := position + 1;
      position := position + 1;
      SkipSpace();
      if position < |input| && input[position] == CLOSE_OBJECT {
        position := position + 1;
        return Got(Object([]));
      }
      FieldsAfterSpace(input, start, depth, [], inRange);
      while true
        invariant old(position) < position <= |input|
        invariant R.FieldsAt(input, position, depth, members, inRange) == R.FieldsAt(input, start, depth, [], inRange)
        decreases |input| - position
      {
        ghost var top := position;
        var key := ParseKey();
        FieldsUnfold(input, top, depth, members, inRange);
        if key.Thrown? { return Thrown; }
        var value := ParseValue(depth);
        if value.Thrown? { return Thrown; }
        if HasKey(members, key.value) { return Thrown; }
        members := Emplaced(members, Member(key.value, value.value));
        SkipSpace();
        if position >= |input| { return Thrown; }
        var delimiter := input[position];
        position := position + 1;
        if delimiter == CLOSE_OBJECT { return Got(Object(members)); }
        if delimiter != COMMA { return Thrown; }
      }
    }

    /** The part of parse_object that reads a key and its colon. */
    method ParseKey() returns (r: Outcome<Bytes>)
      requires position <= |input|
      modifies this`position
      ensures position <= |input| && Agrees(R.KeyAt(input, old(position)), r, position)
      ensures r.Got? ==> old(position) < position
    {
      hide R.CharsAt, R.SkipSpace;
      SkipSpace();
      if position >= |input| || input[position] != QUOTE { return Thrown; }
      r := ParseString();
      if r.Thrown? { return; }
      SkipSpace();
      if position >= |input| || input[position] != COLON { return Thrown; }
      position := position + 1;
    }

    method ParseArray(depth: nat) returns (r: Outcome<Json>)
      requires position < |input|
      modifies this`position
      ensures position <= |input| && Agrees(R.ArrayAt(input, old(position), depth, inRange), r, position)
      decreases |input| - position, 0
    {
      hide R.ItemsAt, R.CharsAt, R.ValueAt, R.SkipSpace;
      var items: seq<Json> := [];
      ghost var start := position + 1;
      position := position + 1;
      SkipSpace();
      if position < |input| && input[position] == CLOSE_ARRAY {
        position := position + 1;
        return Got(Array([]));
      }
      ItemsAfterSpace(input, start, depth, [], inRange);
      while true
        invariant old(position) < position <= |input|
        invariant R.ItemsAt(input, position, depth, items, inRange) == R.ItemsAt(input, start, depth, [], inRange)
        decreases |input| - position
      {
        if |items| >= MAXIMUM_VECTOR_ITEMS {
          TooManyItems(input, position, depth, items, inRange);
          return Thrown;
        }
        ItemsUnfold(input, position, depth, items, inRange);
        var value := ParseValue(depth);
        if value.Thrown? { return Thrown; }
        items := items + [value.value];
        SkipSpace();
        if position >= |input| { return Thrown; }
        var delimiter := input[position];
        position := position + 1;
        if delimiter == CLOSE_ARRAY { return Got(Array(items)); }
        if delimiter != COMMA { return Thrown; }
      }
    }

    method ParseHex4() returns (r: Outcome<nat>)
      requires position <= |input|
      modifies this`position
      ensures position <= |input| && Agrees(R.Hex4At(input, old(position)), r, position)
    {
      ghost var start := position;
      if position + 4 > |input| { return Thrown; }
      var value := 0;
      for index := 0 to 4
        invariant position == start + index
        invariant forall i :: start <= i < position ==> IsHex(input[i])
        invariant value == HexPrefix(input, start, index)
      {
        var c := input[position];
        position := position + 1;
        if !IsHex(c) {
          assert input[start..start + 4][index] == c;
          return Thrown;
        }
        value := value * 16 + HexDigit(c);
      }
      HexPrefixIs(input, start);
      r := Got(value);
    }

    /** The case of parse_string for a \u escape. */
    method ParseUnicode() returns (r: Outcome<Bytes>)
      requires position <= |input|
      modifies this`position
      ensures position <= |input| && Agrees(R.UnicodeAt(input, old(position)), r, position)
    {
      hide R.Hex4At, Encode;
      var unit := ParseHex4();
      if unit.Thrown? { return Thrown; }
      var codepoint := unit.value;
      if HighSurrogate(codepoint) {
        if position + 2 > |input| || input[position] != BACKSLASH || input[position + 1] != LETTER_U { return Thrown; }
        position := position + 2;
        var low := ParseHex4();
        if low.Thrown? || !LowSurrogate(low.value) { return Thrown; }
        codepoint := PairValue(codepoint, low.value);
      } else if LowSurrogate(codepoint) {
        return Thrown;
      }
      r := Got(Encode(codepoint));
    }

    /** The case of parse_string for a byte above 0x7f, which has been read; copies the whole character. */
    method CopyRaw(c: Byte) returns (r: Outcome<Bytes>)
      requires 0 < position <= |input| && c == input[position - 1] && c >= 0x80
      modifies this`position
      ensures old(position) <= position <= |input| && Agrees(RawAt(input, old(position) - 1), r, position)
    {
      hide Continuation, Push;
      var continuation: nat, codepoint: nat := 0, 0;
      ghost var start := position;
      if 0xc0 <= c < 0xe0 {
        continuation, codepoint := 1, c - 0xc0;
        if codepoint < 2 { return Thrown; }
      } else if 0xe0 <= c < 0xf0 {
        continuation, codepoint := 2, c - 0xe0;
      } else if 0xf0 <= c < 0xf8 {
        continuation, codepoint := 3, c - 0xf0;
      } else {
        return Thrown;
      }
      ghost var bits := codepoint;
      var copied := [c];
      assert input[start - 1..start] == [c];
      for index := 0 to continuation
        invariant index <= continuation && position == start + index <= |input|
        invariant Continuation(input, position, continuation - index, codepoint) == Continuation(input, start,
            continuation, bits)
        invariant copied == input[start - 1..position]
      {
        OneContinuation(input, position, continuation - index, codepoint);
        if position >= |input| { return Thrown; }
        var next := input[position];
        position := position + 1;
        if !Tail(next) { return Thrown; }
        assert input[start - 1..position] == input[start - 1..position - 1] + [next];
        copied := copied + [next];
        codepoint := Push(codepoint, next);
      }
      OneContinuation(input, position, 0, codepoint);
      if || (continuation == 2 && codepoint < 0x800) || (continuation == 3 && codepoint < 0x10000)
         || codepoint > 0x10ffff || 0xd800 <= codepoint <= 0xdfff {
        return Thrown;
      }
      r := Got(copied);
    }

    /** One character, its first byte read already. */
    method ParseChar(c: Byte) returns (r: Outcome<Bytes>)
      requires 0 < position <= |input| && c == input[position - 1] && c != QUOTE
      modifies this`position
      ensures position <= |input| && Agrees(R.CharAt(input, old(position) - 1), r, position)
    {
      hide RawAt, R.UnicodeAt;
      if c < 0x20 { return Thrown; }
      if c == BACKSLASH {
        if position >= |input| { return Thrown; }
        var escape := input[position];
        position := position + 1;
        if escape == LETTER_U {
          r := ParseUnicode();
        } else if ShortValue(escape) == [] {
          r := Thrown;
        } else {
          r := Got(ShortValue(escape));
        }
      } else if c >= 0x80 {
        r := CopyRaw(c);
      } else {
        r := Got([c]);
      }
    }

    method ParseString() returns (r: Outcome<Bytes>)
      requires position < |input|
      modifies this`position
      ensures position <= |input| && Agrees(R.CharsAt(input, old(position) + 1, []), r, position)
    {
      hide R.CharAt;
      ghost var start := position + 1;
      position := position + 1;
      var result: Bytes := [];
      while position < |input|
        invariant start <= position <= |input|
        invariant R.CharsAt(input, position, result) == R.CharsAt(input, start, [])
        decreases |input| - position
      {
        var c := input[position];
        position := position + 1;
        if c == QUOTE { return Got(result); }
        var octets := ParseChar(c);
        if octets.Thrown? { return Thrown; }
        result := result + octets.value;
        if |result| > MAXIMUM_JSON_STRING { return Thrown; }
      }
      r := Thrown;
    }

    /** The loop that reads digits. */
    method SkipDigits()
      requires position <= |input|
      modifies this`position
      ensures position == R.DigitsEnd(input, old(position)) <= |input|
    {
      while position < |input| && IsDigit(input[position])
        invariant position <= |input|
        invariant R.DigitsEnd(input, position) == R.DigitsEnd(input, old(position))
        decreases |input| - position
      {
        position := position + 1;
      }
    }

    /** The integer part of parse_number. */
    method ParseWhole() returns (ok: bool)
      requires position <= |input|
      modifies this`position
      ensures position <= |input| && R.WholeAt(input, old(position)) == if ok then R.To(position) else R.Nowhere
    {
      hide R.DigitsEnd;
      if position >= |input| { return false; }
      if input[position] == 0x30 {
        position := position + 1;
      } else {
        if !IsDigit(input[position]) { return false; }
        position := position + 1;
        SkipDigits();
      }
      ok := true;
    }

    /** Its fraction. */
    method ParseFraction() returns (ok: bool)
      requires position <= |input|
      modifies this`position
      ensures position <= |input| && R.FracAt(input, old(position)) == if ok then R.To(position) else R.Nowhere
    {
      hide R.DigitsEnd;
      if position < |input| && input[position] == DOT {
        position := position + 1;
        var fraction := position;
        SkipDigits();
        if position == fraction { return false; }
      }
      ok := true;
    }

    /** Its exponent. */
    method ParseExponent() returns (ok: bool)
      requires position <= |input|
      modifies this`position
      ensures position <= |input| && R.ExpAt(input, old(position)) == if ok then R.To(position) else R.Nowhere
    {
      hide R.DigitsEnd;
      if position < |input| && (input[position] == 0x65 || input[position] == 0x45) {
        position := position + 1;
        if position < |input| && IsSign(input[position]) { position := position + 1; }
        var exponent := position;
        SkipDigits();
        if position == exponent { return false; }
      }
      ok := true;
    }

    method ParseNumber() returns (r: Outcome<Bytes>)
      requires position < |input|
      modifies this`position
      ensures position <= |input| && Agrees(R.NumberAt(input, old(position), inRange), r, position)
    {
      hide R.WholeAt, R.FracAt, R.ExpAt;
      var begin := position;
      if input[position] == MINUS { position := position + 1; }
      var ok := ParseWhole();
      if !ok { return Thrown; }
      ok := ParseFraction();
      if !ok { return Thrown; }
      ok := ParseExponent();
      if !ok { return Thrown; }
      var token := input[begin..position];
      if !inRange(token) { return Thrown; }
      r := Got(token);
    }
  }

  lemma TooManyItems(s: Bytes, p: nat, depth: nat, acc: seq<Json>, inRange: Bytes -> bool)
    requires p <= |s| && |acc| >= MAXIMUM_VECTOR_ITEMS
    ensures R.ItemsAt(s, p, depth, acc, inRange) == Failed
  {
  }

  /** What the parser's callers do: the size check of the constructor, then parse. */
  method ParseText(text: Bytes, inRange: Bytes -> bool) returns (r: Outcome<Json>)
    ensures match R.Parse(text, inRange)
            case Done(v, n) => r == Got(v)
            case Failed => r == Thrown
  {
    if |text| > MAXIMUM_PROFILE_BYTES { return Thrown; }
    var parser := new JsonParser(text, inRange);
    r := parser.Parse();
  }

  // ----- the printer

  method EscapeJson(value: Bytes) returns (out: Bytes)
    ensures out == P.Quoted(value)
  {
    out := [QUOTE];
    for i := 0 to |value|
      invariant out + P.Escaped(value[i..]) == [QUOTE] + P.Escaped(value)
    {
      assert value[i..][1..] == value[i + 1..];
      out := out + P.EscapedByte(value[i]);
    }
    out := out + [QUOTE];
  }

  method CanonicalJson(value: Json) returns (result: Bytes)
    ensures result == P.Print(value)
    decreases value
  {
    match value
    case Null => result := NULL;
    case Boolean(b) => result := if b then TRUE else FALSE;
    case Number(text) => result := text;
    case String(chars) => result := EscapeJson(chars);
    case Array(items) => result := PrintArray(items);
    case Object(members) => result := PrintObject(members);
  }

  /** What is still to be printed after the first `index` items. */
  function ItemsLeft(items: seq<Json>, index: nat): Bytes
    requires index <= |items|
  {
    if index == |items| then [CLOSE_ARRAY]
    else (if index > 0 then [COMMA] else []) + P.PrintItems(items[index..])
  }

  lemma ItemsStep(items: seq<Json>, index: nat)
    requires index < |items|
    ensures ItemsLeft(items, index) ==
            (if index > 0 then [COMMA] else []) + (P.Print(items[index]) + ItemsLeft(items, index + 1))
  {
    hide P.Print;
    assert items[index..][1..] == items[index + 1..];
  }

  method PrintArray(items: seq<Json>) returns (result: Bytes)
    ensures result == [OPEN_ARRAY] + P.PrintItems(items)
    decreases items, 0
  {
    result := [OPEN_ARRAY];
    assert ItemsLeft(items, 0) == P.PrintItems(items) by { assert items[0..] == items; }
    hide P.Print, ItemsLeft, P.PrintItems;
    for index := 0 to |items|
      invariant result + ItemsLeft(items, index) == [OPEN_ARRAY] + P.PrintItems(items)
    {
      ItemsStep(items, index);
      ghost var before, rest := result, ItemsLeft(items, index + 1);
      if index > 0 { result := result + [COMMA]; }
      var text := CanonicalJson(items[index]);
      Regroup(before, if index > 0 then [COMMA] else [], text, rest);
      result := result + text;
    }
    AllPrinted(items, []);
    result := result + [CLOSE_ARRAY];
  }

  lemma Regroup(a: Bytes, b: Bytes, c: Bytes, d: Bytes)
    ensures a + (b + (c + d)) == ((a + b) + c) + d && a + [] == a
  {
    assert a + (b + (c + d)) == (a + b) + (c + d);
  }

  lemma AllPrinted(items: seq<Json>, members: seq<Member>)
    ensures ItemsLeft(items, |items|) == [CLOSE_ARRAY] && MembersLeft(members, |members|) == [CLOSE_OBJECT]
  {
  }

  function MembersLeft(members: seq<Member>, index: nat): Bytes
    requires index <= |members|
  {
    if index == |members| then [CLOSE_OBJECT]
    else (if index > 0 then [COMMA] else []) + P.PrintMembers(members[index..])
  }

  lemma MembersStep(members: seq<Member>, index: nat)
    requires index < |members|
    ensures MembersLeft(members, index) ==
            (if index > 0 then [COMMA] else []) + (P.PrintMember(members[index]) + MembersLeft(members, index + 1))
  {
    hide P.PrintMember;
    assert members[index..][1..] == members[index + 1..];
  }

  lemma PrintMemberIs(before: Bytes, m: Member)
    ensures ((before + P.Quoted(m.key)) + [COLON]) + P.Print(m.value) == before + P.PrintMember(m)
  {
    hide P.Quoted, P.Print;
  }

  method PrintObject(members: seq<Member>) returns (result: Bytes)
    ensures result == [OPEN_OBJECT] + P.PrintMembers(members)
    decreases members, 0
  {
    result := [OPEN_OBJECT];
    assert MembersLeft(members, 0) == P.PrintMembers(members) by { assert members[0..] == members; }
    hide P.Print, P.PrintMember, P.PrintMembers, P.Quoted, MembersLeft;
    var first := true;
    for index := 0 to |members|
      invariant first <==> index == 0
      invariant result + MembersLeft(members, index) == [OPEN_OBJECT] + P.PrintMembers(members)
    {
      MembersStep(members, index);
      ghost var before, rest := result, MembersLeft(members, index + 1);
      Regroup(before, if first then [] else [COMMA], P.PrintMember(members[index]), rest);
      if !first { result := result + [COMMA]; }
      first := false;
      PrintMemberIs(result, members[index]);
      var key := EscapeJson(members[index].key);
      result := result + key;
      result := result + [COLON];
      var text := CanonicalJson(members[index].value);
      result := result + text;
    }
    AllPrinted([], members);
    result := result + [CLOSE_OBJECT];
  }
}
