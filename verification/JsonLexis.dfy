/** Characters, strings, spaces and numbers: the reader takes exactly what the grammar describes. */
module JsonLexis {
  import opened Utf8
  import opened JsonGrammar
  import opened JsonReader

  lemma {:induction false} AtSplit(s: Bytes, p: nat, a: Bytes, b: Bytes)
    ensures At(s, p, a + b) <==> At(s, p, a) && At(s, p + |a|, b)
    decreases |a|
  {
    if a == [] {
      assert a + b == b;
    } else {
      assert (a + b)[1..] == a[1..] + b;
      AtSplit(s, p + 1, a[1..], b);
    }
  }

  /** Standing at p is what compare says about the slice there. */
  lemma {:induction false} AtSlice(s: Bytes, p: nat, text: Bytes)
    ensures At(s, p, text) <==> p + |text| <= |s| && s[p..p + |text|] == text
    decreases |text|
  {
    if text != [] {
      AtSlice(s, p + 1, text[1..]);
      if p + |text| <= |s| {
        assert s[p..p + |text|] == [s[p]] + s[p + 1..p + |text|];
        assert text == [text[0]] + text[1..];
      }
    }
  }

  lemma Append3(a: Bytes, b: Bytes, c: Bytes)
    ensures a + b + c == a + (b + c)
  {
  }

  lemma AtOne(s: Bytes, p: nat, b: Byte)
    ensures At(s, p, [b]) <==> p < |s| && s[p] == b
  {
    assert [b][1..] == [];
  }

  lemma AtTwo(s: Bytes, p: nat, a: Byte, b: Byte)
    ensures At(s, p, [a, b]) <==> p + 2 <= |s| && s[p] == a && s[p + 1] == b
  {
    assert [a, b][1..] == [b];
    AtOne(s, p + 1, b);
  }

  /** Skipping stops right after the spaces that stand there. */
  lemma {:induction false} SkipsAll(s: Bytes, p: nat, gap: Bytes)
    requires At(s, p, gap) && Spaces(gap) && (p + |gap| == |s| || !IsSpace(s[p + |gap|]))
    ensures SkipSpace(s, p) == p + |gap|
    decreases |gap|
  {
    if gap != [] {
      assert s[p] == gap[0];
      SkipsAll(s, p + 1, gap[1..]);
    }
  }

  lemma {:induction false} SkipsOnlySpaces(s: Bytes, p: nat)
    requires p <= |s|
    ensures Spaces(s[p..SkipSpace(s, p)]) && (SkipSpace(s, p) == |s| || !IsSpace(s[SkipSpace(s, p)]))
    decreases |s| - p
  {
    if p < |s| && IsSpace(s[p]) {
      SkipsOnlySpaces(s, p + 1);
      assert s[p..SkipSpace(s, p)][1..] == s[p + 1..SkipSpace(s, p + 1)];
    }
  }

  // ----- characters

  lemma Hex4Complete(s: Bytes, p: nat, h: Bytes)
    requires At(s, p, h) && IsHex4(h)
    ensures Hex4At(s, p) == Done(Hex4Value(h), p + 4)
  {
    AtSlice(s, p, h);
  }

  lemma UnitAt(s: Bytes, p: nat, h: Bytes)
    requires At(s, p, [BACKSLASH, LETTER_U]) && p + 6 <= |s| && h == s[p + 2..p + 6]
    ensures At(s, p, [BACKSLASH, LETTER_U] + h)
  {
    AtSlice(s, p + 2, h);
    AtSplit(s, p, [BACKSLASH, LETTER_U], h);
  }

  lemma PairAt(s: Bytes, p: nat, h: Bytes, l: Bytes)
    requires At(s, p, [BACKSLASH, LETTER_U] + h) && |h| == 4
    requires At(s, p + 6, [BACKSLASH, LETTER_U]) && p + 12 <= |s| && l == s[p + 8..p + 12]
    ensures At(s, p, CharText(Surrogates(h, l)))
  {
    hide At;
    AtSlice(s, p + 8, l);
    AtSplit(s, p, [BACKSLASH, LETTER_U] + h, [BACKSLASH, LETTER_U]);
    AtSplit(s, p, [BACKSLASH, LETTER_U] + h + [BACKSLASH, LETTER_U], l);
  }

  lemma UnicodeSound(s: Bytes, p: nat) returns (c: Char)
    requires At(s, p, [BACKSLASH, LETTER_U]) && UnicodeAt(s, p + 2).Done?
    ensures CharOk(c) && At(s, p, CharText(c)) && CharValue(c) == UnicodeAt(s, p + 2).value
    ensures UnicodeAt(s, p + 2).next == p + |CharText(c)|
  {
    var h := s[p + 2..p + 6];
    UnitAt(s, p, h);
    if HighSurrogate(Hex4Value(h)) {
      var l := s[p + 8..p + 12];
      AtTwo(s, p + 6, BACKSLASH, LETTER_U);
      PairAt(s, p, h, l);
      c := Surrogates(h, l);
    } else {
      c := Unit(h);
    }
  }

  /** Whatever the reader takes for a character is one, and means what the reader returns. */
  lemma CharSound(s: Bytes, p: nat) returns (c: Char)
    requires p < |s| && s[p] != QUOTE && CharAt(s, p).Done?
    ensures CharOk(c) && At(s, p, CharText(c)) && CharValue(c) == CharAt(s, p).value
    ensures CharAt(s, p).next == p + |CharText(c)|
  {
    if s[p] == BACKSLASH {
      AtTwo(s, p, s[p], s[p + 1]);
      if s[p + 1] == LETTER_U {
        c := UnicodeSound(s, p);
      } else {
        c := Short(s[p + 1]);
      }
    } else {
      c := Raw(CharAt(s, p).value);
      if s[p] >= 0x80 { RawIsUtf8(s, p); }
      AtSlice(s, p, CharText(c));
    }
  }

  lemma PairComplete(s: Bytes, p: nat, h: Bytes, l: Bytes)
    requires CharOk(Surrogates(h, l)) && At(s, p, CharText(Surrogates(h, l)))
    ensures s[p] == BACKSLASH && s[p + 1] == LETTER_U
    ensures UnicodeAt(s, p + 2) == Done(CharValue(Surrogates(h, l)), p + 12)
  {
    AtSplit(s, p, [BACKSLASH, LETTER_U] + h + [BACKSLASH, LETTER_U], l);
    AtSplit(s, p, [BACKSLASH, LETTER_U] + h, [BACKSLASH, LETTER_U]);
    AtSplit(s, p, [BACKSLASH, LETTER_U], h);
    Hex4Complete(s, p + 2, h);
    Hex4Complete(s, p + 8, l);
    AtTwo(s, p, BACKSLASH, LETTER_U);
    AtTwo(s, p + 6, BACKSLASH, LETTER_U);
  }

  lemma UnitComplete(s: Bytes, p: nat, h: Bytes)
    requires CharOk(Unit(h)) && At(s, p, CharText(Unit(h)))
    ensures s[p] == BACKSLASH && s[p + 1] == LETTER_U
    ensures UnicodeAt(s, p + 2) == Done(CharValue(Unit(h)), p + 6)
  {
    AtSplit(s, p, [BACKSLASH, LETTER_U], h);
    Hex4Complete(s, p + 2, h);
    AtTwo(s, p, BACKSLASH, LETTER_U);
  }

  lemma RawComplete(s: Bytes, p: nat, b: Bytes)
    requires CharOk(Raw(b)) && At(s, p, b)
    ensures s[p] != QUOTE && CharAt(s, p) == Done(b, p + |b|)
  {
    assert s[p] == b[0];
    AtSlice(s, p, b);
    LengthIsRight(b);
    if s[p] >= 0x80 {
      RawIsUtf8(s, p);
    } else {
      assert b == [s[p]];
    }
  }

  /** And it takes every character the grammar knows. */
  lemma CharComplete(s: Bytes, p: nat, c: Char)
    requires CharOk(c) && At(s, p, CharText(c))
    ensures 0 < |CharText(c)| && s[p] != QUOTE && CharAt(s, p) == Done(CharValue(c), p + |CharText(c)|)
  {
    hide Utf8Char, Hex4Value, UnicodeAt, RawAt, Encode;
    match c
    case Raw(b) => RawComplete(s, p, b);
    case Short(letter) =>
      AtTwo(s, p, BACKSLASH, letter);
    case Unit(h) => UnitComplete(s, p, h);
    case Surrogates(h, l) => PairComplete(s, p, h, l);
  }

  // ----- strings

  lemma {:induction false} CharsSound(s: Bytes, p: nat, acc: Bytes) returns (cs: seq<Char>)
    requires CharsAt(s, p, acc).Done? && |acc| <= MAXIMUM_JSON_STRING
    ensures CharsOk(cs) && At(s, p, CharsText(cs))
        && CharsAt(s, p, acc) == Done(acc + CharsValue(cs), p + |CharsText(cs)|)
    ensures |acc + CharsValue(cs)| <= MAXIMUM_JSON_STRING
    decreases |s| - p
  {
    hide At, CharText, CharValue, CharAt, CharOk;
    if s[p] == QUOTE {
      cs := [];
      AtOne(s, p, QUOTE);
      assert acc + [] == acc;
    } else {
      var c := CharSound(s, p);
      var octets, next := CharAt(s, p).value, CharAt(s, p).next;
      var rest := CharsSound(s, next, acc + octets);
      cs := [c] + rest;
      CharsCons(c, rest);
      AtSplit(s, p, CharText(c), CharsText(rest));
      Append3(acc, octets, CharsValue(rest));
    }
  }

  lemma CharsCons(c: Char, rest: seq<Char>)
    ensures CharsText([c] + rest) == CharText(c) + CharsText(rest)
    ensures CharsValue([c] + rest) == CharValue(c) + CharsValue(rest)
  {
    assert ([c] + rest)[1..] == rest;
  }

  lemma CharsSplit(s: Bytes, p: nat, cs: seq<Char>)
    requires At(s, p, CharsText(cs)) && cs != []
    ensures At(s, p, CharText(cs[0])) && At(s, p + |CharText(cs[0])|, CharsText(cs[1..]))
    ensures |CharsText(cs)| == |CharText(cs[0])| + |CharsText(cs[1..])|
  {
    AtSplit(s, p, CharText(cs[0]), CharsText(cs[1..]));
  }

  lemma {:induction false} CharsComplete(s: Bytes, p: nat, acc: Bytes, cs: seq<Char>)
    requires CharsOk(cs) && At(s, p, CharsText(cs)) && |acc| + |CharsValue(cs)| <= MAXIMUM_JSON_STRING
    ensures CharsAt(s, p, acc) == Done(acc + CharsValue(cs), p + |CharsText(cs)|)
    decreases |cs|
  {
    hide At, CharText, CharValue, CharAt, CharOk;
    if cs == [] {
      AtOne(s, p, QUOTE);
      assert acc + [] == acc;
    } else {
      CharsSplit(s, p, cs);
      CharComplete(s, p, cs[0]);
      var octets := CharValue(cs[0]);
      Append3(acc, octets, CharsValue(cs[1..]));
      CharsComplete(s, p + |CharText(cs[0])|, acc + octets, cs[1..]);
    }
  }

  /** Every character means a UTF-8 character, so every string means well-formed UTF-8. */
  lemma CharIsUtf8(c: Char)
    requires CharOk(c)
    ensures Utf8Char(CharValue(c))
  {
    match c
    case Raw(b) =>
    case Short(letter) =>
    case Unit(h) => EncodeIsUtf8(Hex4Value(h));
    case Surrogates(h, l) => EncodeIsUtf8(PairValue(Hex4Value(h), Hex4Value(l)));
  }

  lemma {:induction false} CharsAreUtf8(cs: seq<Char>)
    requires CharsOk(cs)
    ensures Utf8String(CharsValue(cs))
  {
    if cs != [] {
      CharsAreUtf8(cs[1..]);
      CharIsUtf8(cs[0]);
      Utf8Prepend(CharValue(cs[0]), CharsValue(cs[1..]));
    }
  }

  lemma Utf8Prepend(c: Bytes, b: Bytes)
    requires Utf8Char(c) && Utf8String(b)
    ensures Utf8String(c + b)
  {
    LengthIsRight(c);
    assert (c + b)[..|c|] == c && (c + b)[|c|..] == b;
  }

  // ----- numbers

  lemma {:induction false} DigitsAll(s: Bytes, p: nat, d: Bytes)
    requires At(s, p, d) && Digits(d) && NoDigit(s, p + |d|)
    ensures DigitsEnd(s, p) == p + |d|
    decreases |d|
  {
    if d != [] {
      DigitsAll(s, p + 1, d[1..]);
    }
  }

  lemma {:induction false} OnlyDigits(s: Bytes, p: nat)
    requires p <= |s|
    ensures Digits(s[p..DigitsEnd(s, p)])
    decreases |s| - p
  {
    if p < |s| && IsDigit(s[p]) {
      OnlyDigits(s, p + 1);
      assert s[p..DigitsEnd(s, p)][1..] == s[p + 1..DigitsEnd(s, p + 1)];
    }
  }

  predicate NoDigit(s: Bytes, p: nat)
  {
    p >= |s| || !IsDigit(s[p])
  }

  /** Nothing follows that could belong to a number. */
  predicate NumberEnds(s: Bytes, p: nat)
  {
    NoDigit(s, p) && (p >= |s| || !(s[p] == DOT || s[p] == 0x65 || s[p] == 0x45))
  }

  lemma WholeComplete(s: Bytes, p: nat, d: Bytes)
    requires At(s, p, d) && WholeOk(d) && NoDigit(s, p + |d|)
    ensures WholeAt(s, p) == To(p + |d|)
  {
    DigitsAll(s, p + 1, d[1..]);
  }

  lemma FracComplete(s: Bytes, p: nat, d: Bytes)
    requires At(s, p, d) && FracOk(d) && NoDigit(s, p + |d|) && (d == [] ==> p >= |s| || s[p] != DOT)
    ensures FracAt(s, p) == To(p + |d|)
  {
    if d != [] {
      DigitsAll(s, p + 1, d[1..]);
    }
  }

  lemma ExpComplete(s: Bytes, p: nat, d: Bytes)
    requires At(s, p, d) && ExpOk(d) && NumberEnds(s, p + |d|)
    ensures ExpAt(s, p) == To(p + |d|)
  {
    if d != [] {
      SignedComplete(s, p + 1, d[1..]);
    }
  }

  lemma SignedComplete(s: Bytes, p: nat, d: Bytes)
    requires At(s, p, d) && SignedDigits(d) && NoDigit(s, p + |d|)
    ensures p <= |s| && AfterSign(s, p) < p + |d| && DigitsEnd(s, AfterSign(s, p)) == p + |d|
  {
    if IsSign(d[0]) {
      DigitsAll(s, p + 1, d[1..]);
    } else {
      DigitsAll(s, p, d);
    }
  }

  /** The parts of a number, one after the other, and nothing after them. */
  predicate PartsAt(s: Bytes, w: nat, whole: Bytes, frac: Bytes, exp: Bytes)
  {
    && At(s, w, whole) && At(s, w + |whole|, frac) && At(s, w + |whole| + |frac|, exp)
    && NumberEnds(s, w + |whole| + |frac| + |exp|)
  }

  lemma PartsComplete(s: Bytes, w: nat, whole: Bytes, frac: Bytes, exp: Bytes)
    requires PartsAt(s, w, whole, frac, exp) && WholeOk(whole) && FracOk(frac) && ExpOk(exp)
    ensures WholeAt(s, w) == To(w + |whole|)
    ensures FracAt(s, w + |whole|) == To(w + |whole| + |frac|)
    ensures ExpAt(s, w + |whole| + |frac|) == To(w + |whole| + |frac| + |exp|)
  {
    WholeComplete(s, w, whole);
    FracComplete(s, w + |whole|, frac);
    ExpComplete(s, w + |whole| + |frac|, exp);
  }

  lemma NumeralAt(s: Bytes, p: nat, n: Numeral)
    requires At(s, p, NumeralText(n)) && NumberEnds(s, p + |NumeralText(n)|)
    ensures At(s, p, n.sign) && PartsAt(s, p + |n.sign|, n.whole, n.frac, n.exp)
    ensures |NumeralText(n)| == |n.sign| + |n.whole| + |n.frac| + |n.exp|
  {
    AtSplit(s, p, n.sign, n.whole + (n.frac + n.exp));
    AtSplit(s, p + |n.sign|, n.whole, n.frac + n.exp);
    AtSplit(s, p + |n.sign| + |n.whole|, n.frac, n.exp);
  }

  lemma NumberComplete(s: Bytes, p: nat, n: Numeral, inRange: Bytes -> bool)
    requires NumeralOk(n) && At(s, p, NumeralText(n)) && NumberEnds(s, p + |NumeralText(n)|)
    requires inRange(NumeralText(n))
    ensures NumberAt(s, p, inRange) == Done(NumeralText(n), p + |NumeralText(n)|)
    ensures s[p] == MINUS || IsDigit(s[p])
  {
    hide At, PartsAt, WholeAt, FracAt, ExpAt, NumberAt, FracOk, ExpOk, NumberEnds;
    NumeralAt(s, p, n);
    AtSlice(s, p, NumeralText(n));
    NumberFromParts(s, p, n.sign, n.whole, n.frac, n.exp, p + |NumeralText(n)|, inRange);
  }

  lemma NumberFromParts(s: Bytes, p: nat, sign: Bytes, whole: Bytes, frac: Bytes, exp: Bytes, e: nat,
          inRange: Bytes -> bool)
    requires (sign == [] || sign == [MINUS]) && At(s, p, sign) && PartsAt(s, p + |sign|, whole, frac, exp)
    requires WholeOk(whole) && FracOk(frac) && ExpOk(exp) && e == p + |sign| + |whole| + |frac| + |exp|
    requires p < e <= |s| && inRange(s[p..e])
    ensures NumberAt(s, p, inRange) == Done(s[p..e], e)
    ensures s[p] == MINUS || IsDigit(s[p])
  {
    hide At, WholeAt, FracAt, ExpAt, NumberAt, WholeOk, FracOk, ExpOk, NumberEnds, IsDigit;
    var w := p + |sign|;
    SignTaken(s, p, sign, whole);
    PartsComplete(s, w, whole, frac, exp);
    NumberTaken(s, p, w, w + |whole|, w + |whole| + |frac|, e, inRange);
  }

  lemma SignTaken(s: Bytes, p: nat, sign: Bytes, whole: Bytes)
    requires (sign == [] || sign == [MINUS]) && At(s, p, sign) && At(s, p + |sign|, whole) && WholeOk(whole)
    ensures p < |s| && |sign| == (if s[p] == MINUS then 1 else 0)
    ensures s[p] == MINUS || IsDigit(s[p])
  {
  }

  lemma NumberTaken(s: Bytes, p: nat, w: nat, f: nat, t: nat, e: nat, inRange: Bytes -> bool)
    requires p < |s| && w == (if s[p] == MINUS then p + 1 else p) && WholeAt(s, w) == To(f)
    requires FracAt(s, f) == To(t)
    requires ExpAt(s, t) == To(e)
    requires inRange(s[p..e])
    ensures NumberAt(s, p, inRange) == Done(s[p..e], e)
  {
  }

  lemma WholeSound(s: Bytes, p: nat)
    requires WholeAt(s, p).To?
    ensures WholeOk(s[p..WholeAt(s, p).next])
  {
    OnlyDigits(s, p + 1);
    assert s[p..WholeAt(s, p).next][1..] == s[p + 1..WholeAt(s, p).next];
  }

  lemma FracSound(s: Bytes, p: nat)
    requires p <= |s| && FracAt(s, p).To?
    ensures FracOk(s[p..FracAt(s, p).next])
  {
    var e := FracAt(s, p).next;
    if e > p {
      OnlyDigits(s, p + 1);
      assert s[p..e][1..] == s[p + 1..e];
    }
  }

  lemma ExpSound(s: Bytes, p: nat)
    requires p <= |s| && ExpAt(s, p).To?
    ensures ExpOk(s[p..ExpAt(s, p).next])
  {
    var e := ExpAt(s, p).next;
    if e > p {
      assert s[p..e][1..] == s[p + 1..e];
      SignedSound(s, p + 1);
    }
  }

  lemma SignedSound(s: Bytes, p: nat)
    requires p <= |s| && DigitsEnd(s, AfterSign(s, p)) > AfterSign(s, p)
    ensures SignedDigits(s[p..DigitsEnd(s, AfterSign(s, p))])
  {
    var d := AfterSign(s, p);
    var e := DigitsEnd(s, d);
    OnlyDigits(s, d);
    if d > p {
      assert s[p..e][1..] == s[d..e];
    }
  }

  lemma Join(s: Bytes, a: nat, b: nat, c: nat)
    requires a <= b <= c <= |s|
    ensures s[a..c] == s[a..b] + s[b..c]
  {
  }

  /** What the reader takes for a number is one. */
  lemma NumberSound(s: Bytes, p: nat, inRange: Bytes -> bool)
    requires p < |s| && NumberAt(s, p, inRange).Done?
    ensures var text := NumberAt(s, p, inRange).value;
      IsNumber(text) && inRange(text) && At(s, p, text) && NumberAt(s, p, inRange) == Done(text, p + |text|)
  {
    hide At, WholeAt, FracAt, ExpAt, WholeOk, FracOk, ExpOk, NumeralText, IsNumber;
    var w := if s[p] == MINUS then p + 1 else p;
    var f := WholeAt(s, w).next;
    var t := FracAt(s, f).next;
    var e := ExpAt(s, t).next;
    WholeSound(s, w);
    FracSound(s, f);
    ExpSound(s, t);
    Joined(s, p, w, f, t, e);
    NumeralIsNumber(Numeral(s[p..w], s[w..f], s[f..t], s[t..e]));
    AtSlice(s, p, s[p..e]);
  }

  lemma Joined(s: Bytes, p: nat, w: nat, f: nat, t: nat, e: nat)
    requires p <= w <= f <= t <= e <= |s|
    ensures s[p..e] == NumeralText(Numeral(s[p..w], s[w..f], s[f..t], s[t..e]))
  {
    Join(s, p, w, e);
    Join(s, w, f, e);
    Join(s, f, t, e);
  }

  lemma NumeralIsNumber(n: Numeral)
    requires NumeralOk(n)
    ensures IsNumber(NumeralText(n))
  {
  }
}
