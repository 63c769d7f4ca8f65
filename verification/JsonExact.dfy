/** The reader accepts exactly the texts of the grammar within its limits, and returns what they mean. */
module JsonExact {
  import opened Utf8
  import opened JsonGrammar
  import opened JsonReader
  import opened JsonLexis

  // ----- keys

  lemma {:induction false} HasKeyEmplaced(ms: seq<Member>, m: Member, key: Bytes)
    ensures HasKey(Emplaced(ms, m), key) <==> HasKey(ms, key) || key == m.key
  {
    if ms == [] || Less(m.key, ms[0].key) {
      HasKeyCons(m, ms, key);
    } else if m.key != ms[0].key {
      HasKeyEmplaced(ms[1..], m, key);
      HasKeyCons(ms[0], ms[1..], key);
      HasKeyCons(ms[0], Emplaced(ms[1..], m), key);
      assert ms == [ms[0]] + ms[1..];
    }
  }

  lemma HasKeyCons(m: Member, ms: seq<Member>, key: Bytes)
    ensures HasKey([m] + ms, key) <==> m.key == key || HasKey(ms, key)
  {
    var all := [m] + ms;
    if HasKey(ms, key) {
      var i :| 0 <= i < |ms| && ms[i].key == key;
      assert all[i + 1].key == key;
    }
    if m.key == key { assert all[0].key == key; }
    if HasKey(all, key) {
      var i :| 0 <= i < |all| && all[i].key == key;
      if i > 0 { assert ms[i - 1].key == key; }
    }
  }

  /** None of the fields repeats a key of another or one that is already collected. */
  predicate FreshKeys(fields: seq<Field>, acc: seq<Member>)
  {
    DistinctKeys(fields) && forall i :: 0 <= i < |fields| ==> !HasKey(acc, CharsValue(fields[i].key))
  }

  lemma FreshTail(fields: seq<Field>, acc: seq<Member>)
    requires fields != []
    ensures FreshKeys(fields, acc) <==>
            !HasKey(acc, CharsValue(fields[0].key)) && FreshKeys(fields[1..], Emplaced(acc, FieldMeaning(fields[0])))
  {
    var m := FieldMeaning(fields[0]);
    forall i | 0 <= i < |fields[1..]|
      ensures fields[1..][i] == fields[i + 1]
      ensures HasKey(Emplaced(acc, m), CharsValue(fields[i + 1].key)) <==>
              HasKey(acc, CharsValue(fields[i + 1].key)) || CharsValue(fields[i + 1].key) == m.key
    {
      HasKeyEmplaced(acc, m, CharsValue(fields[i + 1].key));
    }
    if !HasKey(acc, m.key) && FreshKeys(fields[1..], Emplaced(acc, m)) {
      forall i, j | 0 <= i < j < |fields| ensures CharsValue(fields[i].key) != CharsValue(fields[j].key) {
        assert fields[1..][j - 1] == fields[j];
        if i > 0 { assert fields[1..][i - 1] == fields[i]; }
      }
      forall i | 0 <= i < |fields| ensures !HasKey(acc, CharsValue(fields[i].key)) {
        if i > 0 { assert fields[1..][i - 1] == fields[i]; }
      }
    }
  }

  // ----- layout

  /** A value, with the spaces before and after it, from p to e. */
  predicate ItemSpan(s: Bytes, p: nat, i: Item, e: nat)
  {
    var v := p + |i.before|;
    At(s, p, i.before) && At(s, v, Text(i.tree)) && At(s, v + |Text(i.tree)|, i.after)
    && e == v + |Text(i.tree)| + |i.after|
  }

  lemma ItemSplit(s: Bytes, p: nat, i: Item)
    ensures At(s, p, ItemText(i)) <==> ItemSpan(s, p, i, p + |ItemText(i)|)
    ensures |ItemText(i)| == |i.before| + |Text(i.tree)| + |i.after|
  {
    AtSplit(s, p, i.before + Text(i.tree), i.after);
    AtSplit(s, p, i.before, Text(i.tree));
  }

  /** A key with its colon, from p to e. */
  predicate KeySpan(s: Bytes, p: nat, f: Field, e: nat)
  {
    var k := p + |f.before|;
    var c := k + 1 + |CharsText(f.key)|;
    At(s, p, f.before) && At(s, k, [QUOTE]) && At(s, k + 1, CharsText(f.key)) && At(s, c, f.mid)
    && At(s, c + |f.mid|, [COLON]) && e == c + |f.mid| + 1
  }

  lemma FieldSplit(s: Bytes, p: nat, f: Field)
    ensures At(s, p, FieldText(f)) <==>
            KeySpan(s, p, f, p + |f.before| + 1 + |CharsText(f.key)| + |f.mid| + 1)
            && At(s, p + |f.before| + 1 + |CharsText(f.key)| + |f.mid| + 1, ItemText(f.value))
    ensures |FieldText(f)| == |f.before| + 1 + |CharsText(f.key)| + |f.mid| + 1 + |ItemText(f.value)|
  {
    AtSplit(s, p, f.before + [QUOTE] + CharsText(f.key) + f.mid + [COLON], ItemText(f.value));
    AtSplit(s, p, f.before + [QUOTE] + CharsText(f.key) + f.mid, [COLON]);
    AtSplit(s, p, f.before + [QUOTE] + CharsText(f.key), f.mid);
    AtSplit(s, p, f.before + [QUOTE], CharsText(f.key));
    AtSplit(s, p, f.before, [QUOTE]);
  }

  /** What follows the first of them. */
  predicate ItemsRest(s: Bytes, d: nat, items: seq<Item>)
    requires items != []
  {
    d < |s| && if |items| == 1 then s[d] == CLOSE_ARRAY else s[d] == COMMA && At(s, d + 1, ItemsText(items[1..]))
  }

  lemma ItemsSplit(s: Bytes, p: nat, items: seq<Item>)
    requires items != []
    ensures var d := p + |ItemText(items[0])|;
      && (At(s, p, ItemsText(items)) <==> At(s, p, ItemText(items[0])) && ItemsRest(s, d, items))
      && p + |ItemsText(items)| == (if |items| == 1 then d + 1 else d + 1 + |ItemsText(items[1..])|)
  {
    var d := p + |ItemText(items[0])|;
    if |items| == 1 {
      AtSplit(s, p, ItemText(items[0]), [CLOSE_ARRAY]);
      AtOne(s, d, CLOSE_ARRAY);
    } else {
      AtSplit(s, p, ItemText(items[0]), [COMMA] + ItemsText(items[1..]));
      AtSplit(s, d, [COMMA], ItemsText(items[1..]));
      AtOne(s, d, COMMA);
    }
  }

  /** What follows the first of them. */
  predicate FieldsRest(s: Bytes, d: nat, fields: seq<Field>)
    requires fields != []
  {
    d < |s| && if |fields| == 1 then s[d] == CLOSE_OBJECT else s[d] == COMMA && At(s, d + 1, FieldsText(fields[1..]))
  }

  lemma FieldsSplit(s: Bytes, p: nat, fields: seq<Field>)
    requires fields != []
    ensures var d := p + |FieldText(fields[0])|;
      && (At(s, p, FieldsText(fields)) <==> At(s, p, FieldText(fields[0])) && FieldsRest(s, d, fields))
      && p + |FieldsText(fields)| == (if |fields| == 1 then d + 1 else d + 1 + |FieldsText(fields[1..])|)
  {
    var d := p + |FieldText(fields[0])|;
    if |fields| == 1 {
      AtSplit(s, p, FieldText(fields[0]), [CLOSE_OBJECT]);
      AtOne(s, d, CLOSE_OBJECT);
    } else {
      AtSplit(s, p, FieldText(fields[0]), [COMMA] + FieldsText(fields[1..]));
      AtSplit(s, d, [COMMA], FieldsText(fields[1..]));
      AtOne(s, d, COMMA);
    }
  }

  /** A value text starts with something that is no space; where it starts decides what it is. */
  lemma FirstByte(s: Bytes, p: nat, t: Tree)
    requires At(s, p, Text(t)) && TreeOk(t)
    ensures p < |s| && !IsSpace(s[p])
    ensures t.ArrayT? <==> s[p] == OPEN_ARRAY
    ensures t.ObjectT? <==> s[p] == OPEN_OBJECT
    ensures t.StringT? <==> s[p] == QUOTE
    ensures t.NumberT? <==> s[p] == MINUS || IsDigit(s[p])
    ensures t.NullT? <==> s[p] == 0x6e
    ensures t.BooleanT? <==> s[p] == 0x74 || s[p] == 0x66
    ensures t.BooleanT? ==> (t.boolean <==> s[p] == 0x74)
  {
    match t
    case NumberT(text) => NumberFirst(text);
    case StringT(cs) => AtSplit(s, p, [QUOTE], CharsText(cs)); AtOne(s, p, QUOTE);
    case ArrayT(gap, items) =>
      AtSplit(s, p, [OPEN_ARRAY], if items == [] then gap + [CLOSE_ARRAY] else ItemsText(items));
      AtOne(s, p, OPEN_ARRAY);
    case ObjectT(gap, fields) =>
      AtSplit(s, p, [OPEN_OBJECT], if fields == [] then gap + [CLOSE_OBJECT] else FieldsText(fields));
      AtOne(s, p, OPEN_OBJECT);
    case NullT =>
    case BooleanT(b) =>
  }

  lemma NumberFirst(text: Bytes)
    requires IsNumber(text)
    ensures text != [] && (text[0] == MINUS || IsDigit(text[0]))
  {
    var n :| NumeralOk(n) && NumeralText(n) == text;
    if n.sign != [] { assert text[0] == n.sign[0]; } else { assert text == n.whole + (n.frac + n.exp); }
  }

  // ----- soundness

  /** What a value text between p and e says about the reader's answer there. */
  ghost predicate ValueFound(s: Bytes, p: nat, gap: Bytes, t: Tree, depth: nat, inRange: Bytes -> bool)
  {
    && Spaces(gap) && At(s, p, gap) && TreeOk(t) && At(s, p + |gap|, Text(t)) && Within(t, depth, inRange)
    && p <= |s| && ValueAt(s, p, depth, inRange) == Done(Meaning(t), p + |gap| + |Text(t)|)
  }

  lemma GapSound(s: Bytes, p: nat) returns (gap: Bytes)
    requires p <= |s|
    ensures Spaces(gap) && At(s, p, gap) && SkipSpace(s, p) == p + |gap|
  {
    gap := s[p..SkipSpace(s, p)];
    SkipsOnlySpaces(s, p);
    AtSlice(s, p, gap);
  }

  /** Whatever the reader accepts is a text of the grammar within the limits, and it returns its meaning. */
  lemma {:induction false} ValueSound(s: Bytes, p: nat, depth: nat, inRange: Bytes -> bool) returns (gap: Bytes,
          t: Tree)
    requires p <= |s| && ValueAt(s, p, depth, inRange).Done?
    ensures ValueFound(s, p, gap, t, depth, inRange)
    decreases |s| - p, 1
  {
    hide At, Spaces, SkipSpace, CharsAt, CharsText, CharsValue, CharsOk, ArrayAt, ObjectAt, Text, TreeOk, Within,
      Meaning, NumberAt;
    gap := GapSound(s, p);
    var q := SkipSpace(s, p);
    if s[q] == OPEN_OBJECT {
      t := ObjectSound(s, q, depth + 1, inRange);
    } else if s[q] == OPEN_ARRAY {
      t := ArraySound(s, q, depth + 1, inRange);
    } else {
      t := ScalarSound(s, p, depth, inRange);
    }
  }

  lemma StringSound(s: Bytes, p: nat) returns (cs: seq<Char>)
    requires p < |s| && s[p] == QUOTE && CharsAt(s, p + 1, []).Done?
    ensures CharsOk(cs) && |CharsValue(cs)| <= MAXIMUM_JSON_STRING
    ensures At(s, p, [QUOTE]) && At(s, p + 1, CharsText(cs)) && At(s, p, [QUOTE] + CharsText(cs))
    ensures CharsAt(s, p + 1, []) == Done(CharsValue(cs), p + 1 + |CharsText(cs)|)
  {
    cs := CharsSound(s, p + 1, []);
    AtOne(s, p, QUOTE);
    AtSplit(s, p, [QUOTE], CharsText(cs));
    assert [] + CharsValue(cs) == CharsValue(cs);
  }

  lemma ScalarSound(s: Bytes, p: nat, depth: nat, inRange: Bytes -> bool) returns (t: Tree)
    requires p <= |s| && ValueAt(s, p, depth, inRange).Done?
    requires s[SkipSpace(s, p)] != OPEN_OBJECT && s[SkipSpace(s, p)] != OPEN_ARRAY
    ensures var q := SkipSpace(s, p);
      TreeOk(t) && At(s, q, Text(t)) && Within(t, depth, inRange)
      && ValueAt(s, p, depth, inRange) == Done(Meaning(t), q + |Text(t)|)
  {
    hide At, Spaces, SkipSpace, CharsAt, CharsText, CharsValue, CharsOk, ArrayAt, ObjectAt, NumberAt;
    var q := SkipSpace(s, p);
    if s[q] == QUOTE {
      var cs := StringSound(s, q);
      t := StringT(cs);
    } else if At(s, q, TRUE) {
      t := BooleanT(true);
    } else if At(s, q, FALSE) {
      t := BooleanT(false);
    } else if At(s, q, NULL) {
      t := NullT;
    } else {
      NumberSound(s, q, inRange);
      t := NumberT(NumberAt(s, q, inRange).value);
    }
  }

  lemma {:induction false} ArraySound(s: Bytes, p: nat, depth: nat, inRange: Bytes -> bool) returns (t: Tree)
    requires p < |s| && s[p] == OPEN_ARRAY && 1 <= depth <= MAXIMUM_JSON_DEPTH + 1
        && ArrayAt(s, p, depth, inRange).Done?
    ensures TreeOk(t) && At(s, p, Text(t)) && Within(t, depth - 1, inRange)
    ensures ArrayAt(s, p, depth, inRange) == Done(Meaning(t), p + |Text(t)|)
    decreases |s| - p, 0
  {
    hide At, SkipSpace, CharsAt, CharsText, CharsValue, CharsOk, ItemsAt, ItemsText, ItemsMeaning;
    var q := SkipSpace(s, p + 1);
    AtOne(s, p, OPEN_ARRAY);
    if q < |s| && s[q] == CLOSE_ARRAY {
      var gap := GapSound(s, p + 1);
      t := ArrayT(gap, []);
      AtOne(s, q, CLOSE_ARRAY);
      AtSplit(s, p + 1, gap, [CLOSE_ARRAY]);
      AtSplit(s, p, [OPEN_ARRAY], gap + [CLOSE_ARRAY]);
    } else {
      var items := ItemsSound(s, p + 1, depth, [], inRange);
      assert [] + ItemsMeaning(items) == ItemsMeaning(items);
      t := ArrayT([], items);
      AtSplit(s, p, [OPEN_ARRAY], ItemsText(items));
    }
  }

  /** Good items within the limits. */
  ghost predicate GoodItems(items: seq<Item>, depth: nat, inRange: Bytes -> bool)
  {
    forall i :: 0 <= i < |items| ==> ItemOk(items[i]) && Within(items[i].tree, depth, inRange)
  }

  lemma ConsItems(i: Item, items: seq<Item>, depth: nat, inRange: Bytes -> bool)
    requires ItemOk(i) && Within(i.tree, depth, inRange) && GoodItems(items, depth, inRange)
    ensures GoodItems([i] + items, depth, inRange)
    ensures ([i] + items)[1..] == items && ItemsMeaning([i] + items) == [Meaning(i.tree)] + ItemsMeaning(items)
  {
    assert ([i] + items)[1..] == items;
  }

  /** How the reader goes on after an item. */
  lemma ItemsAtIs(s: Bytes, p: nat, depth: nat, acc: seq<Json>, d: nat, inRange: Bytes -> bool)
    requires p <= |s| && |acc| < MAXIMUM_VECTOR_ITEMS && ValueAt(s, p, depth, inRange).Done?
    requires SkipSpace(s, ValueAt(s, p, depth, inRange).next) == d < |s|
    ensures var acc' := acc + [ValueAt(s, p, depth, inRange).value];
      ItemsAt(s, p, depth, acc, inRange) ==
      if s[d] == CLOSE_ARRAY then Done(acc', d + 1)
      else if s[d] == COMMA then ItemsAt(s, d + 1, depth, acc', inRange)
      else Failed
  {
    hide At, Spaces, SkipSpace, CharsAt, CharsText, CharsValue, CharsOk, ValueAt;
  }

  lemma ItemsAtStarts(s: Bytes, p: nat, depth: nat, acc: seq<Json>, inRange: Bytes -> bool)
    requires p <= |s| && ItemsAt(s, p, depth, acc, inRange).Done?
    ensures |acc| < MAXIMUM_VECTOR_ITEMS && ValueAt(s, p, depth, inRange).Done?
    ensures SkipSpace(s, ValueAt(s, p, depth, inRange).next) < |s|
  {
    hide At, Spaces, SkipSpace, CharsAt, CharsText, CharsValue, CharsOk, ValueAt;
  }

  lemma FieldsAtStarts(s: Bytes, p: nat, depth: nat, acc: seq<Member>, inRange: Bytes -> bool)
    requires p <= |s| && FieldsAt(s, p, depth, acc, inRange).Done?
    ensures KeyAt(s, p).Done? && ValueAt(s, KeyAt(s, p).next, depth, inRange).Done?
    ensures SkipSpace(s, ValueAt(s, KeyAt(s, p).next, depth, inRange).next) < |s|
  {
    hide At, Spaces, SkipSpace, CharsAt, CharsText, CharsValue, CharsOk, ValueAt, KeyAt, Emplaced, HasKey;
  }

  /** How it goes on after a field. */
  lemma FieldsAtIs(s: Bytes, p: nat, depth: nat, acc: seq<Member>, d: nat, inRange: Bytes -> bool)
    requires p <= |s| && KeyAt(s, p).Done? && ValueAt(s, KeyAt(s, p).next, depth, inRange).Done?
    requires SkipSpace(s, ValueAt(s, KeyAt(s, p).next, depth, inRange).next) == d < |s|
    ensures var m := Member(KeyAt(s, p).value, ValueAt(s, KeyAt(s, p).next, depth, inRange).value);
      FieldsAt(s, p, depth, acc, inRange) ==
      if HasKey(acc, m.key) then Failed
      else if s[d] == CLOSE_OBJECT then Done(Emplaced(acc, m), d + 1)
      else if s[d] == COMMA then FieldsAt(s, d + 1, depth, Emplaced(acc, m), inRange)
      else Failed
  {
    hide At, Spaces, SkipSpace, CharsAt, CharsText, CharsValue, CharsOk, ValueAt, KeyAt, Emplaced, HasKey;
  }

  /** One item, and where the reader stops after it. */
  lemma {:induction false} ItemSound(s: Bytes, p: nat, depth: nat, inRange: Bytes -> bool) returns (i: Item)
    requires p <= |s| && ValueAt(s, p, depth, inRange).Done?
    ensures ItemOk(i) && Within(i.tree, depth, inRange) && At(s, p, ItemText(i))
    ensures ValueAt(s, p, depth, inRange).value == Meaning(i.tree)
    ensures SkipSpace(s, ValueAt(s, p, depth, inRange).next) == p + |ItemText(i)|
    decreases |s| - p, 2
  {
    hide At, Spaces, SkipSpace, CharsAt, CharsText, CharsValue, CharsOk, Text, TreeOk, Within, Meaning, ValueAt;
    var before, t := ValueSound(s, p, depth, inRange);
    var after := GapSound(s, ValueAt(s, p, depth, inRange).next);
    i := Item(before, t, after);
    ItemSplit(s, p, i);
  }

  lemma {:induction false} ItemsSound(s: Bytes, p: nat, depth: nat, acc: seq<Json>, inRange: Bytes -> bool)
    returns (items: seq<Item>)
    requires p <= |s| && ItemsAt(s, p, depth, acc, inRange).Done?
    ensures items != [] && GoodItems(items, depth, inRange) && |acc| + |items| <= MAXIMUM_VECTOR_ITEMS
    ensures At(s, p, ItemsText(items))
    ensures ItemsAt(s, p, depth, acc, inRange) == Done(acc + ItemsMeaning(items), p + |ItemsText(items)|)
    decreases |s| - p, 3
  {
    hide At, Spaces, SkipSpace, CharsAt, CharsText, CharsValue, CharsOk, Text, TreeOk, Within, ValueAt, ItemsAt,
      ItemText, ItemsText, Meaning;
    ItemsAtStarts(s, p, depth, acc, inRange);
    var i := ItemSound(s, p, depth, inRange);
    var v := Meaning(i.tree);
    var d := p + |ItemText(i)|;
    ItemsAtIs(s, p, depth, acc, d, inRange);
    if s[d] == CLOSE_ARRAY {
      items := [i];
      ConsItems(i, [], depth, inRange);
      assert [i] + [] == [i] && [v] + [] == [v];
    } else {
      var rest := ItemsSound(s, d + 1, depth, acc + [v], inRange);
      items := [i] + rest;
      ConsItems(i, rest, depth, inRange);
      assert acc + [v] + ItemsMeaning(rest) == acc + ([v] + ItemsMeaning(rest));
    }
    ItemsSplit(s, p, items);
  }

  lemma {:induction false} ObjectSound(s: Bytes, p: nat, depth: nat, inRange: Bytes -> bool) returns (t: Tree)
    requires p < |s| && s[p] == OPEN_OBJECT && 1 <= depth <= MAXIMUM_JSON_DEPTH + 1
        && ObjectAt(s, p, depth, inRange).Done?
    ensures TreeOk(t) && At(s, p, Text(t)) && Within(t, depth - 1, inRange)
    ensures ObjectAt(s, p, depth, inRange) == Done(Meaning(t), p + |Text(t)|)
    decreases |s| - p, 0
  {
    hide At, SkipSpace, CharsAt, CharsText, CharsValue, CharsOk, FieldsAt, FieldsText;
    var q := SkipSpace(s, p + 1);
    AtOne(s, p, OPEN_OBJECT);
    if q < |s| && s[q] == CLOSE_OBJECT {
      var gap := GapSound(s, p + 1);
      t := ObjectT(gap, []);
      AtOne(s, q, CLOSE_OBJECT);
      AtSplit(s, p + 1, gap, [CLOSE_OBJECT]);
      AtSplit(s, p, [OPEN_OBJECT], gap + [CLOSE_OBJECT]);
    } else {
      var fields := FieldsSound(s, p + 1, depth, [], inRange);
      t := ObjectT([], fields);
      AtSplit(s, p, [OPEN_OBJECT], FieldsText(fields));
    }
  }

  ghost predicate GoodFields(fields: seq<Field>, depth: nat, inRange: Bytes -> bool)
  {
    forall i :: 0 <= i < |fields| ==> FieldOk(fields[i]) && FieldWithin(fields[i], depth, inRange)
  }

  lemma ConsFields(f: Field, fields: seq<Field>, acc: seq<Member>, depth: nat, inRange: Bytes -> bool)
    requires FieldOk(f) && FieldWithin(f, depth, inRange) && GoodFields(fields, depth, inRange)
    requires !HasKey(acc, CharsValue(f.key)) && FreshKeys(fields, Emplaced(acc, FieldMeaning(f)))
    ensures GoodFields([f] + fields, depth, inRange) && FreshKeys([f] + fields, acc)
    ensures ([f] + fields)[1..] == fields
    ensures Gathered([f] + fields, acc) == Gathered(fields, Emplaced(acc, FieldMeaning(f)))
  {
    assert ([f] + fields)[1..] == fields;
    FreshTail([f] + fields, acc);
  }

  /** A key with its colon. */
  lemma KeySound(s: Bytes, p: nat, value: Item) returns (f: Field)
    requires p <= |s| && KeyAt(s, p).Done?
    ensures Spaces(f.before) && CharsOk(f.key) && Spaces(f.mid) && f.value == value
    ensures KeySpan(s, p, f, KeyAt(s, p).next) && |CharsValue(f.key)| <= MAXIMUM_JSON_STRING
    ensures KeyAt(s, p).value == CharsValue(f.key)
  {
    hide At, Spaces, SkipSpace, CharsAt, CharsText, CharsValue, CharsOk;
    var before := GapSound(s, p);
    var k := p + |before|;
    var cs := StringSound(s, k);
    var c := k + 1 + |CharsText(cs)|;
    var mid := GapSound(s, c);
    AtOne(s, c + |mid|, COLON);
    f := Field(before, cs, mid, value);
  }

  lemma {:induction false} FieldSound(s: Bytes, p: nat, depth: nat, inRange: Bytes -> bool) returns (f: Field)
    requires p <= |s| && KeyAt(s, p).Done? && ValueAt(s, KeyAt(s, p).next, depth, inRange).Done?
    ensures FieldOk(f) && FieldWithin(f, depth, inRange) && At(s, p, FieldText(f))
    ensures FieldMeaning(f) == Member(KeyAt(s, p).value, ValueAt(s, KeyAt(s, p).next, depth, inRange).value)
    ensures SkipSpace(s, ValueAt(s, KeyAt(s, p).next, depth, inRange).next) == p + |FieldText(f)|
    decreases |s| - p, 2
  {
    hide At, Spaces, SkipSpace, CharsAt, CharsText, CharsValue, CharsOk, Text, TreeOk, Within, Meaning, ValueAt,
      KeyAt, FieldText, ItemText;
    var i := ItemSound(s, KeyAt(s, p).next, depth, inRange);
    f := KeySound(s, p, i);
    FieldSplit(s, p, f);
  }

  lemma {:induction false} FieldsSound(s: Bytes, p: nat, depth: nat, acc: seq<Member>, inRange: Bytes -> bool)
    returns (fields: seq<Field>)
    requires p <= |s| && FieldsAt(s, p, depth, acc, inRange).Done?
    ensures fields != [] && GoodFields(fields, depth, inRange) && FreshKeys(fields, acc)
    ensures At(s, p, FieldsText(fields))
    ensures FieldsAt(s, p, depth, acc, inRange) == Done(Gathered(fields, acc), p + |FieldsText(fields)|)
    decreases |s| - p, 3
  {
    hide At, Spaces, SkipSpace, CharsAt, CharsText, CharsValue, CharsOk, Text, TreeOk, Within, ValueAt, KeyAt,
      FieldsAt, FieldText, FieldsText, Meaning, Emplaced, HasKey;
    FieldsAtStarts(s, p, depth, acc, inRange);
    var f := FieldSound(s, p, depth, inRange);
    var acc' := Emplaced(acc, FieldMeaning(f));
    var d := p + |FieldText(f)|;
    FieldsAtIs(s, p, depth, acc, d, inRange);
    if s[d] == CLOSE_OBJECT {
      fields := [f];
      ConsFields(f, [], acc, depth, inRange);
      assert [f] + [] == [f];
    } else {
      var rest := FieldsSound(s, d + 1, depth, acc', inRange);
      fields := [f] + rest;
      ConsFields(f, rest, acc, depth, inRange);
    }
    FieldsSplit(s, p, fields);
  }

  // ----- completeness

  /** A value ends here: nothing follows, or what may follow a value does. */
  predicate Delimited(s: Bytes, p: nat)
  {
    p >= |s| || IsSpace(s[p]) || s[p] == COMMA || s[p] == CLOSE_ARRAY || s[p] == CLOSE_OBJECT
  }

  /** The reader takes every value text of the grammar that is within its limits. */
  lemma {:induction false} ValueComplete(s: Bytes, p: nat, gap: Bytes, t: Tree, depth: nat, inRange: Bytes -> bool)
    requires Spaces(gap) && At(s, p, gap) && TreeOk(t) && At(s, p + |gap|, Text(t)) && Within(t, depth, inRange)
    requires Delimited(s, p + |gap| + |Text(t)|)
    ensures p <= |s| && ValueAt(s, p, depth, inRange) == Done(Meaning(t), p + |gap| + |Text(t)|)
    decreases t, 2
  {
    hide Spaces, SkipSpace, CharsAt, CharsText, CharsValue, CharsOk, IsNumber, IsDigit, ArrayAt, ObjectAt,
      NumberAt, ItemsText, FieldsText;
    var q := p + |gap|;
    FirstByte(s, q, t);
    SkipsAll(s, p, gap);
    if t.NullT? || t.BooleanT? {
      LiteralComplete(s, p, gap, t, depth, inRange);
      return;
    }
    hide At;
    match t
    case ArrayT(inner, items) => ArrayComplete(s, q, t, depth + 1, inRange);
    case ObjectT(inner, fields) => ObjectComplete(s, q, t, depth + 1, inRange);
    case StringT(cs) =>
      AtSplit(s, q, [QUOTE], CharsText(cs));
      StringComplete(s, q, cs);
    case NumberT(text) => NumberTextComplete(s, q, text, inRange);
  }

  lemma LiteralComplete(s: Bytes, p: nat, gap: Bytes, t: Tree, depth: nat, inRange: Bytes -> bool)
    requires Spaces(gap) && At(s, p, gap) && (t.NullT? || t.BooleanT?) && At(s, p + |gap|, Text(t))
    requires depth <= MAXIMUM_JSON_DEPTH && p <= |s| && SkipSpace(s, p) == p + |gap| < |s|
    ensures ValueAt(s, p, depth, inRange) == Done(Meaning(t), p + |gap| + |Text(t)|)
  {
    hide Spaces, SkipSpace, CharsAt, IsNumber, IsDigit, ArrayAt, ObjectAt, NumberAt;
  }

  lemma NumberTextComplete(s: Bytes, p: nat, text: Bytes, inRange: Bytes -> bool)
    requires IsNumber(text) && inRange(text) && At(s, p, text) && Delimited(s, p + |text|)
    ensures p < |s| && NumberAt(s, p, inRange) == Done(text, p + |text|)
  {
    var n :| NumeralOk(n) && NumeralText(n) == text;
    NumberComplete(s, p, n, inRange);
  }

  lemma StringComplete(s: Bytes, p: nat, cs: seq<Char>)
    requires CharsOk(cs) && At(s, p + 1, CharsText(cs)) && |CharsValue(cs)| <= MAXIMUM_JSON_STRING
    ensures CharsAt(s, p + 1, []) == Done(CharsValue(cs), p + 1 + |CharsText(cs)|)
  {
    CharsComplete(s, p + 1, [], cs);
    assert [] + CharsValue(cs) == CharsValue(cs);
  }

  lemma {:induction false} ArrayComplete(s: Bytes, p: nat, t: Tree, depth: nat, inRange: Bytes -> bool)
    requires t.ArrayT? && TreeOk(t) && At(s, p, Text(t)) && 1 <= depth && Within(t, depth - 1, inRange)
    ensures p < |s| && ArrayAt(s, p, depth, inRange) == Done(Meaning(t), p + |Text(t)|)
    decreases t, 1
  {
    hide At, Spaces, SkipSpace, CharsAt, CharsText, CharsValue, CharsOk, ItemsAt, ItemsText;
    FirstByte(s, p, t);
    if t.items == [] {
      AtSplit(s, p, [OPEN_ARRAY], t.gap + [CLOSE_ARRAY]);
      AtSplit(s, p + 1, t.gap, [CLOSE_ARRAY]);
      AtOne(s, p + 1 + |t.gap|, CLOSE_ARRAY);
      SkipsAll(s, p + 1, t.gap);
    } else {
      AtSplit(s, p, [OPEN_ARRAY], ItemsText(t.items));
      ItemsComplete(s, p + 1, t.items, depth, [], inRange);
      NoBracketFirst(s, p + 1, t.items);
      assert [] + ItemsMeaning(t.items) == ItemsMeaning(t.items);
    }
  }

  lemma NoBracketFirst(s: Bytes, p: nat, items: seq<Item>)
    requires items != [] && ItemOk(items[0]) && At(s, p, ItemsText(items))
    ensures p <= |s| && SkipSpace(s, p) < |s| && s[SkipSpace(s, p)] != CLOSE_ARRAY
  {
    ItemsSplit(s, p, items);
    ItemSplit(s, p, items[0]);
    FirstByte(s, p + |items[0].before|, items[0].tree);
    SkipsAll(s, p, items[0].before);
  }

  lemma AfterDelimits(s: Bytes, e: nat, after: Bytes)
    requires At(s, e, after) && Spaces(after) && Delimited(s, e + |after|)
    ensures Delimited(s, e)
  {
  }

  lemma {:induction false} ItemComplete(s: Bytes, p: nat, i: Item, depth: nat, inRange: Bytes -> bool)
    requires ItemOk(i) && Within(i.tree, depth, inRange) && At(s, p, ItemText(i))
    requires p + |ItemText(i)| < |s| && !IsSpace(s[p + |ItemText(i)|]) && Delimited(s, p + |ItemText(i)|)
    ensures p <= |s| && ValueAt(s, p, depth, inRange).Done?
    ensures ValueAt(s, p, depth, inRange).value == Meaning(i.tree)
    ensures SkipSpace(s, ValueAt(s, p, depth, inRange).next) == p + |ItemText(i)|
    decreases i, 3
  {
    hide At, Spaces, SkipSpace, CharsAt, CharsText, CharsValue, CharsOk, Text, TreeOk, Within, Meaning, ValueAt;
    ItemSplit(s, p, i);
    var e := p + |i.before| + |Text(i.tree)|;
    AfterDelimits(s, e, i.after);
    SkipsAll(s, e, i.after);
    ValueComplete(s, p, i.before, i.tree, depth, inRange);
  }

  lemma {:induction false} ItemsComplete(s: Bytes, p: nat, items: seq<Item>, depth: nat, acc: seq<Json>,
          inRange: Bytes -> bool)
    requires items != [] && GoodItems(items, depth, inRange) && |acc| + |items| <= MAXIMUM_VECTOR_ITEMS
    requires At(s, p, ItemsText(items))
    ensures p <= |s|
    ensures ItemsAt(s, p, depth, acc, inRange) == Done(acc + ItemsMeaning(items), p + |ItemsText(items)|)
    decreases items, 4
  {
    hide At, Spaces, SkipSpace, CharsAt, CharsText, CharsValue, CharsOk, Text, TreeOk, ValueAt, ItemsAt, ItemText,
      ItemsText, Meaning;
    ItemsSplit(s, p, items);
    ItemComplete(s, p, items[0], depth, inRange);
    var v := Meaning(items[0].tree);
    ItemsAtIs(s, p, depth, acc, p + |ItemText(items[0])|, inRange);
    if |items| == 1 {
      assert ItemsMeaning(items) == [v];
    } else {
      ItemsComplete(s, p + |ItemText(items[0])| + 1, items[1..], depth, acc + [v], inRange);
      assert acc + [v] + ItemsMeaning(items[1..]) == acc + ([v] + ItemsMeaning(items[1..]));
    }
  }

  lemma {:induction false} ObjectComplete(s: Bytes, p: nat, t: Tree, depth: nat, inRange: Bytes -> bool)
    requires t.ObjectT? && TreeOk(t) && At(s, p, Text(t)) && 1 <= depth && Within(t, depth - 1, inRange)
    ensures p < |s| && ObjectAt(s, p, depth, inRange) == Done(Meaning(t), p + |Text(t)|)
    decreases t, 1
  {
    hide At, Spaces, SkipSpace, CharsAt, CharsText, CharsValue, CharsOk, FieldsAt, FieldsText;
    FirstByte(s, p, t);
    if t.fields == [] {
      AtSplit(s, p, [OPEN_OBJECT], t.gap + [CLOSE_OBJECT]);
      AtSplit(s, p + 1, t.gap, [CLOSE_OBJECT]);
      AtOne(s, p + 1 + |t.gap|, CLOSE_OBJECT);
      SkipsAll(s, p + 1, t.gap);
    } else {
      AtSplit(s, p, [OPEN_OBJECT], FieldsText(t.fields));
      FieldsComplete(s, p + 1, t.fields, depth, [], inRange);
      NoBraceFirst(s, p + 1, t.fields);
    }
  }

  lemma NoBraceFirst(s: Bytes, p: nat, fields: seq<Field>)
    requires fields != [] && FieldOk(fields[0]) && At(s, p, FieldsText(fields))
    ensures p <= |s| && SkipSpace(s, p) < |s| && s[SkipSpace(s, p)] != CLOSE_OBJECT
  {
    FieldsSplit(s, p, fields);
    FieldSplit(s, p, fields[0]);
    AtOne(s, p + |fields[0].before|, QUOTE);
    SkipsAll(s, p, fields[0].before);
  }

  lemma KeyComplete(s: Bytes, p: nat, f: Field, e: nat)
    requires Spaces(f.before) && CharsOk(f.key) && Spaces(f.mid) && |CharsValue(f.key)| <= MAXIMUM_JSON_STRING
    requires KeySpan(s, p, f, e)
    ensures p <= |s| && KeyAt(s, p) == Done(CharsValue(f.key), e)
  {
    hide At, Spaces, SkipSpace, CharsAt, CharsText, CharsValue, CharsOk;
    var k := p + |f.before|;
    AtOne(s, k, QUOTE);
    SkipsAll(s, p, f.before);
    StringComplete(s, k, f.key);
    AtOne(s, e - 1, COLON);
    SkipsAll(s, k + 1 + |CharsText(f.key)|, f.mid);
  }

  lemma {:induction false} FieldComplete(s: Bytes, p: nat, f: Field, depth: nat, inRange: Bytes -> bool)
    requires FieldOk(f) && FieldWithin(f, depth, inRange) && At(s, p, FieldText(f))
    requires p + |FieldText(f)| < |s| && !IsSpace(s[p + |FieldText(f)|]) && Delimited(s, p + |FieldText(f)|)
    ensures p <= |s| && KeyAt(s, p).Done? && KeyAt(s, p).value == CharsValue(f.key)
    ensures ValueAt(s, KeyAt(s, p).next, depth, inRange).Done?
    ensures ValueAt(s, KeyAt(s, p).next, depth, inRange).value == Meaning(f.value.tree)
    ensures SkipSpace(s, ValueAt(s, KeyAt(s, p).next, depth, inRange).next) == p + |FieldText(f)|
    decreases f, 4
  {
    hide At, Spaces, SkipSpace, CharsAt, CharsText, CharsValue, CharsOk, Text, TreeOk, Within, Meaning, ValueAt,
      KeyAt, KeySpan, FieldText, ItemText;
    FieldSplit(s, p, f);
    var e := p + |f.before| + 1 + |CharsText(f.key)| + |f.mid| + 1;
    KeyComplete(s, p, f, e);
    ItemComplete(s, e, f.value, depth, inRange);
  }

  lemma {:induction false} FieldsComplete(s: Bytes, p: nat, fields: seq<Field>, depth: nat, acc: seq<Member>,
          inRange: Bytes -> bool)
    requires fields != [] && GoodFields(fields, depth, inRange) && FreshKeys(fields, acc)
    requires At(s, p, FieldsText(fields))
    ensures p <= |s|
    ensures FieldsAt(s, p, depth, acc, inRange) == Done(Gathered(fields, acc), p + |FieldsText(fields)|)
    decreases fields, 5
  {
    hide At, Spaces, SkipSpace, CharsAt, CharsText, CharsValue, CharsOk, Text, TreeOk, ValueAt, KeyAt, FieldsAt,
      FieldText, FieldsText, Meaning, Emplaced, HasKey;
    FieldsSplit(s, p, fields);
    FieldComplete(s, p, fields[0], depth, inRange);
    FreshTail(fields, acc);
    FieldsAtIs(s, p, depth, acc, p + |FieldText(fields[0])|, inRange);
    var acc' := Emplaced(acc, FieldMeaning(fields[0]));
    if |fields| == 1 {
      assert fields[1..] == [];
    } else {
      FieldsComplete(s, p + |FieldText(fields[0])| + 1, fields[1..], depth, acc', inRange);
    }
  }
}
