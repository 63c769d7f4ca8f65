/** Reader and canonical printer undo each other. */
module JsonTheorems {
  import opened Utf8
  import opened JsonGrammar
  import opened JsonReader
  import opened JsonLexis
  import opened JsonExact
  import opened JsonPrinter

  // ----- the order of keys

  lemma {:induction false} LessIrreflexive(a: Bytes)
    ensures !Less(a, a)
  {
    if a != [] { LessIrreflexive(a[1..]); }
  }

  lemma {:induction false} LessTransitive(a: Bytes, b: Bytes, c: Bytes)
    requires Less(a, b) && Less(b, c)
    ensures Less(a, c)
  {
    if a != [] && a[0] == b[0] == c[0] { LessTransitive(a[1..], b[1..], c[1..]); }
  }

  lemma {:induction false} LessTotal(a: Bytes, b: Bytes)
    ensures Less(a, b) || a == b || Less(b, a)
  {
    if a != [] && b != [] && a[0] == b[0] {
      LessTotal(a[1..], b[1..]);
      assert a == [a[0]] + a[1..] && b == [b[0]] + b[1..];
    }
  }

  lemma SortedCons(m: Member, ms: seq<Member>)
    ensures Sorted([m] + ms) <==> Sorted(ms) && forall i :: 0 <= i < |ms| ==> Less(m.key, ms[i].key)
  {
    hide Less;
    var all := [m] + ms;
    if Sorted(all) {
      forall i | 0 <= i < |ms| ensures Less(m.key, ms[i].key) { assert all[0] == m && all[i + 1] == ms[i]; }
      forall i, j | 0 <= i < j < |ms| ensures Less(ms[i].key, ms[j].key) {
        assert all[i + 1] == ms[i] && all[j + 1] == ms[j];
      }
    }
    if Sorted(ms) && forall i :: 0 <= i < |ms| ==> Less(m.key, ms[i].key) {
      forall i, j | 0 <= i < j < |all| ensures Less(all[i].key, all[j].key) {
        assert all[j] == ms[j - 1];
        if i > 0 { assert all[i] == ms[i - 1]; }
      }
    }
  }

  /** Emplacing keeps an ordered map ordered, adds the member if its key is new, and disturbs nothing. */
  lemma {:induction false} EmplacedIsMap(ms: seq<Member>, m: Member)
    requires Sorted(ms)
    ensures Sorted(Emplaced(ms, m))
    ensures forall x :: x in Emplaced(ms, m) <==> x in ms || (x == m && !HasKey(ms, m.key))
  {
    hide Less;
    if ms == [] {
    } else if Less(m.key, ms[0].key) {
      InFront(m, ms);
    } else if m.key == ms[0].key {
      assert HasKey(ms, m.key);
    } else {
      var rest := ms[1..];
      assert ms == [ms[0]] + rest;
      SortedCons(ms[0], rest);
      EmplacedIsMap(rest, m);
      HasKeyCons(ms[0], rest, m.key);
      LessTotal(m.key, ms[0].key);
      var r := Emplaced(rest, m);
      forall i | 0 <= i < |r| ensures Less(ms[0].key, r[i].key) { assert r[i] in r; }
      SortedCons(ms[0], r);
    }
  }

  lemma InFront(m: Member, ms: seq<Member>)
    requires Sorted(ms) && ms != [] && Less(m.key, ms[0].key)
    ensures Sorted([m] + ms) && !HasKey(ms, m.key)
  {
    hide Less;
    forall i | 0 <= i < |ms| ensures Less(m.key, ms[i].key) && ms[i].key != m.key {
      if i > 0 { LessTransitive(m.key, ms[0].key, ms[i].key); }
      LessIrreflexive(m.key);
    }
    SortedCons(m, ms);
  }

  /** An ordered map is determined by its members. */
  lemma {:induction false} SortedUnique(a: seq<Member>, b: seq<Member>)
    requires Sorted(a) && Sorted(b) && forall x :: x in a <==> x in b
    ensures a == b
  {
    hide Less;
    if a == [] {
      assert forall i :: 0 <= i < |b| ==> b[i] in b;
    } else {
      assert a[0] in b;
      assert b[0] in a;
      assert a == [a[0]] + a[1..] && b == [b[0]] + b[1..];
      SortedCons(a[0], a[1..]);
      SortedCons(b[0], b[1..]);
      HeadsAgree(a, b);
      LessIrreflexive(a[0].key);
      forall x ensures x in a[1..] <==> x in b[1..] {
        assert x in a <==> x == a[0] || x in a[1..];
        assert x in b <==> x == b[0] || x in b[1..];
      }
      SortedUnique(a[1..], b[1..]);
    }
  }

  lemma HeadsAgree(a: seq<Member>, b: seq<Member>)
    requires Sorted(a) && Sorted(b) && a != [] && b != [] && a[0] in b && b[0] in a
    ensures a[0] == b[0]
  {
    hide Less;
    if a[0] != b[0] {
      var i :| 0 <= i < |b| && b[i] == a[0];
      var j :| 0 <= j < |a| && a[j] == b[0];
      assert Less(b[0].key, a[0].key) && Less(a[0].key, b[0].key);
      LessTransitive(a[0].key, b[0].key, a[0].key);
      LessIrreflexive(a[0].key);
    }
  }

  // ----- what the reader returns is storable

  ghost predicate StorableMembers(ms: seq<Member>, depth: nat, inRange: Bytes -> bool)
  {
    Sorted(ms) && forall x :: x in ms ==> StorableMember(x, depth, inRange)
  }

  /** Everything the reader returns is storable. */
  lemma {:induction false} MeaningStorable(t: Tree, depth: nat, inRange: Bytes -> bool)
    requires TreeOk(t) && Within(t, depth, inRange)
    ensures Storable(Meaning(t), depth, inRange)
    decreases t
  {
    hide Less, Sorted, IsNumber, CharsOk, CharsValue, CharsText, Spaces, HasKey, Utf8String, DistinctKeys;
    match t
    case StringT(cs) => CharsAreUtf8(cs);
    case ArrayT(gap, items) =>
      ItemsStorable(items, depth + 1, inRange);
    case ObjectT(gap, fields) =>
      NoMembers(depth + 1, inRange);
      FieldsStorable(fields, [], depth + 1, inRange);
    case NullT =>
    case BooleanT(b) =>
    case NumberT(text) =>
  }

  lemma NoMembers(depth: nat, inRange: Bytes -> bool)
    ensures StorableMembers([], depth, inRange)
  {
  }

  lemma {:induction false} ItemsStorable(items: seq<Item>, depth: nat, inRange: Bytes -> bool)
    requires GoodItems(items, depth, inRange)
    ensures forall i :: 0 <= i < |items| ==> Storable(ItemsMeaning(items)[i], depth, inRange)
    decreases items
  {
    hide Text, Spaces, Storable;
    if items != [] {
      assert ItemOk(items[0]) && TreeOk(items[0].tree);
      MeaningStorable(items[0].tree, depth, inRange);
      ItemsStorable(items[1..], depth, inRange);
    }
  }

  lemma {:induction false} FieldsStorable(fields: seq<Field>, acc: seq<Member>, depth: nat, inRange: Bytes -> bool)
    requires GoodFields(fields, depth, inRange) && StorableMembers(acc, depth, inRange)
    ensures StorableMembers(Gathered(fields, acc), depth, inRange)
    decreases fields
  {
    hide Text, Spaces, Storable, Less, Sorted, HasKey, CharsValue, CharsText, CharsOk, Utf8String;
    if fields != [] {
      var f := fields[0];
      assert FieldOk(f) && FieldWithin(f, depth, inRange);
      assert ItemOk(f.value);
      MeaningStorable(f.value.tree, depth, inRange);
      CharsAreUtf8(f.key);
      EmplacedIsMap(acc, FieldMeaning(f));
      FieldsStorable(fields[1..], Emplaced(acc, FieldMeaning(f)), depth, inRange);
    }
  }

  // ----- the canonical text is a text of the grammar with the same meaning

  /** Members in ascending order are gathered one behind the other. */
  lemma {:induction false} EmplacedLast(ms: seq<Member>, m: Member)
    requires Sorted(ms + [m])
    ensures Emplaced(ms, m) == ms + [m]
  {
    hide Less;
    if ms == [] {
      assert [] + [m] == [m] + [];
    } else {
      var all := ms + [m];
      assert all[0] == ms[0] && all[|ms|] == m;
      assert Less(ms[0].key, m.key);
      if Less(m.key, ms[0].key) { LessTransitive(m.key, ms[0].key, m.key); }
      LessIrreflexive(m.key);
      assert all == [ms[0]] + (ms[1..] + [m]);
      SortedCons(ms[0], ms[1..] + [m]);
      EmplacedLast(ms[1..], m);
    }
  }

  lemma SortedPrefix(a: seq<Member>, b: seq<Member>)
    requires Sorted(a + b)
    ensures Sorted(a)
  {
    hide Less;
    forall i, j | 0 <= i < j < |a| ensures Less(a[i].key, a[j].key) {
      assert (a + b)[i] == a[i] && (a + b)[j] == a[j];
    }
  }

  /** The canonical text of a storable value is in the grammar and the limits, and means that value. */
  lemma {:induction false} CanonIs(v: Json, depth: nat, inRange: Bytes -> bool)
    requires Storable(v, depth, inRange)
    ensures var t := CanonTree(v);
      TreeOk(t) && Within(t, depth, inRange) && Text(t) == Print(v) && Meaning(t) == v
    decreases v
  {
    hide Less, Sorted, IsNumber, CharsOk, CharsText, CharsValue, Quoted, Utf8String, HasKey, CanonChars,
      DistinctKeys, ItemOk, FieldOk, CanonItems, CanonFields, ItemsText, FieldsText;
    match v
    case String(chars) => CanonString(chars);
    case Array(items) => CanonItemsIs(items, depth + 1, inRange);
    case Object(members) =>
      CanonFieldsIs(members, depth + 1, inRange);
      CanonKeys(members, depth + 1, inRange);
      assert [] + members == members;
      CanonGathered([], members, depth + 1, inRange);
    case Null =>
    case Boolean(b) =>
    case Number(text) =>
  }

  lemma CanonString(chars: Bytes)
    requires Utf8String(chars)
    ensures CharsOk(CanonChars(chars)) && CharsValue(CanonChars(chars)) == chars
    ensures [QUOTE] + CharsText(CanonChars(chars)) == Quoted(chars)
  {
    hide CharsOk, CharsText, CharsValue, Escaped, Utf8String, CanonChars;
    CanonCharsIs(chars);
    assert [QUOTE] + (Escaped(chars) + [QUOTE]) == Quoted(chars);
  }

  lemma {:induction false} CanonItemsIs(items: seq<Json>, depth: nat, inRange: Bytes -> bool)
    requires forall i :: 0 <= i < |items| ==> Storable(items[i], depth, inRange)
    ensures var r := CanonItems(items);
      GoodItems(r, depth, inRange) && ItemsMeaning(r) == items && (items != [] ==> ItemsText(r) == PrintItems(items))
    decreases items
  {
    hide Storable, Text, Print, TreeOk, Within, CanonTree;
    if items != [] {
      CanonIs(items[0], depth, inRange);
      CanonItemsIs(items[1..], depth, inRange);
      var r, rest := CanonItems(items), CanonItems(items[1..]);
      assert r[1..] == rest && r[0].before == [] && r[0].after == [];
      assert ItemOk(r[0]);
      assert [] + Text(r[0].tree) + [] == Print(items[0]);
      assert items == [items[0]] + items[1..];
    }
  }

  lemma CanonFieldIs(m: Member, depth: nat, inRange: Bytes -> bool)
    requires StorableMember(m, depth, inRange)
    requires var t := CanonTree(m.value);
      TreeOk(t) && Within(t, depth, inRange) && Text(t) == Print(m.value) && Meaning(t) == m.value
    ensures var f := CanonField(m);
      FieldOk(f) && FieldWithin(f, depth, inRange) && FieldText(f) == PrintMember(m) && FieldMeaning(f) == m
  {
    hide Storable, Text, Print, TreeOk, Within, CanonTree, CharsOk, CharsText, CharsValue, Escaped, Utf8String,
      CanonChars;
    CanonCharsIs(m.key);
    var f := CanonField(m);
    assert ItemText(f.value) == Print(m.value);
    assert [] + [QUOTE] + (Escaped(m.key) + [QUOTE]) + [] + [COLON] == Quoted(m.key) + [COLON];
  }

  lemma {:induction false} CanonFieldsIs(ms: seq<Member>, depth: nat, inRange: Bytes -> bool)
    requires forall i :: 0 <= i < |ms| ==> StorableMember(ms[i], depth, inRange)
    ensures var r := CanonFields(ms);
      GoodFields(r, depth, inRange) && (ms != [] ==> FieldsText(r) == PrintMembers(ms))
      && forall i :: 0 <= i < |ms| ==> FieldMeaning(r[i]) == ms[i]
    decreases ms
  {
    hide Storable, Text, Print, TreeOk, Within, CanonTree, CanonField, PrintMember, FieldText, FieldOk,
      FieldWithin, FieldMeaning;
    if ms != [] {
      CanonIs(ms[0].value, depth, inRange) by { assert StorableMember(ms[0], depth, inRange); }
      CanonFieldIs(ms[0], depth, inRange);
      CanonFieldsIs(ms[1..], depth, inRange);
      var r, rest := CanonFields(ms), CanonFields(ms[1..]);
      assert r[1..] == rest;
      assert ms == [ms[0]] + ms[1..];
    }
  }

  lemma CanonKeys(ms: seq<Member>, depth: nat, inRange: Bytes -> bool)
    requires Sorted(ms)
    requires forall i :: 0 <= i < |ms| ==> FieldMeaning(CanonFields(ms)[i]) == ms[i]
    ensures DistinctKeys(CanonFields(ms))
  {
    hide Less, CanonFields, CharsValue, Meaning;
    var r := CanonFields(ms);
    forall i, j | 0 <= i < j < |r| ensures CharsValue(r[i].key) != CharsValue(r[j].key) {
      assert FieldMeaning(r[i]) == ms[i] && FieldMeaning(r[j]) == ms[j];
      LessIrreflexive(ms[i].key);
    }
  }

  lemma {:induction false} CanonGathered(done: seq<Member>, ms: seq<Member>, depth: nat, inRange: Bytes -> bool)
    requires Sorted(done + ms)
    requires forall i :: 0 <= i < |ms| ==> FieldMeaning(CanonFields(ms)[i]) == ms[i]
    ensures Gathered(CanonFields(ms), done) == done + ms
    decreases ms
  {
    hide Less, CanonField, FieldMeaning, Sorted, Emplaced;
    if ms == [] {
      assert done + ms == done;
    } else {
      var r, rest := CanonFields(ms), CanonFields(ms[1..]);
      assert r[0] == CanonField(ms[0]) && r[1..] == rest;
      assert done + ms == done + [ms[0]] + ms[1..];
      SortedPrefix(done + [ms[0]], ms[1..]);
      EmplacedLast(done, ms[0]);
      forall i | 0 <= i < |ms[1..]| ensures FieldMeaning(rest[i]) == ms[1..][i] { assert rest[i] == r[i + 1]; }
      CanonGathered(done + [ms[0]], ms[1..], depth, inRange);
    }
  }

  // ----- the canonical text is the shortest

  /** How long the printed members are. */
  function MembersLength(ms: seq<Member>): nat
    decreases ms
  {
    if ms == [] then 0 else |PrintMember(ms[0])| + 1 + MembersLength(ms[1..])
  }

  lemma {:induction false} PrintMembersLength(ms: seq<Member>)
    requires ms != []
    ensures |PrintMembers(ms)| == MembersLength(ms)
    decreases ms
  {
    hide PrintMember;
    if |ms| > 1 {
      PrintMembersLength(ms[1..]);
    } else {
      assert ms[1..] == [];
    }
  }

  lemma {:induction false} EmplacedLength(ms: seq<Member>, m: Member)
    ensures MembersLength(Emplaced(ms, m)) <= MembersLength(ms) + |PrintMember(m)| + 1
    decreases ms
  {
    hide PrintMember, Less;
    if ms == [] || Less(m.key, ms[0].key) {
      assert ([m] + ms)[1..] == ms;
    } else if m.key != ms[0].key {
      EmplacedLength(ms[1..], m);
      assert ([ms[0]] + Emplaced(ms[1..], m))[1..] == Emplaced(ms[1..], m);
    }
  }

  /** No text of a value is shorter than its canonical text. */
  lemma {:induction false} PrintNoLonger(t: Tree)
    requires TreeOk(t)
    ensures |Print(Meaning(t))| <= |Text(t)|
    decreases t
  {
    hide CharsOk, CharsText, CharsValue, IsNumber, Escaped, Spaces;
    match t
    case StringT(cs) => CharsNoLonger(cs);
    case ArrayT(gap, items) =>
      if items != [] { ItemsNoLonger(items); }
    case ObjectT(gap, fields) =>
      FieldsNoLonger(fields, []);
      if Gathered(fields, []) != [] { PrintMembersLength(Gathered(fields, [])); }
    case NullT =>
    case BooleanT(b) =>
    case NumberT(text) =>
  }

  lemma {:induction false} ItemsNoLonger(items: seq<Item>)
    requires items != [] && forall i :: 0 <= i < |items| ==> ItemOk(items[i])
    ensures |PrintItems(ItemsMeaning(items))| <= |ItemsText(items)|
    decreases items
  {
    hide Print, Text, Meaning, TreeOk, Spaces;
    assert TreeOk(items[0].tree) by { assert ItemOk(items[0]); }
    PrintNoLonger(items[0].tree);
    if |items| > 1 {
      ItemsNoLonger(items[1..]);
      assert ItemsMeaning(items)[1..] == ItemsMeaning(items[1..]);
    } else {
      assert ItemsMeaning(items) == [Meaning(items[0].tree)];
    }
  }

  lemma {:induction false} FieldsNoLonger(fields: seq<Field>, acc: seq<Member>)
    requires forall i :: 0 <= i < |fields| ==> FieldOk(fields[i])
    ensures MembersLength(Gathered(fields, acc)) <= MembersLength(acc) + (if fields == [] then 0
        else |FieldsText(fields)|)
    decreases fields
  {
    hide Print, Text, Meaning, TreeOk, Spaces, MembersLength, Emplaced, PrintMember, FieldText, FieldMeaning;
    if fields != [] {
      var f := fields[0];
      FieldNoLonger(f);
      EmplacedLength(acc, FieldMeaning(f));
      FieldsNoLonger(fields[1..], Emplaced(acc, FieldMeaning(f)));
    }
  }

  lemma {:induction false} FieldNoLonger(f: Field)
    requires FieldOk(f)
    ensures |PrintMember(FieldMeaning(f))| <= |FieldText(f)|
    decreases f
  {
    hide Print, Text, Meaning, TreeOk, Spaces, CharsText, CharsValue, CharsOk, Escaped;
    CharsNoLonger(f.key);
    PrintNoLonger(f.value.tree) by { assert ItemOk(f.value); }
  }

  // ----- main results

  /** The text is one of the grammar, within the limits, and means the value. */
  ghost predicate Denotes(s: Bytes, v: Json, inRange: Bytes -> bool)
  {
    exists i: Item :: DenotesBy(s, v, i, inRange)
  }

  ghost predicate DenotesBy(s: Bytes, v: Json, i: Item, inRange: Bytes -> bool)
  {
    |s| <= MAXIMUM_PROFILE_BYTES && ItemOk(i) && Within(i.tree, 0, inRange) && ItemText(i) == s && Meaning(i.tree) == v
  }

  lemma AcceptsMeaning(s: Bytes, i: Item, inRange: Bytes -> bool)
    requires DenotesBy(s, Meaning(i.tree), i, inRange)
    ensures Parse(s, inRange) == Done(Meaning(i.tree), |s|)
  {
    hide At, Text, TreeOk, Within, Meaning, ValueAt, Spaces, SkipSpace;
    AtSlice(s, 0, s);
    assert s[0..|s|] == s;
    ItemSplit(s, 0, i);
    var e := |i.before| + |Text(i.tree)|;
    AfterDelimits(s, e, i.after) by { assert e + |i.after| == |s|; }
    ValueComplete(s, 0, i.before, i.tree, 0, inRange);
    SkipsAll(s, e, i.after);
  }

  lemma MeansAccepted(s: Bytes, inRange: Bytes -> bool) returns (i: Item)
    requires Parse(s, inRange).Done?
    ensures DenotesBy(s, Parse(s, inRange).value, i, inRange)
  {
    hide At, Text, TreeOk, Within, Meaning, ValueAt, Spaces, SkipSpace;
    i := ItemSound(s, 0, 0, inRange);
    AtSlice(s, 0, ItemText(i));
    assert s[0..|s|] == s;
  }

  /** The reader accepts exactly the texts of the grammar within its limits, and returns what they mean. */
  lemma ParseIsExact(s: Bytes, v: Json, inRange: Bytes -> bool)
    ensures Parse(s, inRange) == Done(v, |s|) <==> Denotes(s, v, inRange)
  {
    hide ItemOk, Within, ItemText, Meaning, Parse;
    if Parse(s, inRange) == Done(v, |s|) {
      var i := MeansAccepted(s, inRange);
    }
    if Denotes(s, v, inRange) {
      var i :| DenotesBy(s, v, i, inRange);
      AcceptsMeaning(s, i, inRange);
    }
  }

  /** Every string the reader returns is well-formed UTF-8, every number grammatical, every object in key order. */
  lemma AcceptedIsStorable(s: Bytes, inRange: Bytes -> bool)
    requires Parse(s, inRange).Done?
    ensures Storable(Parse(s, inRange).value, 0, inRange)
  {
    hide TreeOk, Within, Meaning, Storable, Text, Parse, Spaces;
    var i := MeansAccepted(s, inRange);
    MeaningStorable(i.tree, 0, inRange);
  }

  lemma {:induction false} WithinMore(t: Tree, depth: nat, inRange: Bytes -> bool, wider: Bytes -> bool)
    requires Within(t, depth, inRange) && forall text: Bytes :: inRange(text) ==> wider(text)
    ensures Within(t, depth, wider)
  {
    hide DistinctKeys;
    match t
    case ArrayT(gap, items) =>
      forall i | 0 <= i < |items| ensures Within(items[i].tree, depth + 1, wider) {
        WithinMore(items[i].tree, depth + 1, inRange, wider);
      }
    case ObjectT(gap, fields) =>
      forall i | 0 <= i < |fields| ensures FieldWithin(fields[i], depth + 1, wider) {
        assert FieldWithin(fields[i], depth + 1, inRange);
        WithinMore(fields[i].value.tree, depth + 1, inRange, wider);
      }
    case _ =>
  }

  /** A reader that takes more numbers reads the same from every text the narrower one accepts. */
  lemma WiderReads(s: Bytes, inRange: Bytes -> bool, wider: Bytes -> bool)
    requires Parse(s, inRange).Done? && forall text: Bytes :: inRange(text) ==> wider(text)
    ensures Parse(s, wider) == Parse(s, inRange)
  {
    hide TreeOk, Within, Meaning, Text, Parse, Spaces;
    var i := MeansAccepted(s, inRange);
    WithinMore(i.tree, 0, inRange, wider);
    AcceptsMeaning(s, i, inRange);
    AcceptsMeaning(s, i, wider);
  }

  /** Reading what was printed gives the value back. */
  lemma RoundTrip(v: Json, inRange: Bytes -> bool)
    requires Storable(v, 0, inRange) && |Print(v)| <= MAXIMUM_PROFILE_BYTES
    ensures Parse(Print(v), inRange) == Done(v, |Print(v)|)
  {
    hide TreeOk, Within, Meaning, Storable, Print, Text, CanonTree, Parse;
    CanonIs(v, 0, inRange);
    var i := Item([], CanonTree(v), []);
    assert [] + Text(i.tree) + [] == Print(v);
    AcceptsMeaning(Print(v), i, inRange);
  }

  /** Different storable values have different canonical texts, whatever their size. */
  lemma PrintInjective(v: Json, w: Json, inRange: Bytes -> bool)
    requires Storable(v, 0, inRange) && Storable(w, 0, inRange) && Print(v) == Print(w)
    ensures v == w
  {
    hide TreeOk, Within, Meaning, Storable, Print, Text, CanonTree, At;
    var s := Print(v);
    CanonIs(v, 0, inRange);
    CanonIs(w, 0, inRange);
    AtSlice(s, 0, s);
    AtSlice(s, 0, []);
    assert s[0..|s|] == s;
    ValueComplete(s, 0, [], CanonTree(v), 0, inRange);
    ValueComplete(s, 0, [], CanonTree(w), 0, inRange);
  }

  /** Canonicalising an accepted text always yields an accepted text, no longer than the original, with the
      same value; so canonicalising twice changes nothing more. */
  lemma CanonicalisingIsIdempotent(s: Bytes, inRange: Bytes -> bool)
    requires Parse(s, inRange).Done?
    ensures var c := Print(Parse(s, inRange).value);
      |c| <= |s| && Parse(c, inRange).Done? && Print(Parse(c, inRange).value) == c
      && Parse(c, inRange).value == Parse(s, inRange).value
  {
    hide TreeOk, Within, Meaning, Storable, Print, Text, Parse, Spaces;
    var i := MeansAccepted(s, inRange);
    PrintNoLonger(i.tree);
    AcceptedIsStorable(s, inRange);
    RoundTrip(Parse(s, inRange).value, inRange);
  }

  predicate Among(fields: seq<Field>, m: Member)
  {
    exists i :: 0 <= i < |fields| && FieldMeaning(fields[i]) == m
  }

  /** Objects written with the same members in another order mean the same. */
  lemma OrderBlind(gap: Bytes, a: seq<Field>, b: seq<Field>)
    requires DistinctKeys(a) && DistinctKeys(b) && forall m :: Among(a, m) <==> Among(b, m)
    ensures Meaning(ObjectT(gap, a)) == Meaning(ObjectT(gap, b))
  {
    hide Less, Sorted, CharsValue, HasKey, FieldMeaning, Among;
    NoneYet(a);
    NoneYet(b);
    GatheredIsMap(a, []);
    GatheredIsMap(b, []);
    SortedUnique(Gathered(a, []), Gathered(b, []));
  }

  lemma NoneYet(fields: seq<Field>)
    requires DistinctKeys(fields)
    ensures FreshKeys(fields, []) && Sorted([])
  {
  }

  lemma {:induction false} GatheredIsMap(fields: seq<Field>, acc: seq<Member>)
    requires FreshKeys(fields, acc) && Sorted(acc)
    ensures Sorted(Gathered(fields, acc))
    ensures forall m :: m in Gathered(fields, acc) <==> m in acc || Among(fields, m)
    decreases fields
  {
    hide Less, Sorted, HasKey, Meaning, CharsValue, Emplaced, FreshKeys, FieldMeaning, Among;
    if fields == [] {
      forall m ensures !Among(fields, m) { NotAmongNone(m); }
    } else {
      var m0 := FieldMeaning(fields[0]);
      FreshTail(fields, acc);
      KeyOfField(fields[0]);
      EmplacedIsMap(acc, m0);
      GatheredIsMap(fields[1..], Emplaced(acc, m0));
      forall m ensures Among(fields, m) <==> m == m0 || Among(fields[1..], m) { AmongTail(fields, m); }
    }
  }

  lemma KeyOfField(f: Field)
    ensures FieldMeaning(f).key == CharsValue(f.key)
  {
  }

  lemma NotAmongNone(m: Member)
    ensures !Among([], m)
  {
  }

  lemma AmongTail(fields: seq<Field>, m: Member)
    requires fields != []
    ensures Among(fields, m) <==> m == FieldMeaning(fields[0]) || Among(fields[1..], m)
  {
    hide FieldMeaning;
    if Among(fields, m) {
      var i :| 0 <= i < |fields| && FieldMeaning(fields[i]) == m;
      if i > 0 { assert fields[1..][i - 1] == fields[i]; }
    }
    if Among(fields[1..], m) {
      var i :| 0 <= i < |fields[1..]| && FieldMeaning(fields[1..][i]) == m;
      assert fields[i + 1] == fields[1..][i];
    }
  }
}
