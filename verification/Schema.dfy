/** Records as JSON objects: a schema lists the fields of a record in key order with their kinds; encoding and
    decoding follow it field by field. The profile codec is an instance. */
module Schema {
  import opened Arith
  import opened Utf8
  import opened JsonGrammar
  import opened JsonPrinter
  import JsonTheorems
  import opened Prelude

  /** How a double is written and read, and which texts strtod takes; doubles are known by their bits. */
  datatype Doubles = Doubles(show: nat -> Bytes, read: Bytes -> Option<nat>)

  /** The range test of the reader: strtod takes the text. */
  function InRange(d: Doubles): Bytes -> bool
  {
    text => d.read(text).Some?
  }

  datatype Kind =
    | TextK | WholeK | RealK | FlagK
    | ChoiceK(names: seq<string>)            // an enumeration by name
    | ListK(item: Kind, most: nat)
    | RecordK(slots: seq<Slot>)
    | OptionalK(kind: Kind)                  // may be missing

  datatype Slot = Slot(name: string, kind: Kind)

  datatype Value =
    | TextV(text: Bytes) | WholeV(n: nat) | RealV(bits: nat) | FlagV(flag: bool) | ChoiceV(choice: nat)
    | ListV(items: seq<Value>) | RecordV(fields: seq<Value>) | AbsentV

  // ----- names

  function Ascii(s: string): (b: Bytes)
    ensures |b| == |s|
  {
    seq(|s|, i requires 0 <= i < |s| => if s[i] <= '~' then s[i] as int else 0)
  }

  /** a comes before b: they agree up to position k, and there b is larger or a ends. */
  predicate Before(a: string, b: string, k: nat)
  {
    k < |b| && k <= |a| && (forall i :: 0 <= i < k ==> a[i] == b[i]) && b[k] <= '~' && (k == |a| || a[k] < b[k])
  }

  lemma {:induction false} BeforeIsLess(a: string, b: string, k: nat)
    requires Before(a, b, k)
    ensures Less(Ascii(a), Ascii(b))
    decreases k
  {
    if k > 0 {
      BeforeIsLess(a[1..], b[1..], k - 1);
      assert Ascii(a)[1..] == Ascii(a[1..]) && Ascii(b)[1..] == Ascii(b[1..]);
    }
  }

  lemma {:induction false} AsciiIsUtf8(b: Bytes)
    requires forall i :: 0 <= i < |b| ==> b[i] <= 0x7f
    ensures Utf8String(b)
  {
    if b != [] {
      AsciiIsUtf8(b[1..]);
    }
  }

  // ----- whole numbers

  /** std::to_string. */
  function Decimal(n: nat): (b: Bytes)
    ensures b != []
  {
    if n < 10 then [0x30 + n] else Decimal(n / 10) + [0x30 + n % 10]
  }

  /** The value of a run of digits. */
  function DigitsValue(b: Bytes): nat
  {
    if b == [] then 0
    else DigitsValue(b[..|b| - 1]) * 10 + (if IsDigit(b[|b| - 1]) then b[|b| - 1] - 0x30 else 0)
  }

  /** size_value: an unsigned integer without sign, fraction or exponent, that fits std::size_t. */
  function ReadWhole(text: Bytes): Option<nat>
  {
    if text == [] || !Digits(text) || DigitsValue(text) > SIZE_MAX then None else Some(DigitsValue(text))
  }

  lemma {:induction false} DigitsSnoc(b: Bytes, d: Byte)
    requires Digits(b) && IsDigit(d)
    ensures Digits(b + [d])
  {
    if b != [] {
      DigitsSnoc(b[1..], d);
      assert (b + [d])[1..] == b[1..] + [d];
    }
  }

  lemma {:induction false} DecimalIs(n: nat)
    ensures Digits(Decimal(n)) && DigitsValue(Decimal(n)) == n
    ensures Decimal(n)[0] == 0x30 ==> n == 0 && |Decimal(n)| == 1
  {
    if n >= 10 {
      DecimalIs(n / 10);
      DigitsSnoc(Decimal(n / 10), 0x30 + n % 10);
      assert Decimal(n)[..|Decimal(n)| - 1] == Decimal(n / 10);
    }
  }

  lemma DecimalIsNumber(n: nat)
    ensures IsNumber(Decimal(n))
  {
    DecimalIs(n);
    var m := Numeral([], Decimal(n), [], []);
    assert NumeralText(m) == Decimal(n);
    assert NumeralOk(m);
  }

  // ----- writing

  function Encode(k: Kind, v: Value, d: Doubles): Json
    decreases k, 0, 0
  {
    match k
    case TextK => if v.TextV? then String(v.text) else Null
    case WholeK => if v.WholeV? then Number(Decimal(v.n)) else Null
    case RealK => if v.RealV? then Number(d.show(v.bits)) else Null
    case FlagK => if v.FlagV? then Boolean(v.flag) else Null
    case ChoiceK(names) => if v.ChoiceV? && v.choice < |names| then String(Ascii(names[v.choice])) else Null
    case ListK(item, most) => if v.ListV? then Array(EncodeList(item, v.items, d)) else Null
    case RecordK(slots) => if v.RecordV? then Object(EncodeSlots(slots, v.fields, d)) else Null
    case OptionalK(inner) => Encode(inner, v, d)
  }

  function EncodeList(item: Kind, vs: seq<Value>, d: Doubles): (r: seq<Json>)
    ensures |r| == |vs|
    decreases item, 1, |vs|
  {
    if vs == [] then [] else [Encode(item, vs[0], d)] + EncodeList(item, vs[1..], d)
  }

  /** The members of a record; what is absent is left out. */
  function EncodeSlots(slots: seq<Slot>, vs: seq<Value>, d: Doubles): seq<Member>
    decreases slots, 2, 0
  {
    if vs == [] || slots == [] then []
    else
      (if vs[0].AbsentV? then [] else [Member(Ascii(slots[0].name), Encode(slots[0].kind, vs[0], d))])
      + EncodeSlots(slots[1..], vs[1..], d)
  }

  // ----- reading

  function Find(ms: seq<Member>, key: Bytes): Option<Json>
  {
    if ms == [] then None
    else if ms[0].key == key then Some(ms[0].value)
    else Find(ms[1..], key)
  }

  function IndexOf(names: seq<string>, text: Bytes): (r: Option<nat>)
    ensures r.Some? ==> r.value < |names| && Ascii(names[r.value]) == text
  {
    if names == [] then None
    else if Ascii(names[0]) == text then Some(0)
    else match IndexOf(names[1..], text) case None => None case Some(i) => Some(i + 1)
  }

  function Decode(k: Kind, j: Json, d: Doubles): Option<Value>
    decreases k, 0, 0
  {
    match k
    case TextK => if j.String? then Some(TextV(j.chars)) else None
    case WholeK =>
      if !j.Number? then None else (match ReadWhole(j.text) case None => None case Some(n) => Some(WholeV(n)))
    case RealK =>
      if !j.Number? then None else (match d.read(j.text) case None => None case Some(bits) => Some(RealV(bits)))
    case FlagK => if j.Boolean? then Some(FlagV(j.boolean)) else None
    case ChoiceK(names) =>
      if !j.String? then None else (match IndexOf(names, j.chars) case None => None case Some(i) => Some(ChoiceV(i)))
    case ListK(item, most) =>
      if !j.Array? || |j.items| > most then None
      else (match DecodeList(item, j.items, d) case None => None case Some(vs) => Some(ListV(vs)))
    case RecordK(slots) =>
      if !j.Object? then None
      else (match DecodeSlots(slots, j.members, d) case None => None case Some(vs) => Some(RecordV(vs)))
    case OptionalK(inner) => Decode(inner, j, d)
  }

  function DecodeList(item: Kind, js: seq<Json>, d: Doubles): Option<seq<Value>>
    decreases item, 1, |js|
  {
    if js == [] then Some([])
    else
      match Decode(item, js[0], d)
      case None => None
      case Some(v) => match DecodeList(item, js[1..], d) case None => None case Some(vs) => Some([v] + vs)
  }

  function DecodeSlot(slot: Slot, ms: seq<Member>, d: Doubles): Option<Value>
    decreases slot, 1, 0
  {
    match Find(ms, Ascii(slot.name))
    case None => if slot.kind.OptionalK? then Some(AbsentV) else None
    case Some(j) => Decode(slot.kind, j, d)
  }

  function DecodeSlots(slots: seq<Slot>, ms: seq<Member>, d: Doubles): Option<seq<Value>>
    decreases slots, 2, 0
  {
    if slots == [] then Some([])
    else
      match DecodeSlot(slots[0], ms, d)
      case None => None
      case Some(v) => match DecodeSlots(slots[1..], ms, d) case None => None case Some(vs) => Some([v] + vs)
  }

  // ----- what can be stored

  /** The value has the shape of its kind, keeps the limits of the reader, and all its doubles are ok. */
  predicate Fits(k: Kind, v: Value, ok: nat -> bool)
    decreases k, 0
  {
    match k
    case TextK => v.TextV? && StorableString(v.text)
    case WholeK => v.WholeV? && v.n <= SIZE_MAX
    case RealK => v.RealV? && ok(v.bits)
    case FlagK => v.FlagV?
    case ChoiceK(names) => v.ChoiceV? && v.choice < |names|
    case ListK(item, most) => v.ListV? && |v.items| <= most
        && forall i :: 0 <= i < |v.items| ==> Fits(item, v.items[i], ok)
    case RecordK(slots) => v.RecordV? && FitsSlots(slots, v.fields, ok)
    case OptionalK(inner) => v.AbsentV? || Fits(inner, v, ok)
  }

  predicate FitsSlots(slots: seq<Slot>, vs: seq<Value>, ok: nat -> bool)
    decreases slots, 1
  {
    |vs| == |slots| &&
    (slots == [] || (Fits(slots[0].kind, vs[0], ok) && FitsSlots(slots[1..], vs[1..], ok)))
  }

  /** A well-made kind: names in key order, enumerations without repeats, lists within the reader's limit. */
  predicate KindOk(k: Kind)
    decreases k, 0
  {
    match k
    case ChoiceK(names) => NamesOk(names)
    case ListK(item, most) => most <= MAXIMUM_VECTOR_ITEMS && KindOk(item) && !item.OptionalK?
    case RecordK(slots) => Ordered(slots) && SlotsOk(slots)
    case OptionalK(inner) => (inner.WholeK? || inner.RecordK?) && KindOk(inner)
    case TextK => true
    case WholeK => true
    case RealK => true
    case FlagK => true
  }

  predicate SlotsOk(slots: seq<Slot>)
    decreases slots, 1
  {
    slots == [] || (NameOk(slots[0].name) && KindOk(slots[0].kind) && SlotsOk(slots[1..]))
  }

  predicate NameOk(name: string)
  {
    |name| <= MAXIMUM_JSON_STRING
  }

  predicate NamesOk(names: seq<string>)
  {
    && (forall i :: 0 <= i < |names| ==> NameOk(names[i]))
    && (forall i, j :: 0 <= i < j < |names| ==> Ascii(names[i]) != Ascii(names[j]))
  }

  predicate Ordered(slots: seq<Slot>)
  {
    forall i, j :: 0 <= i < j < |slots| ==> Less(Ascii(slots[i].name), Ascii(slots[j].name))
  }

  /** How deep the objects and arrays of a kind nest. */
  function Height(k: Kind): nat
    decreases k, 0
  {
    match k
    case ListK(item, most) => 1 + Height(item)
    case RecordK(slots) => 1 + SlotsHeight(slots)
    case OptionalK(inner) => Height(inner)
    case _ => 0
  }

  function SlotsHeight(slots: seq<Slot>): nat
    decreases slots, 1
  {
    if slots == [] then 0
    else
      var a, b := Height(slots[0].kind), SlotsHeight(slots[1..]);
      if a > b then a else b
  }

  /** What the codec asks of strtod and of the printing of doubles: whole numbers are read, and every double is
      printed as a number of the grammar. That what is printed is read back is not asked: an exact text of a
      subnormal double is read without a range error, but its digits as printed are refused for one. */
  ghost predicate DoublesOk(d: Doubles)
  {
    && (forall n: nat :: n <= SIZE_MAX ==> d.read(Decimal(n)).Some?)
    && (forall bits: nat :: IsNumber(d.show(bits)))
  }

  predicate ReadsBack(d: Doubles, bits: nat)
  {
    d.read(d.show(bits)) == Some(bits)
  }

  /** The doubles that survive being printed and read. */
  function Stable(d: Doubles): nat -> bool
  {
    (bits: nat) => ReadsBack(d, bits)
  }

  function AnyDouble(): nat -> bool
  {
    (bits: nat) => true
  }

  /** A reader that takes every number of the grammar. */
  function AnyText(): Bytes -> bool
  {
    text => true
  }

  /** Whole numbers and ok doubles are printed as numbers of the grammar that a reader with this range takes. */
  ghost predicate PrintsInto(d: Doubles, ok: nat -> bool, inRange: Bytes -> bool)
  {
    && (forall n: nat :: n <= SIZE_MAX ==> inRange(Decimal(n)))
    && (forall bits: nat :: IsNumber(d.show(bits)))
    && (forall bits: nat :: ok(bits) ==> inRange(d.show(bits)))
  }

  lemma PrintsIntoBoth(d: Doubles, ok: nat -> bool)
    requires DoublesOk(d)
    ensures PrintsInto(d, Stable(d), InRange(d)) && PrintsInto(d, ok, AnyText())
  {
  }

  // ----- what is written can be stored

  lemma NameStorable(name: string)
    requires NameOk(name)
    ensures StorableString(Ascii(name))
  {
    AsciiIsUtf8(Ascii(name));
  }

  lemma {:induction false} EncodeStorable(k: Kind, v: Value, d: Doubles, ok: nat -> bool, inRange: Bytes -> bool,
          depth: nat)
    requires KindOk(k) && Fits(k, v, ok) && !v.AbsentV? && PrintsInto(d, ok, inRange)
    requires depth + Height(k) <= MAXIMUM_JSON_DEPTH
    ensures Storable(Encode(k, v, d), depth, inRange)
    decreases k, 0, 0
  {
    hide Less, IsNumber, Decimal, Ascii, Utf8String;
    match k
    case WholeK =>
      DecimalIsNumber(v.n);
      assert inRange(Decimal(v.n));
    case RealK => assert IsNumber(d.show(v.bits)) && inRange(d.show(v.bits));
    case ChoiceK(names) => NameStorable(names[v.choice]);
    case ListK(item, most) => ListStorable(item, v.items, d, ok, inRange, depth + 1);
    case RecordK(slots) => SlotsStorable(slots, v.fields, d, ok, inRange, depth + 1);
    case OptionalK(inner) => EncodeStorable(inner, v, d, ok, inRange, depth);
    case TextK =>
    case FlagK =>
  }

  lemma {:induction false} ListStorable(item: Kind, vs: seq<Value>, d: Doubles, ok: nat -> bool,
          inRange: Bytes -> bool, depth: nat)
    requires KindOk(item) && !item.OptionalK? && PrintsInto(d, ok, inRange)
    requires depth + Height(item) <= MAXIMUM_JSON_DEPTH
    requires forall i :: 0 <= i < |vs| ==> Fits(item, vs[i], ok)
    ensures forall i :: 0 <= i < |vs| ==> Storable(EncodeList(item, vs, d)[i], depth, inRange)
    decreases item, 1, |vs|
  {
    hide Storable, PrintsInto, Encode;
    if vs != [] {
      NotAbsent(item, vs[0], ok);
      EncodeStorable(item, vs[0], d, ok, inRange, depth);
      ListStorable(item, vs[1..], d, ok, inRange, depth);
    }
  }

  lemma NotAbsent(k: Kind, v: Value, ok: nat -> bool)
    requires Fits(k, v, ok) && !k.OptionalK?
    ensures !v.AbsentV?
  {
  }

  ghost predicate StorableAll(ms: seq<Member>, depth: nat, inRange: Bytes -> bool)
  {
    forall i :: 0 <= i < |ms| ==> StorableMember(ms[i], depth, inRange)
  }

  lemma {:induction false} SlotsStorable(slots: seq<Slot>, vs: seq<Value>, d: Doubles, ok: nat -> bool,
          inRange: Bytes -> bool, depth: nat)
    requires Ordered(slots) && SlotsOk(slots) && FitsSlots(slots, vs, ok) && PrintsInto(d, ok, inRange)
    requires depth + SlotsHeight(slots) <= MAXIMUM_JSON_DEPTH
    ensures Sorted(EncodeSlots(slots, vs, d)) && StorableAll(EncodeSlots(slots, vs, d), depth, inRange)
    ensures KeysFrom(slots, 0, EncodeSlots(slots, vs, d))
    decreases slots, 2, 0
  {
    hide Storable, PrintsInto, Encode, Less, Utf8String, Ordered, Ascii;
    if slots != [] {
      OrderedTail(slots);
      SlotsStorable(slots[1..], vs[1..], d, ok, inRange, depth);
      var rest := EncodeSlots(slots[1..], vs[1..], d);
      KeysOfTail(slots, rest);
      if !vs[0].AbsentV? {
        EncodeStorable(slots[0].kind, vs[0], d, ok, inRange, depth);
        NameStorable(slots[0].name);
        var m := Member(Ascii(slots[0].name), Encode(slots[0].kind, vs[0], d));
        FirstKey(slots, m, rest);
        assert EncodeSlots(slots, vs, d) == [m] + rest;
        KeysOfAll(slots, m, rest);
      } else {
        assert EncodeSlots(slots, vs, d) == rest;
        KeysWiden(slots, rest);
      }
    }
  }

  /** The key is the name of a slot from position lo on. */
  predicate Named(slots: seq<Slot>, lo: nat, key: Bytes)
  {
    exists s :: lo <= s < |slots| && Ascii(slots[s].name) == key
  }

  predicate KeysFrom(slots: seq<Slot>, lo: nat, ms: seq<Member>)
  {
    forall i :: 0 <= i < |ms| ==> Named(slots, lo, ms[i].key)
  }

  lemma NamedInTail(slots: seq<Slot>, key: Bytes)
    requires slots != [] && Named(slots[1..], 0, key)
    ensures Named(slots, 1, key)
  {
    hide Ascii;
    var s :| 0 <= s < |slots[1..]| && Ascii(slots[1..][s].name) == key;
    assert slots[s + 1] == slots[1..][s];
  }

  lemma KeysOfTail(slots: seq<Slot>, ms: seq<Member>)
    requires slots != [] && KeysFrom(slots[1..], 0, ms)
    ensures KeysFrom(slots, 1, ms)
  {
    hide Ascii, Named;
    forall i | 0 <= i < |ms| ensures Named(slots, 1, ms[i].key) {
      NamedInTail(slots, ms[i].key);
    }
  }

  lemma KeysOfAll(slots: seq<Slot>, m: Member, ms: seq<Member>)
    requires slots != [] && m.key == Ascii(slots[0].name) && KeysFrom(slots, 1, ms)
    ensures KeysFrom(slots, 0, [m] + ms)
  {
    hide Ascii;
    forall i | 0 <= i < |[m] + ms| ensures Named(slots, 0, ([m] + ms)[i].key) {
      if i > 0 {
        assert ([m] + ms)[i] == ms[i - 1] && Named(slots, 1, ms[i - 1].key);
      }
    }
  }

  lemma KeysWiden(slots: seq<Slot>, ms: seq<Member>)
    requires KeysFrom(slots, 1, ms)
    ensures KeysFrom(slots, 0, ms)
  {
    hide Ascii;
    forall i | 0 <= i < |ms| ensures Named(slots, 0, ms[i].key) {
      assert Named(slots, 1, ms[i].key);
    }
  }

  lemma OrderedTail(slots: seq<Slot>)
    requires Ordered(slots) && slots != []
    ensures Ordered(slots[1..])
    ensures forall s :: 1 <= s < |slots| ==> Less(Ascii(slots[0].name), Ascii(slots[s].name))
  {
    hide Less, Ascii;
  }

  lemma FirstKey(slots: seq<Slot>, m: Member, rest: seq<Member>)
    requires slots != [] && Ordered(slots) && m.key == Ascii(slots[0].name) && KeysFrom(slots, 1, rest) && Sorted(rest)
    ensures Sorted([m] + rest) && Find([m] + rest, m.key) == Some(m.value)
    ensures forall i :: 0 <= i < |rest| ==> rest[i].key != m.key
  {
    hide Less, Ascii;
    forall i | 0 <= i < |rest| ensures Less(m.key, rest[i].key) && rest[i].key != m.key {
      assert Named(slots, 1, rest[i].key);
      var s :| 1 <= s < |slots| && Ascii(slots[s].name) == rest[i].key;
      OrderedTail(slots);
      JsonTheorems.LessIrreflexive(m.key);
    }
    JsonTheorems.SortedCons(m, rest);
  }

  // ----- what is written is read back

  lemma {:induction false} FindAbsent(ms: seq<Member>, key: Bytes)
    requires forall i :: 0 <= i < |ms| ==> ms[i].key != key
    ensures Find(ms, key) == None
  {
    if ms != [] { FindAbsent(ms[1..], key); }
  }

  /** Each field is found under its name, unless it was left out. */
  lemma {:induction false} FindEncoded(slots: seq<Slot>, vs: seq<Value>, d: Doubles, ok: nat -> bool, s: nat,
      depth: nat)
    requires Ordered(slots) && SlotsOk(slots) && FitsSlots(slots, vs, ok) && DoublesOk(d) && s < |slots|
    requires depth + SlotsHeight(slots) <= MAXIMUM_JSON_DEPTH
    ensures Find(EncodeSlots(slots, vs, d), Ascii(slots[s].name)) ==
            if vs[s].AbsentV? then None else Some(Encode(slots[s].kind, vs[s], d))
    decreases slots
  {
    hide Storable, DoublesOk, Encode, Less, Utf8String, Ordered, Ascii, Find;
    OrderedTail(slots);
    PrintsIntoBoth(d, ok);
    SlotsStorable(slots[1..], vs[1..], d, ok, AnyText(), depth);
    var rest := EncodeSlots(slots[1..], vs[1..], d);
    KeysOfTail(slots, rest);
    var m := Member(Ascii(slots[0].name), Encode(slots[0].kind, vs[0], d));
    FirstKey(slots, m, rest);
    assert EncodeSlots(slots, vs, d) == if vs[0].AbsentV? then rest else [m] + rest;
    if s == 0 {
      FindAbsent(rest, m.key);
    } else {
      FindEncoded(slots[1..], vs[1..], d, ok, s - 1, depth);
      JsonTheorems.LessIrreflexive(m.key);
      FindSkips(m, rest, Ascii(slots[s].name));
    }
  }

  lemma FindSkips(m: Member, ms: seq<Member>, key: Bytes)
    requires m.key != key
    ensures Find([m] + ms, key) == Find(ms, key)
  {
    assert ([m] + ms)[1..] == ms;
  }

  lemma {:induction false} IndexOfName(names: seq<string>, i: nat)
    requires NamesOk(names) && i < |names|
    ensures IndexOf(names, Ascii(names[i])) == Some(i)
  {
    hide Ascii;
    if i > 0 {
      assert NamesOk(names[1..]);
      IndexOfName(names[1..], i - 1);
    }
  }

  /** Decoding undoes encoding, when every double in it survives being printed. */
  lemma {:induction false} DecodeEncoded(k: Kind, v: Value, d: Doubles, depth: nat)
    requires KindOk(k) && Fits(k, v, Stable(d)) && !v.AbsentV? && DoublesOk(d)
        && depth + Height(k) <= MAXIMUM_JSON_DEPTH
    ensures Decode(k, Encode(k, v, d), d) == Some(v)
    decreases k, 0, 0
  {
    hide Less, IsNumber, Decimal, Ascii, Utf8String, DoublesOk, Ordered, Find, DigitsValue, Digits, IndexOf, NamesOk;
    match k
    case WholeK => DecimalIs(v.n);
    case ChoiceK(names) => IndexOfName(names, v.choice);
    case ListK(item, most) => ListDecoded(item, v.items, d, depth + 1);
    case RecordK(slots) =>
      SlotsDecoded(slots, v.fields, d, 0, depth + 1);
      assert slots[0..] == slots && v.fields[0..] == v.fields;
    case OptionalK(inner) => DecodeEncoded(inner, v, d, depth);
    case RealK =>
    case TextK =>
    case FlagK =>
  }

  lemma {:induction false} ListDecoded(item: Kind, vs: seq<Value>, d: Doubles, depth: nat)
    requires KindOk(item) && !item.OptionalK? && DoublesOk(d) && depth + Height(item) <= MAXIMUM_JSON_DEPTH
    requires forall i :: 0 <= i < |vs| ==> Fits(item, vs[i], Stable(d))
    ensures DecodeList(item, EncodeList(item, vs, d), d) == Some(vs)
    decreases item, 1, |vs|
  {
    hide DoublesOk, Encode, Decode;
    if vs != [] {
      NotAbsent(item, vs[0], Stable(d));
      DecodeEncoded(item, vs[0], d, depth);
      ListDecoded(item, vs[1..], d, depth);
      assert EncodeList(item, vs, d)[1..] == EncodeList(item, vs[1..], d);
      assert vs == [vs[0]] + vs[1..];
    }
  }

  lemma {:induction false} FitsAt(slots: seq<Slot>, vs: seq<Value>, ok: nat -> bool, s: nat)
    requires FitsSlots(slots, vs, ok) && SlotsOk(slots) && s < |slots|
    ensures Fits(slots[s].kind, vs[s], ok) && KindOk(slots[s].kind) && Height(slots[s].kind) <= SlotsHeight(slots)
    ensures NameOk(slots[s].name)
  {
    hide Fits, KindOk, Height, NameOk;
    if s > 0 { FitsAt(slots[1..], vs[1..], ok, s - 1); }
  }

  lemma {:induction false} SlotsDecoded(slots: seq<Slot>, vs: seq<Value>, d: Doubles, s: nat, depth: nat)
    requires Ordered(slots) && SlotsOk(slots) && FitsSlots(slots, vs, Stable(d)) && DoublesOk(d) && s <= |slots|
    requires depth + SlotsHeight(slots) <= MAXIMUM_JSON_DEPTH
    ensures |vs| == |slots| && DecodeSlots(slots[s..], EncodeSlots(slots, vs, d), d) == Some(vs[s..])
    decreases slots, 2, |slots| - s
  {
    hide DoublesOk, Encode, Decode, Less, Ordered, Ascii, Find, EncodeSlots, KindOk, Height, Fits, SlotsHeight, SlotsOk;
    if s < |slots| {
      var ms := EncodeSlots(slots, vs, d);
      FitsAt(slots, vs, Stable(d), s);
      FindEncoded(slots, vs, d, Stable(d), s, depth);
      if !vs[s].AbsentV? {
        DecodeEncoded(slots[s].kind, vs[s], d, depth);
      } else {
        OnlyOptionalAbsent(slots[s].kind, vs[s], Stable(d));
      }
      assert DecodeSlot(slots[s], ms, d) == Some(vs[s]);
      SlotsDecoded(slots, vs, d, s + 1, depth);
      assert slots[s..][1..] == slots[s + 1..] && slots[s..][0] == slots[s];
      assert vs[s..] == [vs[s]] + vs[s + 1..];
    }
  }

  lemma OnlyOptionalAbsent(k: Kind, v: Value, ok: nat -> bool)
    requires Fits(k, v, ok) && v.AbsentV?
    ensures k.OptionalK?
  {
  }

  // ----- what is read fits

  /** Whatever a storable value decodes to has the shape and the limits of its kind. */
  lemma {:induction false} DecodedFits(k: Kind, j: Json, d: Doubles, depth: nat)
    requires KindOk(k) && Storable(j, depth, InRange(d)) && Decode(k, j, d).Some?
    ensures Fits(k, Decode(k, j, d).value, AnyDouble()) && !Decode(k, j, d).value.AbsentV?
    decreases k, 0, 0
  {
    hide Less, IsNumber, Decimal, Ascii, Utf8String, Ordered, Find, DigitsValue, Digits, IndexOf, NamesOk, Sorted;
    match k
    case RealK =>
    case ListK(item, most) => ListFits(item, j.items, d, depth + 1);
    case RecordK(slots) => SlotsFit(slots, j.members, d, depth + 1);
    case OptionalK(inner) => DecodedFits(inner, j, d, depth);
    case TextK =>
    case WholeK =>
    case FlagK =>
    case ChoiceK(names) =>
  }

  lemma {:induction false} ListFits(item: Kind, js: seq<Json>, d: Doubles, depth: nat)
    requires KindOk(item) && DecodeList(item, js, d).Some?
    requires forall i :: 0 <= i < |js| ==> Storable(js[i], depth, InRange(d))
    ensures var vs := DecodeList(item, js, d).value;
      |vs| == |js| && forall i :: 0 <= i < |vs| ==> Fits(item, vs[i], AnyDouble())
    decreases item, 1, |js|
  {
    hide Decode, Storable, Fits, KindOk;
    if js != [] {
      DecodedFits(item, js[0], d, depth);
      ListFits(item, js[1..], d, depth);
    }
  }

  lemma {:induction false} FindIsMember(ms: seq<Member>, key: Bytes)
    requires Find(ms, key).Some?
    ensures exists i :: 0 <= i < |ms| && ms[i] == Member(key, Find(ms, key).value)
  {
    if ms[0].key == key {
      assert ms[0] == Member(key, Find(ms, key).value);
    } else {
      FindIsMember(ms[1..], key);
      var i :| 0 <= i < |ms[1..]| && ms[1..][i] == Member(key, Find(ms[1..], key).value);
      assert ms[i + 1] == ms[1..][i];
    }
  }

  lemma {:induction false} SlotsFit(slots: seq<Slot>, ms: seq<Member>, d: Doubles, depth: nat)
    requires SlotsOk(slots) && DecodeSlots(slots, ms, d).Some?
    requires StorableAll(ms, depth, InRange(d))
    ensures FitsSlots(slots, DecodeSlots(slots, ms, d).value, AnyDouble())
    decreases slots, 2, 0
  {
    hide Decode, Storable, Find, Ascii, Utf8String;
    if slots != [] {
      var found := Find(ms, Ascii(slots[0].name));
      if found.Some? {
        FindIsMember(ms, Ascii(slots[0].name));
        var i :| 0 <= i < |ms| && ms[i] == Member(Ascii(slots[0].name), found.value);
        assert StorableMember(ms[i], depth, InRange(d));
        DecodedFits(slots[0].kind, found.value, d, depth);
      }
      SlotsFit(slots[1..], ms, d, depth);
      var vs := DecodeSlots(slots, ms, d).value;
      assert vs[1..] == DecodeSlots(slots[1..], ms, d).value;
    }
  }

  // ----- what does not survive

  /** v' is v with every double replaced by what its printed text is read as. */
  predicate Reread(k: Kind, v: Value, v': Value, d: Doubles)
    decreases k, 0
  {
    match k
    case RealK => v.RealV? && v'.RealV? && d.read(d.show(v.bits)) == Some(v'.bits)
    case ListK(item, most) =>
      && v.ListV? && v'.ListV? && |v'.items| == |v.items|
      && forall i :: 0 <= i < |v.items| ==> Reread(item, v.items[i], v'.items[i], d)
    case RecordK(slots) => v.RecordV? && v'.RecordV? && RereadSlots(slots, v.fields, v'.fields, d)
    case OptionalK(inner) => (v.AbsentV? && v'.AbsentV?) || (!v.AbsentV? && !v'.AbsentV? && Reread(inner, v, v', d))
    case _ => v' == v
  }

  predicate RereadSlots(slots: seq<Slot>, vs: seq<Value>, vs': seq<Value>, d: Doubles)
    decreases slots, 1
  {
    && |vs| == |slots| == |vs'|
    && (slots == [] || (Reread(slots[0].kind, vs[0], vs'[0], d) && RereadSlots(slots[1..], vs[1..], vs'[1..], d)))
  }

  /** Whatever an encoded value decodes to is that value, except for its doubles. */
  lemma {:induction false} DecodedRereads(k: Kind, v: Value, d: Doubles, depth: nat)
    requires KindOk(k) && Fits(k, v, AnyDouble()) && !v.AbsentV? && DoublesOk(d)
        && depth + Height(k) <= MAXIMUM_JSON_DEPTH
    requires Decode(k, Encode(k, v, d), d).Some?
    ensures Reread(k, v, Decode(k, Encode(k, v, d), d).value, d) && !Decode(k, Encode(k, v, d), d).value.AbsentV?
    decreases k, 0, 0
  {
    hide Less, IsNumber, Decimal, Ascii, Utf8String, DoublesOk, Ordered, Find, DigitsValue, Digits, IndexOf, NamesOk;
    match k
    case WholeK => DecimalIs(v.n);
    case ChoiceK(names) => IndexOfName(names, v.choice);
    case ListK(item, most) => ListRereads(item, v.items, d, depth + 1);
    case RecordK(slots) =>
      SlotsReread(slots, v.fields, d, 0, depth + 1);
      assert slots[0..] == slots && v.fields[0..] == v.fields;
    case OptionalK(inner) => DecodedRereads(inner, v, d, depth);
    case RealK =>
    case TextK =>
    case FlagK =>
  }

  lemma {:induction false} ListRereads(item: Kind, vs: seq<Value>, d: Doubles, depth: nat)
    requires KindOk(item) && !item.OptionalK? && DoublesOk(d) && depth + Height(item) <= MAXIMUM_JSON_DEPTH
    requires forall i :: 0 <= i < |vs| ==> Fits(item, vs[i], AnyDouble())
    requires DecodeList(item, EncodeList(item, vs, d), d).Some?
    ensures var vs' := DecodeList(item, EncodeList(item, vs, d), d).value;
      |vs'| == |vs| && forall i :: 0 <= i < |vs| ==> Reread(item, vs[i], vs'[i], d)
    decreases item, 1, |vs|
  {
    hide DoublesOk, Encode, Decode, Reread, Fits;
    if vs != [] {
      NotAbsent(item, vs[0], AnyDouble());
      assert EncodeList(item, vs, d)[1..] == EncodeList(item, vs[1..], d);
      DecodedRereads(item, vs[0], d, depth);
      ListRereads(item, vs[1..], d, depth);
    }
  }

  lemma {:induction false} SlotsReread(slots: seq<Slot>, vs: seq<Value>, d: Doubles, s: nat, depth: nat)
    requires Ordered(slots) && SlotsOk(slots) && FitsSlots(slots, vs, AnyDouble()) && DoublesOk(d) && s <= |slots|
    requires depth + SlotsHeight(slots) <= MAXIMUM_JSON_DEPTH
    requires DecodeSlots(slots[s..], EncodeSlots(slots, vs, d), d).Some?
    ensures |vs| == |slots|
        && RereadSlots(slots[s..], vs[s..], DecodeSlots(slots[s..], EncodeSlots(slots, vs, d), d).value, d)
    decreases slots, 2, |slots| - s
  {
    hide DoublesOk, Encode, Decode, Less, Ordered, Ascii, Find, EncodeSlots, KindOk, Height, Fits, SlotsHeight,
        SlotsOk, Reread;
    if s < |slots| {
      var ms := EncodeSlots(slots, vs, d);
      FitsAt(slots, vs, AnyDouble(), s);
      FindEncoded(slots, vs, d, AnyDouble(), s, depth);
      assert slots[s..][1..] == slots[s + 1..] && slots[s..][0] == slots[s];
      assert vs[s..][1..] == vs[s + 1..] && vs[s..][0] == vs[s];
      SlotRereads(slots[s], vs[s], ms, d, depth);
      SlotsReread(slots, vs, d, s + 1, depth);
      var vs' := DecodeSlots(slots[s..], ms, d).value;
      assert vs'[1..] == DecodeSlots(slots[s + 1..], ms, d).value;
    }
  }

  lemma SlotRereads(slot: Slot, v: Value, ms: seq<Member>, d: Doubles, depth: nat)
    requires KindOk(slot.kind) && Fits(slot.kind, v, AnyDouble()) && DoublesOk(d)
    requires depth + Height(slot.kind) <= MAXIMUM_JSON_DEPTH
    requires Find(ms, Ascii(slot.name)) == if v.AbsentV? then None else Some(Encode(slot.kind, v, d))
    requires DecodeSlot(slot, ms, d).Some?
    ensures Reread(slot.kind, v, DecodeSlot(slot, ms, d).value, d)
    decreases slot, 1, 0
  {
    hide DoublesOk, Encode, Decode, Height, Ascii, Find, KindOk;
    if v.AbsentV? {
      OnlyOptionalAbsent(slot.kind, v, AnyDouble());
    } else {
      DecodedRereads(slot.kind, v, d, depth);
    }
  }

  /** A value that is read back unchanged has only doubles that survive. */
  lemma {:induction false} UnchangedIsStable(k: Kind, v: Value, d: Doubles)
    requires Reread(k, v, v, d) && Fits(k, v, AnyDouble())
    ensures Fits(k, v, Stable(d))
    decreases k, 0
  {
    match k
    case ListK(item, most) =>
      forall i | 0 <= i < |v.items| ensures Fits(item, v.items[i], Stable(d)) {
        UnchangedIsStable(item, v.items[i], d);
      }
    case RecordK(slots) => SlotsAreStable(slots, v.fields, d);
    case OptionalK(inner) => if !v.AbsentV? { UnchangedIsStable(inner, v, d); }
    case _ =>
  }

  lemma {:induction false} SlotsAreStable(slots: seq<Slot>, vs: seq<Value>, d: Doubles)
    requires RereadSlots(slots, vs, vs, d) && FitsSlots(slots, vs, AnyDouble())
    ensures FitsSlots(slots, vs, Stable(d))
    decreases slots, 1
  {
    if slots != [] {
      UnchangedIsStable(slots[0].kind, vs[0], d);
      SlotsAreStable(slots[1..], vs[1..], d);
    }
  }

  lemma {:induction false} RereadAt(slots: seq<Slot>, vs: seq<Value>, vs': seq<Value>, d: Doubles, s: nat)
    requires RereadSlots(slots, vs, vs', d) && s < |slots|
    ensures |vs| == |vs'| == |slots| && Reread(slots[s].kind, vs[s], vs'[s], d)
  {
    hide Reread;
    if s > 0 { RereadAt(slots[1..], vs[1..], vs'[1..], d, s - 1); }
  }
}
