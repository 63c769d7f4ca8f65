/** Saving and loading a profile database: the two levels of integrity hashes, and what the two directions
    promise each other. The digest and the printing of doubles are parameters. */
module Profile {
  import opened Utf8
  import opened JsonGrammar
  import opened JsonPrinter
  import opened Schema
  import opened ProfileTables
  import JsonReader
  import JsonTheorems
  import opened Prelude

  datatype Codec = Codec(d: Doubles, hash: Bytes -> Bytes)

  /** A digest is a short ASCII string; doubles behave as the codec expects. */
  ghost predicate CodecOk(c: Codec)
  {
    DoublesOk(c.d) && forall text: Bytes :: StorableString(c.hash(text))
  }

  // ----- fields

  function FieldOf(v: Value, i: nat): Value
  {
    if v.RecordV? && i < |v.fields| then v.fields[i] else AbsentV
  }

  function WithField(v: Value, i: nat, x: Value): Value
  {
    if v.RecordV? && i < |v.fields| then RecordV(v.fields[i := x]) else v
  }

  lemma FieldUpdate(v: Value, i: nat, j: nat, x: Value, y: Value)
    ensures WithField(WithField(v, i, x), i, y) == WithField(v, i, y)
    ensures v.RecordV? && i < |v.fields| ==> FieldOf(WithField(v, i, x), i) == x
    ensures i != j ==> FieldOf(WithField(v, i, x), j) == FieldOf(v, j)
    ensures i != j ==> WithField(WithField(v, i, x), j, y) == WithField(WithField(v, j, y), i, x)
    ensures WithField(v, i, FieldOf(v, i)) == v
  {
    if v.RecordV? && i < |v.fields| {
      var fs := v.fields;
      assert fs[i := x][i := y] == fs[i := y] && fs[i := fs[i]] == fs;
      if j < |fs| && i != j { assert fs[i := x][j := y] == fs[j := y][i := x]; }
    }
  }

  // ----- hashes

  function Canonical(k: Kind, v: Value, c: Codec): Bytes
  {
    Print(Schema.Encode(k, v, c.d))
  }

  /** The hash of an entry covers everything but itself. */
  function EntryHash(e: Value, c: Codec): Bytes
  {
    c.hash(Canonical(EntryKind(), WithField(e, ENTRY_HASH, AbsentV), c))
  }

  function SealEntry(e: Value, c: Codec): Value
  {
    WithField(e, ENTRY_HASH, TextV(EntryHash(e, c)))
  }

  function SealEntries(es: seq<Value>, c: Codec): (r: seq<Value>)
    ensures |r| == |es| && forall i :: 0 <= i < |es| ==> r[i] == SealEntry(es[i], c)
  {
    seq(|es|, i requires 0 <= i < |es| => SealEntry(es[i], c))
  }

  function EntriesOf(db: Value): seq<Value>
  {
    if FieldOf(db, ENTRIES).ListV? then FieldOf(db, ENTRIES).items else []
  }

  function WithEntries(db: Value, es: seq<Value>): Value
  {
    WithField(db, ENTRIES, ListV(es))
  }

  /** database_json: the entries go out with their hashes computed afresh. */
  function Content(db: Value, c: Codec): Value
  {
    WithEntries(db, SealEntries(EntriesOf(db), c))
  }

  function ContentHash(db: Value, c: Codec): Bytes
  {
    c.hash(Canonical(DatabaseKind(), WithField(Content(db, c), CONTENT_HASH, AbsentV), c))
  }

  function Seal(db: Value, c: Codec): Value
  {
    WithField(Content(db, c), CONTENT_HASH, TextV(ContentHash(db, c)))
  }

  /** profile_database_to_canonical_json with the hash. */
  function Save(db: Value, c: Codec): Bytes
  {
    Canonical(DatabaseKind(), Seal(db, c), c)
  }

  // ----- loading

  function MaxOf(a: Value, b: Value): Value
  {
    if a.WholeV? && b.WholeV? then WholeV(Max(a.n, b.n)) else a
  }

  /** The numbers an older resource contract may lack. */
  function FillContract(r: Value): Value
  {
    var requested := FieldOf(r, REQUESTED_WORKERS);
    var preferred := if FieldOf(r, PREFERRED_WORKERS).AbsentV? then requested else FieldOf(r, PREFERRED_WORKERS);
    var maximum := if FieldOf(r, MAXIMUM_WORKERS).AbsentV? then MaxOf(requested, preferred)
                   else FieldOf(r, MAXIMUM_WORKERS);
    WithField(WithField(r, PREFERRED_WORKERS, preferred), MAXIMUM_WORKERS, maximum)
  }

  function FillEntry(e: Value): Value
  {
    var r := FieldOf(e, RESOURCE_CONTRACT);
    if r.AbsentV? then e else WithField(e, RESOURCE_CONTRACT, FillContract(r))
  }

  function FillEntries(es: seq<Value>): (r: seq<Value>)
    ensures |r| == |es| && forall i :: 0 <= i < |es| ==> r[i] == FillEntry(es[i])
  {
    seq(|es|, i requires 0 <= i < |es| => FillEntry(es[i]))
  }

  predicate Supported(db: Value)
  {
    var semantic := FieldOf(db, SEMANTIC_VERSION);
    FieldOf(db, SCHEMA_VERSION) == WholeV(1) && semantic.TextV? && semantic.text != [] && semantic.text[0] == 0x31
  }

  predicate EntryIntact(e: Value, c: Codec)
  {
    FieldOf(e, ENTRY_HASH) == TextV(EntryHash(e, c))
  }

  predicate EntriesIntact(es: seq<Value>, c: Codec)
  {
    forall i :: 0 <= i < |es| ==> EntryIntact(es[i], c)
  }

  predicate ContentIntact(db: Value, c: Codec)
  {
    FieldOf(db, CONTENT_HASH) == TextV(ContentHash(db, c))
  }

  /** parse_entry and the checks after it. */
  function Check(raw: Value, c: Codec): Option<Value>
  {
    var db := WithEntries(raw, FillEntries(EntriesOf(raw)));
    if Supported(db) && EntriesIntact(EntriesOf(db), c) && ContentIntact(db, c) then Some(db) else None
  }

  /** profile_database_from_json. */
  function Load(text: Bytes, c: Codec): Option<Value>
  {
    match JsonReader.Parse(text, InRange(c.d))
    case Failed => None
    case Done(j, n) =>
      match Schema.Decode(DatabaseKind(), j, c.d)
      case None => None
      case Some(raw) => Check(raw, c)
  }

  /** validate_profile_database_integrity reports nothing. */
  predicate Integrity(db: Value, c: Codec)
  {
    FieldOf(db, SCHEMA_VERSION) == WholeV(1) && ContentIntact(db, c) && EntriesIntact(EntriesOf(db), c)
  }

  // ----- shapes

  /** What shape a database and its entries have. */
  predicate Shaped(db: Value)
  {
    && db.RecordV? && |db.fields| == 7 && db.fields[ENTRIES].ListV?
    && forall i :: 0 <= i < |EntriesOf(db)| ==> EntriesOf(db)[i].RecordV? && |EntriesOf(db)[i].fields| == 25
  }

  lemma FitsShaped(db: Value, ok: nat -> bool)
    requires Fits(DatabaseKind(), db, ok)
    ensures Shaped(db) && |EntriesOf(db)| <= MAXIMUM_PROFILE_ENTRIES
    ensures forall i :: 0 <= i < |EntriesOf(db)| ==> Fits(EntryKind(), EntriesOf(db)[i], ok)
  {
    hide DatabaseSlots, EntrySlots, FitsSlots, KindOk, SlotsOk, Ordered;
    DatabasePositions();
    DatabaseTable();
    RecordFits(DatabaseSlots(), db, ok);
    RecordFitsAt(DatabaseSlots(), db, ok, ENTRIES);
    forall i | 0 <= i < |EntriesOf(db)| ensures EntriesOf(db)[i].RecordV? && |EntriesOf(db)[i].fields| == 25 {
      EntryPositions();
      RecordFits(EntrySlots(), EntriesOf(db)[i], ok);
    }
  }

  lemma RecordFits(slots: seq<Slot>, v: Value, ok: nat -> bool)
    requires Fits(RecordK(slots), v, ok)
    ensures v.RecordV? && |v.fields| == |slots| && FitsSlots(slots, v.fields, ok)
  {
  }

  lemma RecordFitsAt(slots: seq<Slot>, v: Value, ok: nat -> bool, i: nat)
    requires Fits(RecordK(slots), v, ok) && KindOk(RecordK(slots)) && i < |slots|
    ensures v.RecordV? && |v.fields| == |slots| && Fits(slots[i].kind, v.fields[i], ok)
  {
    hide Ordered, Less;
    FitsAt(slots, v.fields, ok, i);
  }

  /** Replacing one field by another that fits keeps a record fitting. */
  lemma {:induction false} FitsUpdate(slots: seq<Slot>, vs: seq<Value>, ok: nat -> bool, i: nat, x: Value)
    requires FitsSlots(slots, vs, ok) && i < |slots| && Fits(slots[i].kind, x, ok)
    ensures |vs| == |slots| && FitsSlots(slots, vs[i := x], ok)
  {
    hide Fits;
    if i == 0 {
      assert vs[i := x][1..] == vs[1..];
    } else {
      FitsUpdate(slots[1..], vs[1..], ok, i - 1, x);
      assert vs[i := x][1..] == vs[1..][i - 1 := x];
    }
  }

  lemma RecordUpdate(slots: seq<Slot>, v: Value, ok: nat -> bool, i: nat, x: Value)
    requires Fits(RecordK(slots), v, ok) && i < |slots| && Fits(slots[i].kind, x, ok)
    ensures Fits(RecordK(slots), WithField(v, i, x), ok)
  {
    FitsUpdate(slots, v.fields, ok, i, x);
  }

  // ----- sealing

  lemma SealEntryTwice(e: Value, c: Codec)
    ensures SealEntry(SealEntry(e, c), c) == SealEntry(e, c) && EntryHash(SealEntry(e, c), c) == EntryHash(e, c)
    ensures e.RecordV? && |e.fields| == 25 ==> EntryIntact(SealEntry(e, c), c)
    ensures EntryIntact(e, c) ==> SealEntry(e, c) == e
  {
    hide Canonical;
    FieldUpdate(e, ENTRY_HASH, 0, TextV(EntryHash(e, c)), AbsentV);
    FieldUpdate(e, ENTRY_HASH, 0, TextV(EntryHash(e, c)), TextV(EntryHash(e, c)));
  }

  lemma SealEntriesTwice(es: seq<Value>, c: Codec)
    ensures SealEntries(SealEntries(es, c), c) == SealEntries(es, c)
    ensures EntriesIntact(es, c) ==> SealEntries(es, c) == es
  {
    hide SealEntry, EntryHash;
    forall i | 0 <= i < |es|
      ensures SealEntry(SealEntry(es[i], c), c) == SealEntry(es[i], c)
      ensures EntryIntact(es[i], c) ==> SealEntry(es[i], c) == es[i]
    {
      SealEntryTwice(es[i], c);
    }
  }

  lemma EntriesAfterSeal(db: Value, c: Codec)
    requires Shaped(db)
    ensures EntriesOf(Seal(db, c)) == SealEntries(EntriesOf(db), c)
    ensures ContentHash(Seal(db, c), c) == ContentHash(db, c)
    ensures Content(Seal(db, c), c) == Seal(db, c)
    ensures FieldOf(Seal(db, c), CONTENT_HASH) == TextV(ContentHash(db, c))
    ensures Supported(Seal(db, c)) <==> Supported(db)
  {
    hide Canonical, SealEntry, SealEntries, FieldOf, WithField, Shaped;
    var es := EntriesOf(db);
    var content := Content(db, c);
    var text := TextV(ContentHash(db, c));
    ShapedFields(db);
    FieldUpdate(db, ENTRIES, CONTENT_HASH, ListV(SealEntries(es, c)), AbsentV);
    FieldUpdate(db, ENTRIES, SCHEMA_VERSION, ListV(SealEntries(es, c)), AbsentV);
    FieldUpdate(db, ENTRIES, SEMANTIC_VERSION, ListV(SealEntries(es, c)), AbsentV);
    FieldUpdate(content, CONTENT_HASH, ENTRIES, text, AbsentV);
    FieldUpdate(content, CONTENT_HASH, SCHEMA_VERSION, text, AbsentV);
    FieldUpdate(content, CONTENT_HASH, SEMANTIC_VERSION, text, AbsentV);
    SealEntriesTwice(es, c);
    FieldUpdate(Seal(db, c), ENTRIES, 0, ListV(SealEntries(es, c)), AbsentV);
  }

  lemma ShapedFields(db: Value)
    requires Shaped(db)
    ensures FieldOf(db, ENTRIES) == ListV(EntriesOf(db)) && db.RecordV? && |db.fields| == 7
    ensures forall es: seq<Value> {:trigger WithEntries(db, es)} ::
              WithEntries(db, es).RecordV? && |WithEntries(db, es).fields| == 7
  {
  }

  lemma SealEntryFits(e: Value, c: Codec, ok: nat -> bool)
    requires Fits(EntryKind(), e, ok) && CodecOk(c)
    ensures Fits(EntryKind(), SealEntry(e, c), ok)
  {
    hide EntrySlots, DoublesOk, Canonical, Utf8String, FitsSlots;
    EntryPositions();
    RecordUpdate(EntrySlots(), e, ok, ENTRY_HASH, TextV(EntryHash(e, c)));
  }

  lemma EntriesFit(es: seq<Value>, ok: nat -> bool)
    requires |es| <= MAXIMUM_PROFILE_ENTRIES && forall i :: 0 <= i < |es| ==> Fits(EntryKind(), es[i], ok)
    ensures Fits(ListK(EntryKind(), MAXIMUM_PROFILE_ENTRIES), ListV(es), ok)
  {
    hide EntryKind;
  }

  /** A database that fits still fits with its hashes filled in. */
  lemma SealFits(db: Value, c: Codec, ok: nat -> bool)
    requires Fits(DatabaseKind(), db, ok) && CodecOk(c)
    ensures Fits(DatabaseKind(), Seal(db, c), ok)
  {
    hide DatabaseSlots, EntrySlots, DoublesOk, Canonical, Utf8String, FitsSlots, SealEntry;
    FitsShaped(db, ok);
    DatabasePositions();
    var es := SealEntries(EntriesOf(db), c);
    forall i | 0 <= i < |es| ensures Fits(EntryKind(), es[i], ok) {
      SealEntryFits(EntriesOf(db)[i], c, ok);
    }
    EntriesFit(es, ok);
    RecordUpdate(DatabaseSlots(), db, ok, ENTRIES, ListV(es));
    RecordUpdate(DatabaseSlots(), Content(db, c), ok, CONTENT_HASH, TextV(ContentHash(db, c)));
  }

  /** The hash of a record that fits can be put back: texts hold no doubles. */
  lemma RestoreFits(slots: seq<Slot>, v: Value, i: nat, x: Value, ok: nat -> bool)
    requires Fits(RecordK(slots), v, AnyDouble()) && KindOk(RecordK(slots)) && i < |slots| && slots[i].kind == TextK
    requires Fits(RecordK(slots), WithField(v, i, x), ok)
    ensures Fits(RecordK(slots), v, ok)
  {
    hide FitsSlots, KindOk, WithField, FieldOf;
    RecordFitsAt(slots, v, AnyDouble(), i);
    FieldIs(v, i);
    FieldUpdate(v, i, 0, x, FieldOf(v, i));
    RecordUpdate(slots, WithField(v, i, x), ok, i, FieldOf(v, i));
  }

  lemma FieldIs(v: Value, i: nat)
    requires v.RecordV? && i < |v.fields|
    ensures FieldOf(v, i) == v.fields[i]
  {
  }

  /** So the doubles of a database are those of the database with its hashes filled in. */
  lemma UnsealFits(db: Value, c: Codec, ok: nat -> bool)
    requires Fits(DatabaseKind(), db, AnyDouble()) && CodecOk(c) && Fits(DatabaseKind(), Seal(db, c), ok)
    ensures Fits(DatabaseKind(), db, ok)
  {
    hide DatabaseSlots, EntrySlots, DoublesOk, Canonical, Utf8String, FitsSlots, SealEntry, KindOk;
    FitsShaped(db, AnyDouble());
    FitsShaped(Seal(db, c), ok);
    DatabasePositions();
    EntryPositions();
    DatabaseTable();
    EntryTable();
    SealFits(db, c, AnyDouble());
    EntriesAfterSeal(db, c);
    var es := EntriesOf(db);
    forall i | 0 <= i < |es| ensures Fits(EntryKind(), es[i], ok) {
      SealedEntryIs(es[i], c);
      RestoreFits(EntrySlots(), es[i], ENTRY_HASH, TextV(EntryHash(es[i], c)), ok);
    }
    EntriesFit(es, ok);
    ContentFits(db, c);
    RestoreFits(DatabaseSlots(), Content(db, c), CONTENT_HASH, TextV(ContentHash(db, c)), ok);
    RecordUpdate(DatabaseSlots(), Content(db, c), ok, ENTRIES, ListV(es));
    FieldUpdate(db, ENTRIES, 0, ListV(SealEntries(es, c)), ListV(es));
  }

  lemma SealedEntryIs(e: Value, c: Codec)
    ensures SealEntry(e, c) == WithField(e, ENTRY_HASH, TextV(EntryHash(e, c)))
  {
  }

  lemma ContentFits(db: Value, c: Codec)
    requires Fits(DatabaseKind(), db, AnyDouble()) && CodecOk(c)
    ensures Fits(DatabaseKind(), Content(db, c), AnyDouble())
  {
    hide DatabaseSlots, EntrySlots, DoublesOk, Canonical, Utf8String, FitsSlots, SealEntry;
    FitsShaped(db, AnyDouble());
    DatabasePositions();
    var es := SealEntries(EntriesOf(db), c);
    forall i | 0 <= i < |es| ensures Fits(EntryKind(), es[i], AnyDouble()) {
      SealEntryFits(EntriesOf(db)[i], c, AnyDouble());
    }
    EntriesFit(es, AnyDouble());
    RecordUpdate(DatabaseSlots(), db, AnyDouble(), ENTRIES, ListV(es));
  }

  // ----- resource contracts

  /** The contract names its preferred and its largest number of workers, as every contract in memory does. */
  predicate ContractComplete(e: Value)
  {
    var r := FieldOf(e, RESOURCE_CONTRACT);
    r.AbsentV? || (!FieldOf(r, PREFERRED_WORKERS).AbsentV? && !FieldOf(r, MAXIMUM_WORKERS).AbsentV?)
  }

  predicate Complete(db: Value)
  {
    forall i :: 0 <= i < |EntriesOf(db)| ==> ContractComplete(EntriesOf(db)[i])
  }

  lemma CompleteStays(e: Value)
    requires ContractComplete(e)
    ensures FillEntry(e) == e
  {
    var r := FieldOf(e, RESOURCE_CONTRACT);
    FieldUpdate(r, PREFERRED_WORKERS, 0, AbsentV, AbsentV);
    FieldUpdate(r, MAXIMUM_WORKERS, 0, AbsentV, AbsentV);
    FieldUpdate(e, RESOURCE_CONTRACT, 0, AbsentV, AbsentV);
  }

  lemma FilledContract(r: Value, ok: nat -> bool)
    requires Fits(RecordK(ContractSlots()), r, ok)
    ensures var f := FillContract(r);
      && Fits(RecordK(ContractSlots()), f, ok)
      && !FieldOf(f, PREFERRED_WORKERS).AbsentV? && !FieldOf(f, MAXIMUM_WORKERS).AbsentV?
  {
    hide ContractSlots, FitsSlots, KindOk, Ordered;
    ContractPositions();
    ContractTable();
    RecordFitsAt(ContractSlots(), r, ok, REQUESTED_WORKERS);
    RecordFitsAt(ContractSlots(), r, ok, PREFERRED_WORKERS);
    RecordFitsAt(ContractSlots(), r, ok, MAXIMUM_WORKERS);
    var requested := FieldOf(r, REQUESTED_WORKERS);
    var preferred := if FieldOf(r, PREFERRED_WORKERS).AbsentV? then requested else FieldOf(r, PREFERRED_WORKERS);
    var maximum := if FieldOf(r, MAXIMUM_WORKERS).AbsentV? then MaxOf(requested, preferred)
                   else FieldOf(r, MAXIMUM_WORKERS);
    RecordUpdate(ContractSlots(), r, ok, PREFERRED_WORKERS, preferred);
    RecordUpdate(ContractSlots(), WithField(r, PREFERRED_WORKERS, preferred), ok, MAXIMUM_WORKERS, maximum);
  }

  lemma FilledEntry(e: Value, ok: nat -> bool)
    requires Fits(EntryKind(), e, ok)
    ensures Fits(EntryKind(), FillEntry(e), ok) && ContractComplete(FillEntry(e))
  {
    hide EntrySlots, ContractSlots, FitsSlots, KindOk, FillContract;
    EntryPositions();
    EntryTable();
    RecordFitsAt(EntrySlots(), e, ok, RESOURCE_CONTRACT);
    var r := FieldOf(e, RESOURCE_CONTRACT);
    if !r.AbsentV? {
      FilledContract(r, ok);
      RecordUpdate(EntrySlots(), e, ok, RESOURCE_CONTRACT, FillContract(r));
      FieldUpdate(e, RESOURCE_CONTRACT, 0, FillContract(r), AbsentV);
    }
  }

  lemma FilledDatabase(raw: Value, ok: nat -> bool)
    requires Fits(DatabaseKind(), raw, ok)
    ensures var db := WithEntries(raw, FillEntries(EntriesOf(raw)));
      Fits(DatabaseKind(), db, ok) && Complete(db) && EntriesOf(db) == FillEntries(EntriesOf(raw))
  {
    hide DatabaseSlots, EntrySlots, FitsSlots, KindOk, FillEntry, ContractComplete;
    FitsShaped(raw, ok);
    DatabasePositions();
    var es := FillEntries(EntriesOf(raw));
    forall i | 0 <= i < |es| ensures Fits(EntryKind(), es[i], ok) && ContractComplete(es[i]) {
      FilledEntry(EntriesOf(raw)[i], ok);
    }
    EntriesFit(es, ok);
    RecordUpdate(DatabaseSlots(), raw, ok, ENTRIES, ListV(es));
  }

  // ----- main results

  /** Every database that loads, from whatever text and with whatever doubles in it, passes the integrity
      validation: its hashes are those that saving would compute. */
  lemma LoadedIsIntact(text: Bytes, c: Codec)
    requires CodecOk(c) && Load(text, c).Some?
    ensures var db := Load(text, c).value;
      && Integrity(db, c) && Seal(db, c) == db && Supported(db)
      && Fits(DatabaseKind(), db, AnyDouble()) && Complete(db)
  {
    hide DatabaseSlots, EntrySlots, DoublesOk, Canonical, Utf8String, FitsSlots, Complete, EntriesIntact, Fits,
      Storable;
    var j := JsonReader.Parse(text, InRange(c.d)).value;
    JsonTheorems.AcceptedIsStorable(text, InRange(c.d));
    DatabaseTable();
    DecodedFits(DatabaseKind(), j, c.d, 0);
    var raw := Schema.Decode(DatabaseKind(), j, c.d).value;
    FilledDatabase(raw, AnyDouble());
    var db := Load(text, c).value;
    FitsShaped(db, AnyDouble());
    SealEntriesTwice(EntriesOf(db), c);
    FieldUpdate(db, ENTRIES, 0, AbsentV, AbsentV);
    FieldUpdate(db, CONTENT_HASH, 0, AbsentV, AbsentV);
  }

  lemma SealedPasses(db: Value, c: Codec)
    requires Shaped(db) && Complete(db)
    ensures Check(Seal(db, c), c) == if Supported(db) then Some(Seal(db, c)) else None
  {
    hide Canonical, SealEntry, FillEntry, ContractComplete, Supported, Seal, ContentHash;
    EntriesAfterSeal(db, c);
    var sealed := Seal(db, c);
    var es := EntriesOf(sealed);
    forall i | 0 <= i < |es| ensures FillEntry(es[i]) == es[i] && EntryIntact(es[i], c) {
      SealedEntryComplete(EntriesOf(db)[i], c);
    }
    assert FillEntries(es) == es;
    SealedShape(db, c);
    FieldUpdate(sealed, ENTRIES, 0, AbsentV, AbsentV);
  }

  lemma SealedShape(db: Value, c: Codec)
    requires Shaped(db)
    ensures FieldOf(Seal(db, c), ENTRIES) == ListV(EntriesOf(Seal(db, c)))
  {
    hide Canonical, SealEntry;
  }

  lemma SealedEntryComplete(e: Value, c: Codec)
    requires e.RecordV? && |e.fields| == 25 && ContractComplete(e)
    ensures FillEntry(SealEntry(e, c)) == SealEntry(e, c) && EntryIntact(SealEntry(e, c), c)
    ensures ContractComplete(SealEntry(e, c))
  {
    hide Canonical;
    SealEntryTwice(e, c);
    FieldUpdate(e, ENTRY_HASH, RESOURCE_CONTRACT, TextV(EntryHash(e, c)), AbsentV);
    CompleteStays(SealEntry(e, c));
  }

  lemma StableReloads(db: Value, c: Codec)
    requires CodecOk(c) && Fits(DatabaseKind(), db, Stable(c.d)) && Complete(db)
    ensures Load(Save(db, c), c) ==
            if |Save(db, c)| <= MAXIMUM_PROFILE_BYTES && Supported(db) then Some(Seal(db, c)) else None
  {
    hide DatabaseSlots, EntrySlots, DoublesOk, Utf8String, FitsSlots, Complete, Fits, Storable, Seal, Supported,
      KindOk, Print;
    SealFits(db, c, Stable(c.d));
    FitsShaped(db, Stable(c.d));
    DatabaseTable();
    var sealed := Seal(db, c);
    SealedIsRecord(db, c);
    PrintsIntoBoth(c.d, AnyDouble());
    EncodeStorable(DatabaseKind(), sealed, c.d, Stable(c.d), InRange(c.d), 0);
    DecodeEncoded(DatabaseKind(), sealed, c.d, 0);
    SealedPasses(db, c);
    var j := Schema.Encode(DatabaseKind(), sealed, c.d);
    if |Print(j)| <= MAXIMUM_PROFILE_BYTES {
      JsonTheorems.RoundTrip(j, InRange(c.d));
    }
  }

  /** Whatever the reader makes of a saved text is the value that was printed. */
  lemma SavedParses(db: Value, c: Codec)
    requires CodecOk(c) && Fits(DatabaseKind(), db, AnyDouble())
    requires JsonReader.Parse(Save(db, c), InRange(c.d)).Done?
    ensures JsonReader.Parse(Save(db, c), InRange(c.d)).value == Schema.Encode(DatabaseKind(), Seal(db, c), c.d)
  {
    hide DatabaseSlots, EntrySlots, DoublesOk, Utf8String, FitsSlots, Fits, Storable, Seal, KindOk, Print;
    SealFits(db, c, AnyDouble());
    FitsShaped(db, AnyDouble());
    DatabaseTable();
    SealedIsRecord(db, c);
    PrintsIntoBoth(c.d, AnyDouble());
    var j := Schema.Encode(DatabaseKind(), Seal(db, c), c.d);
    EncodeStorable(DatabaseKind(), Seal(db, c), c.d, AnyDouble(), AnyText(), 0);
    JsonTheorems.WiderReads(Save(db, c), InRange(c.d), AnyText());
    assert |Print(j)| <= MAXIMUM_PROFILE_BYTES by { hide *; TooLong(Save(db, c), InRange(c.d)); }
    JsonTheorems.RoundTrip(j, AnyText());
  }

  lemma TooLong(text: Bytes, inRange: Bytes -> bool)
    requires JsonReader.Parse(text, inRange).Done?
    ensures |text| <= MAXIMUM_PROFILE_BYTES
  {
  }

  /** What is read back has the contracts that were written. */
  lemma RereadComplete(e: Value, e': Value, d: Doubles)
    requires Reread(EntryKind(), e, e', d) && ContractComplete(e)
    ensures ContractComplete(e')
  {
    hide EntrySlots, ContractSlots, RereadSlots;
    EntryPositions();
    ContractPositions();
    RereadAt(EntrySlots(), e.fields, e'.fields, d, RESOURCE_CONTRACT);
    var r, r' := FieldOf(e, RESOURCE_CONTRACT), FieldOf(e', RESOURCE_CONTRACT);
    if !r.AbsentV? {
      RereadAt(ContractSlots(), r.fields, r'.fields, d, PREFERRED_WORKERS);
      RereadAt(ContractSlots(), r.fields, r'.fields, d, MAXIMUM_WORKERS);
    }
  }

  lemma RereadEntries(db: Value, db': Value, d: Doubles)
    requires Reread(DatabaseKind(), db, db', d) && Complete(db)
    ensures WithEntries(db', FillEntries(EntriesOf(db'))) == db'
  {
    hide DatabaseSlots, EntryKind, RereadSlots, FillEntry, ContractComplete;
    DatabasePositions();
    RereadAt(DatabaseSlots(), db.fields, db'.fields, d, ENTRIES);
    var es, es' := EntriesOf(db), EntriesOf(db');
    forall i | 0 <= i < |es'| ensures FillEntry(es'[i]) == es'[i] {
      assert Reread(EntryKind(), es[i], es'[i], d);
      RereadComplete(es[i], es'[i], d);
      CompleteStays(es'[i]);
    }
    assert FillEntries(es') == es';
    FieldUpdate(db', ENTRIES, 0, AbsentV, AbsentV);
  }

  lemma SealedComplete(db: Value, c: Codec)
    requires Shaped(db) && Complete(db)
    ensures Complete(Seal(db, c))
  {
    hide Canonical, SealEntry, ContractComplete, Seal, ContentHash;
    EntriesAfterSeal(db, c);
    forall i | 0 <= i < |EntriesOf(db)| ensures ContractComplete(SealEntry(EntriesOf(db)[i], c)) {
      SealedEntryComplete(EntriesOf(db)[i], c);
    }
  }

  /** A saved database that loads as it was has only doubles that survive. */
  lemma ReloadedIsStable(db: Value, c: Codec)
    requires CodecOk(c) && Fits(DatabaseKind(), db, AnyDouble()) && Complete(db)
    requires Load(Save(db, c), c) == Some(Seal(db, c))
    ensures Fits(DatabaseKind(), db, Stable(c.d))
  {
    hide DatabaseSlots, EntrySlots, DoublesOk, Utf8String, FitsSlots, Complete, Fits, Storable, Seal, Supported,
      KindOk, Print, Canonical, EntriesIntact, ContentIntact, Reread, ContractComplete;
    var sealed := Seal(db, c);
    FitsShaped(db, AnyDouble());
    SealFits(db, c, AnyDouble());
    SealedIsRecord(db, c);
    SealedComplete(db, c);
    SavedParses(db, c);
    DatabaseTable();
    DecodedRereads(DatabaseKind(), sealed, c.d, 0);
    var raw := Schema.Decode(DatabaseKind(), Schema.Encode(DatabaseKind(), sealed, c.d), c.d).value;
    RereadEntries(sealed, raw, c.d);
    assert raw == sealed;
    UnchangedIsStable(DatabaseKind(), sealed, c.d);
    UnsealFits(db, c, Stable(c.d));
  }

  /** Saved databases reload: the text that saving writes loads as the database with its hashes filled in
      exactly when it is not too long for the reader, the versions are the supported ones, and every double
      of the database survives being printed and read. */
  lemma SavedReloads(db: Value, c: Codec)
    requires CodecOk(c) && Fits(DatabaseKind(), db, AnyDouble()) && Complete(db)
    ensures Load(Save(db, c), c) == Some(Seal(db, c)) <==>
            |Save(db, c)| <= MAXIMUM_PROFILE_BYTES && Supported(db) && Fits(DatabaseKind(), db, Stable(c.d))
  {
    hide Load, Save, Seal, Fits, Complete, Supported, CodecOk;
    if Fits(DatabaseKind(), db, Stable(c.d)) {
      StableReloads(db, c);
    } else if Load(Save(db, c), c) == Some(Seal(db, c)) {
      ReloadedIsStable(db, c);
    }
  }

  lemma SealedIsRecord(db: Value, c: Codec)
    requires Shaped(db)
    ensures Seal(db, c).RecordV?
  {
    hide Canonical, SealEntry;
  }

  /** Saving what was saved changes not a byte. */
  lemma ResavingIsIdentical(db: Value, c: Codec)
    requires Shaped(db)
    ensures Seal(Seal(db, c), c) == Seal(db, c) && Save(Seal(db, c), c) == Save(db, c)
  {
    hide Canonical, SealEntry, ContentHash, Content;
    EntriesAfterSeal(db, c);
    FieldUpdate(Seal(db, c), CONTENT_HASH, 0, TextV(ContentHash(db, c)), TextV(ContentHash(db, c)));
  }

  /** A database that was loaded can be saved and loaded again without any change, size permitting, exactly
      when every double in it survives being printed and read. */
  lemma LoadedReloads(text: Bytes, c: Codec)
    requires CodecOk(c) && Load(text, c).Some?
    ensures var db := Load(text, c).value;
      |Save(db, c)| <= MAXIMUM_PROFILE_BYTES ==>
        (Load(Save(db, c), c) == Some(db) <==> Fits(DatabaseKind(), db, Stable(c.d)))
  {
    hide Load, Save, Seal, Fits, Complete, Supported, Integrity;
    LoadedIsIntact(text, c);
    SavedReloads(Load(text, c).value, c);
  }

  // ----- looking up an entry

  predicate Matches(e: Value, operation: Bytes, fingerprint: Bytes, policy: nat)
  {
    && FieldOf(e, OPERATION) == TextV(operation)
    && FieldOf(FieldOf(e, WORKLOAD), EXACT_FINGERPRINT) == TextV(fingerprint)
    && FieldOf(e, NUMERICAL_POLICY) == ChoiceV(policy)
  }

  /** find_exact: the first entry that matches. */
  method FindExact(db: Value, operation: Bytes, fingerprint: Bytes, policy: nat) returns (found: Option<nat>)
    ensures match found
            case Some(i) => FirstMatch(EntriesOf(db), operation, fingerprint, policy, i)
            case None => forall i :: 0 <= i < |EntriesOf(db)| ==> !Matches(EntriesOf(db)[i], operation, fingerprint, policy)
  {
    var entries := EntriesOf(db);
    for i := 0 to |entries|
      invariant forall k :: 0 <= k < i ==> !Matches(entries[k], operation, fingerprint, policy)
    {
      if Matches(entries[i], operation, fingerprint, policy) { return Some(i); }
    }
    found := None;
  }

  predicate FirstMatch(es: seq<Value>, operation: Bytes, fingerprint: Bytes, policy: nat, i: nat)
  {
    && i < |es| && Matches(es[i], operation, fingerprint, policy)
    && forall k :: 0 <= k < i ==> !Matches(es[k], operation, fingerprint, policy)
  }

  /** Saving and loading keeps every answer of find_exact: the same entry is found, or none. */
  lemma LookupsSurvive(db: Value, c: Codec, operation: Bytes, fingerprint: Bytes, policy: nat, i: nat)
    requires Shaped(db)
    ensures |EntriesOf(Seal(db, c))| == |EntriesOf(db)|
    ensures i < |EntriesOf(db)| ==>
              (Matches(EntriesOf(Seal(db, c))[i], operation, fingerprint, policy) <==>
               Matches(EntriesOf(db)[i], operation, fingerprint, policy))
    ensures FirstMatch(EntriesOf(Seal(db, c)), operation, fingerprint, policy, i) <==>
            FirstMatch(EntriesOf(db), operation, fingerprint, policy, i)
  {
    hide Canonical, EntryHash, Seal;
    EntriesAfterSeal(db, c);
    var es := EntriesOf(db);
    forall k | 0 <= k < |es|
      ensures Matches(SealEntry(es[k], c), operation, fingerprint, policy) <==> Matches(es[k], operation,
          fingerprint, policy)
    {
      var text := TextV(EntryHash(es[k], c));
      FieldUpdate(es[k], ENTRY_HASH, OPERATION, text, AbsentV);
      FieldUpdate(es[k], ENTRY_HASH, WORKLOAD, text, AbsentV);
      FieldUpdate(es[k], ENTRY_HASH, NUMERICAL_POLICY, text, AbsentV);
    }
  }
}
