/** The fields of a profile database, as schemas in key order. */
module ProfileTables {
  import opened JsonGrammar
  import opened JsonPrinter
  import opened Schema
  import JsonTheorems

  const MAXIMUM_PROFILE_ENTRIES: nat := 4096

  // ----- the names of enumerators

  function Engines(): seq<string>
  {
    ["auto", "thread_pool", "static_thread", "one_tbb"]
  }

  function Strategies(): seq<string>
  {
    ["sequential", "static_chunks", "dynamic_chunks"]
  }

  function Policies(): seq<string>
  {
    ["Fast", "Reproducible", "Accurate"]
  }

  function Statuses(): seq<string>
  {
    ["Candidate", "Approved"]
  }

  function WaitPolicies(): seq<string>
  {
    ["fail_immediately", "wait", "wait_until_deadline"]
  }

  function NestedModes(): seq<string>
  {
    ["not_nested", "reuse_parent", "partition_parent", "sequential_within_parent"]
  }

  function ControlScopes(): seq<string>
  {
    ["per_call", "per_thread", "per_task", "process_global"]
  }

  function ControlStrengths(): seq<string>
  {
    ["exact", "upper_bound", "advisory", "serialized_process_global", "unsupported"]
  }

  // ----- the fields, in key order

  function EnvironmentSlots(): seq<Slot>
  {
    EnvironmentSlots1() + EnvironmentSlots2() + EnvironmentSlots3() + EnvironmentSlots4()
  }

  function EnvironmentSlots1(): seq<Slot>
  {
    [Slot("application_build_identifier", TextK),
     Slot("architecture", TextK),
     Slot("build_type", TextK),
     Slot("compiler_identity", TextK),
     Slot("compiler_version", TextK)]
  }

  function EnvironmentSlots2(): seq<Slot>
  {
    [Slot("cpu_identity", TextK),
     Slot("endianness", TextK),
     Slot("feature_macros", TextK),
     Slot("floating_point_environment", TextK),
     Slot("opencv_version", TextK)]
  }

  function EnvironmentSlots3(): seq<Slot>
  {
    [Slot("os_family", TextK),
     Slot("pointer_width", WholeK),
     Slot("required_isa", TextK),
     Slot("smartparallel_build_fingerprint", TextK),
     Slot("smartparallel_version", TextK)]
  }

  function EnvironmentSlots4(): seq<Slot>
  {
    [Slot("standard_library_identity", TextK),
     Slot("tbb_version", TextK)]
  }

  function WorkloadSlots(): seq<Slot>
  {
    WorkloadSlots1() + WorkloadSlots2()
  }

  function WorkloadSlots1(): seq<Slot>
  {
    [Slot("boundary_mode", TextK),
     Slot("exact_fingerprint", TextK),
     Slot("extents", ListK(WholeK, MAXIMUM_VECTOR_ITEMS)),
     Slot("in_place", FlagK),
     Slot("layout", TextK)]
  }

  function WorkloadSlots2(): seq<Slot>
  {
    [Slot("semantic_constants", TextK),
     Slot("strides", ListK(WholeK, MAXIMUM_VECTOR_ITEMS))]
  }

  function EvidenceSlots(): seq<Slot>
  {
    EvidenceSlots1() + EvidenceSlots2() + EvidenceSlots3()
  }

  function EvidenceSlots1(): seq<Slot>
  {
    [Slot("confidence", RealK),
     Slot("correctness_passed", FlagK),
     Slot("created_utc", TextK),
     Slot("expires_utc", TextK),
     Slot("holdout_passed", FlagK)]
  }

  function EvidenceSlots2(): seq<Slot>
  {
    [Slot("median_duration_ms", RealK),
     Slot("numerical_capability_passed", FlagK),
     Slot("route_authenticated", FlagK),
     Slot("route_switch_count", WholeK),
     Slot("sample_count", WholeK)]
  }

  function EvidenceSlots3(): seq<Slot>
  {
    [Slot("source_calibration_id", TextK),
     Slot("variability_ms", RealK)]
  }

  function PlanSlots(): seq<Slot>
  {
    [Slot("chunk_size", WholeK),
     Slot("engine", ChoiceK(Engines())),
     Slot("job_count", WholeK),
     Slot("parallel", FlagK),
     Slot("strategy", ChoiceK(Strategies()))]
  }

  function ContractSlots(): seq<Slot>
  {
    ContractSlots1() + ContractSlots2() + ContractSlots3()
  }

  function ContractSlots1(): seq<Slot>
  {
    [Slot("exact_grant_required", FlagK),
     Slot("granted_workers", WholeK),
     Slot("lease_wait_policy", ChoiceK(WaitPolicies())),
     Slot("maximum_workers", OptionalK(WholeK)),
     Slot("minimum_workers", WholeK)]
  }

  function ContractSlots2(): seq<Slot>
  {
    [Slot("nested_lease_mode", ChoiceK(NestedModes())),
     Slot("observed_participating_threads", WholeK),
     Slot("preferred_workers", OptionalK(WholeK)),
     Slot("provider_control_scope", ChoiceK(ControlScopes())),
     Slot("provider_control_strength", ChoiceK(ControlStrengths()))]
  }

  function ContractSlots3(): seq<Slot>
  {
    [Slot("provider_serialized", FlagK),
     Slot("requested_workers", WholeK),
     Slot("scheduler_concurrency_cap", WholeK)]
  }

  function EntrySlots(): seq<Slot>
  {
    EntrySlots1() + EntrySlots2() + EntrySlots3() + EntrySlots4() + EntrySlots5()
  }

  function EntrySlots1(): seq<Slot>
  {
    [Slot("accumulation_algorithm", TextK),
     Slot("actual_worker_policy", TextK),
     Slot("candidate_source_hash", TextK),
     Slot("canonical_plan", TextK),
     Slot("capability_requirements", TextK)]
  }

  function EntrySlots2(): seq<Slot>
  {
    [Slot("element_type", TextK),
     Slot("entry_hash", TextK),
     Slot("environment", RecordK(EnvironmentSlots())),
     Slot("evaluation_order", TextK),
     Slot("evidence", RecordK(EvidenceSlots()))]
  }

  function EntrySlots3(): seq<Slot>
  {
    [Slot("exact_worker_budget", WholeK),
     Slot("execution_plan", RecordK(PlanSlots())),
     Slot("implementation_route", TextK),
     Slot("numerical_capability", TextK),
     Slot("numerical_policy", ChoiceK(Policies()))]
  }

  function EntrySlots4(): seq<Slot>
  {
    [Slot("operation", TextK),
     Slot("operation_semantic_version", TextK),
     Slot("plan_semantic_version", TextK),
     Slot("profile_status", ChoiceK(Statuses())),
     Slot("provider", TextK)]
  }

  function EntrySlots5(): seq<Slot>
  {
    [Slot("provider_settings", TextK),
     Slot("provider_version", TextK),
     Slot("resource_contract", OptionalK(RecordK(ContractSlots()))),
     Slot("simd_kernel", TextK),
     Slot("workload", RecordK(WorkloadSlots()))]
  }

  function DatabaseSlots(): seq<Slot>
  {
    DatabaseSlots1() + DatabaseSlots2()
  }

  function DatabaseSlots1(): seq<Slot>
  {
    [Slot("content_hash", TextK),
     Slot("created_utc", TextK),
     Slot("entries", ListK(RecordK(EntrySlots()), MAXIMUM_PROFILE_ENTRIES)),
     Slot("environment", RecordK(EnvironmentSlots())),
     Slot("schema_version", WholeK)]
  }

  function DatabaseSlots2(): seq<Slot>
  {
    [Slot("semantic_version", TextK),
     Slot("smartparallel_version", TextK)]
  }

  function DatabaseKind(): Kind
  {
    RecordK(DatabaseSlots())
  }

  function EntryKind(): Kind
  {
    RecordK(EntrySlots())
  }

  // ----- the tables are well made

  predicate KindFits(k: Kind, height: nat)
  {
    KindOk(k) && Height(k) <= height
  }

  /** From position i on: names fit, each field's kind is well made and nests no deeper than height, and each
      name comes before the next, with which it agrees up to the position in cuts. */
  predicate TableFrom(s: seq<Slot>, cuts: seq<nat>, height: nat, i: nat)
    decreases |s| - i
  {
    i < |s| ==>
      && NameOk(s[i].name) && KindFits(s[i].kind, height)
      && (i + 1 < |s| ==> i < |cuts| && Before(s[i].name, s[i + 1].name, cuts[i]))
      && TableFrom(s, cuts, height, i + 1)
  }

  lemma {:induction false} TableAt(s: seq<Slot>, cuts: seq<nat>, height: nat, i: nat, j: nat)
    requires TableFrom(s, cuts, height, i) && i <= j < |s|
    ensures NameOk(s[j].name) && KindFits(s[j].kind, height)
    ensures j + 1 < |s| ==> j < |cuts| && Before(s[j].name, s[j + 1].name, cuts[j])
    decreases j - i
  {
    hide NameOk, KindFits, Before;
    if i < j { TableAt(s, cuts, height, i + 1, j); }
  }

  lemma {:induction false} Reaches(s: seq<Slot>, cuts: seq<nat>, height: nat, i: nat, j: nat)
    requires TableFrom(s, cuts, height, 0) && i < j < |s|
    ensures Less(Ascii(s[i].name), Ascii(s[j].name))
  {
    hide Less, Ascii, TableFrom, Before;
    TableAt(s, cuts, height, 0, j - 1);
    BeforeIsLess(s[j - 1].name, s[j].name, cuts[j - 1]);
    if i < j - 1 {
      Reaches(s, cuts, height, i, j - 1);
      JsonTheorems.LessTransitive(Ascii(s[i].name), Ascii(s[j - 1].name), Ascii(s[j].name));
    }
  }

  lemma {:induction false} SlotsFine(s: seq<Slot>, height: nat)
    requires forall i :: 0 <= i < |s| ==> NameOk(s[i].name) && KindOk(s[i].kind) && Height(s[i].kind) <= height
    ensures SlotsOk(s) && SlotsHeight(s) <= height
  {
    hide NameOk, KindOk, Height;
    if s != [] { SlotsFine(s[1..], height); }
  }

  /** Fields in key order, each well made and nesting no deeper than height. */
  predicate Good(s: seq<Slot>, height: nat)
  {
    Ordered(s) && SlotsOk(s) && SlotsHeight(s) <= height
  }

  /** A list of fields that has been gone through is good. */
  lemma GoneThrough(s: seq<Slot>, cuts: seq<nat>, height: nat)
    requires TableFrom(s, cuts, height, 0)
    ensures Good(s, height)
  {
    hide Less, Ascii, NameOk, TableFrom;
    forall i | 0 <= i < |s| ensures NameOk(s[i].name) && KindOk(s[i].kind) && Height(s[i].kind) <= height {
      TableAt(s, cuts, height, 0, i);
    }
    SlotsFine(s, height);
    forall i, j | 0 <= i < j < |s| ensures Less(Ascii(s[i].name), Ascii(s[j].name)) {
      Reaches(s, cuts, height, i, j);
    }
  }

  /** Two good lists make one when the first ends before the second begins. */
  lemma Join(a: seq<Slot>, b: seq<Slot>, cut: nat, height: nat)
    requires a != [] && b != [] && Good(a, height) && Good(b, height) && Before(a[|a| - 1].name, b[0].name, cut)
    ensures Good(a + b, height)
  {
    hide Less, Ascii, SlotsOk, SlotsHeight;
    BeforeIsLess(a[|a| - 1].name, b[0].name, cut);
    hide Before;
    var s := a + b;
    forall i, j | 0 <= i < j < |s| ensures Less(Ascii(s[i].name), Ascii(s[j].name)) {
      if i < |a| <= j { Across(a, b, i, j - |a|); }
    }
    SlotsJoin(a, b, height);
  }

  lemma Across(a: seq<Slot>, b: seq<Slot>, i: nat, j: nat)
    requires i < |a| && j < |b| && Ordered(a) && Ordered(b) && Less(Ascii(a[|a| - 1].name), Ascii(b[0].name))
    ensures Less(Ascii(a[i].name), Ascii(b[j].name))
  {
    hide Less, Ascii;
    if i < |a| - 1 { JsonTheorems.LessTransitive(Ascii(a[i].name), Ascii(a[|a| - 1].name), Ascii(b[0].name)); }
    if j > 0 { JsonTheorems.LessTransitive(Ascii(a[i].name), Ascii(b[0].name), Ascii(b[j].name)); }
  }

  lemma {:induction false} SlotsJoin(a: seq<Slot>, b: seq<Slot>, height: nat)
    requires SlotsOk(a) && SlotsOk(b) && SlotsHeight(a) <= height && SlotsHeight(b) <= height
    ensures SlotsOk(a + b) && SlotsHeight(a + b) <= height
  {
    hide NameOk, KindOk, Height;
    if a == [] {
      assert a + b == b;
    } else {
      assert (a + b)[1..] == a[1..] + b;
      SlotsJoin(a[1..], b, height);
    }
  }

  lemma GoodRecord(s: seq<Slot>, height: nat)
    requires Good(s, height)
    ensures KindFits(RecordK(s), height + 1) && KindFits(OptionalK(RecordK(s)), height + 1)
  {
    hide Ordered, SlotsOk, SlotsHeight;
  }

  /** Two names of different length, or different at position k. */
  predicate Differ(a: string, b: string, k: nat)
  {
    |a| != |b| || (k < |a| && a[k] != b[k] && a[k] <= '~' && b[k] <= '~')
  }

  lemma Distinguished(names: seq<string>, k: nat)
    requires forall i :: 0 <= i < |names| ==> NameOk(names[i])
    requires forall i, j :: 0 <= i < j < |names| ==> Differ(names[i], names[j], k)
    ensures NamesOk(names)
  {
    forall i, j | 0 <= i < j < |names| ensures Ascii(names[i]) != Ascii(names[j]) {
      assert Differ(names[i], names[j], k);
      if |names[i]| == |names[j]| { assert Ascii(names[i])[k] != Ascii(names[j])[k]; }
    }
  }

  lemma PlainKinds(height: nat)
    ensures KindFits(TextK, height) && KindFits(WholeK, height) && KindFits(RealK, height) && KindFits(FlagK, height)
    ensures KindFits(OptionalK(WholeK), height)
    ensures height >= 1 ==> KindFits(ListK(WholeK, MAXIMUM_VECTOR_ITEMS), height)
  {
  }

  lemma ChoiceFits(names: seq<string>, height: nat)
    requires NamesOk(names)
    ensures KindFits(ChoiceK(names), height)
  {
  }

  lemma PlanEnums(height: nat)
    ensures KindFits(ChoiceK(Engines()), height) && KindFits(ChoiceK(Strategies()), height)
  {
    Distinguished(Engines(), 0);
    Distinguished(Strategies(), 0);
    hide NamesOk;
    ChoiceFits(Engines(), height);
    ChoiceFits(Strategies(), height);
  }

  lemma EntryEnums(height: nat)
    ensures KindFits(ChoiceK(Policies()), height) && KindFits(ChoiceK(Statuses()), height)
  {
    Distinguished(Policies(), 0);
    Distinguished(Statuses(), 0);
    hide NamesOk;
    ChoiceFits(Policies(), height);
    ChoiceFits(Statuses(), height);
  }

  lemma WaitEnums(height: nat)
    ensures KindFits(ChoiceK(WaitPolicies()), height) && KindFits(ChoiceK(NestedModes()), height)
  {
    Distinguished(WaitPolicies(), 0);
    Distinguished(NestedModes(), 0);
    hide NamesOk;
    ChoiceFits(WaitPolicies(), height);
    ChoiceFits(NestedModes(), height);
  }

  lemma ControlEnums(height: nat)
    ensures KindFits(ChoiceK(ControlScopes()), height) && KindFits(ChoiceK(ControlStrengths()), height)
  {
    Distinguished(ControlScopes(), 4);
    Distinguished(ControlStrengths(), 1);
    hide NamesOk;
    ChoiceFits(ControlScopes(), height);
    ChoiceFits(ControlStrengths(), height);
  }

  lemma Environment1()
    ensures Good(EnvironmentSlots1(), 1)
  {
    hide KindFits;
    PlainKinds(1);
    GoneThrough(EnvironmentSlots1(), [1, 0, 0, 9], 1);
  }

  lemma Environment2()
    ensures Good(EnvironmentSlots2(), 1)
  {
    hide KindFits;
    PlainKinds(1);
    GoneThrough(EnvironmentSlots2(), [0, 0, 1, 0], 1);
  }

  lemma Environment3()
    ensures Good(EnvironmentSlots3(), 1)
  {
    hide KindFits;
    PlainKinds(1);
    GoneThrough(EnvironmentSlots3(), [0, 0, 0, 14], 1);
  }

  lemma Environment4()
    ensures Good(EnvironmentSlots4(), 1)
  {
    hide KindFits;
    PlainKinds(1);
    GoneThrough(EnvironmentSlots4(), [0], 1);
  }

  lemma EnvironmentTable()
    ensures KindFits(RecordK(EnvironmentSlots()), 2)
    ensures KindFits(RecordK(EnvironmentSlots()), 4)
  {
    hide Good;
    Environment1();
    Environment2();
    Environment3();
    Environment4();
    Join(EnvironmentSlots1(), EnvironmentSlots2(), 1, 1);
    Join(EnvironmentSlots1() + EnvironmentSlots2(), EnvironmentSlots3(), 1, 1);
    Join(EnvironmentSlots1() + EnvironmentSlots2() + EnvironmentSlots3(), EnvironmentSlots4(), 1, 1);
    GoodRecord(EnvironmentSlots(), 1);
  }

  lemma Workload1()
    ensures Good(WorkloadSlots1(), 1)
  {
    hide KindFits;
    PlainKinds(1);
    GoneThrough(WorkloadSlots1(), [0, 2, 0, 0], 1);
  }

  lemma Workload2()
    ensures Good(WorkloadSlots2(), 1)
  {
    hide KindFits;
    PlainKinds(1);
    GoneThrough(WorkloadSlots2(), [1], 1);
  }

  lemma WorkloadTable()
    ensures KindFits(RecordK(WorkloadSlots()), 2)
  {
    hide Good;
    Workload1();
    Workload2();
    Join(WorkloadSlots1(), WorkloadSlots2(), 0, 1);
    GoodRecord(WorkloadSlots(), 1);
  }

  lemma Evidence1()
    ensures Good(EvidenceSlots1(), 1)
  {
    hide KindFits;
    PlainKinds(1);
    GoneThrough(EvidenceSlots1(), [2, 1, 0, 0], 1);
  }

  lemma Evidence2()
    ensures Good(EvidenceSlots2(), 1)
  {
    hide KindFits;
    PlainKinds(1);
    GoneThrough(EvidenceSlots2(), [0, 0, 6, 0], 1);
  }

  lemma Evidence3()
    ensures Good(EvidenceSlots3(), 1)
  {
    hide KindFits;
    PlainKinds(1);
    GoneThrough(EvidenceSlots3(), [0], 1);
  }

  lemma EvidenceTable()
    ensures KindFits(RecordK(EvidenceSlots()), 2)
  {
    hide Good;
    Evidence1();
    Evidence2();
    Evidence3();
    Join(EvidenceSlots1(), EvidenceSlots2(), 0, 1);
    Join(EvidenceSlots1() + EvidenceSlots2(), EvidenceSlots3(), 1, 1);
    GoodRecord(EvidenceSlots(), 1);
  }

  lemma PlanTable()
    ensures KindFits(RecordK(PlanSlots()), 2)
  {
    hide KindFits, Engines, Strategies;
    PlainKinds(1);
    PlanEnums(1);
    GoneThrough(PlanSlots(), [0, 0, 0, 0], 1);
    hide Good;
    GoodRecord(PlanSlots(), 1);
  }

  lemma Contract1()
    ensures Good(ContractSlots1(), 1)
  {
    hide KindFits, WaitPolicies, NestedModes, ControlScopes, ControlStrengths;
    PlainKinds(1);
    WaitEnums(1);
    GoneThrough(ContractSlots1(), [0, 0, 0, 1], 1);
  }

  lemma Contract2()
    ensures Good(ContractSlots2(), 1)
  {
    hide KindFits, WaitPolicies, NestedModes, ControlScopes, ControlStrengths;
    PlainKinds(1);
    WaitEnums(1);
    ControlEnums(1);
    GoneThrough(ContractSlots2(), [0, 0, 2, 18], 1);
  }

  lemma Contract3()
    ensures Good(ContractSlots3(), 1)
  {
    hide KindFits, WaitPolicies, NestedModes, ControlScopes, ControlStrengths;
    PlainKinds(1);
    GoneThrough(ContractSlots3(), [0, 0], 1);
  }

  lemma ContractTable()
    ensures KindFits(RecordK(ContractSlots()), 2)
    ensures KindFits(OptionalK(RecordK(ContractSlots())), 2)
  {
    hide Good;
    Contract1();
    Contract2();
    Contract3();
    Join(ContractSlots1(), ContractSlots2(), 0, 1);
    Join(ContractSlots1() + ContractSlots2(), ContractSlots3(), 9, 1);
    GoodRecord(ContractSlots(), 1);
  }

  lemma Entry1()
    ensures Good(EntrySlots1(), 2)
  {
    hide KindFits, EnvironmentSlots, EvidenceSlots, PlanSlots, ContractSlots, WorkloadSlots, Policies, Statuses;
    PlainKinds(2);
    GoneThrough(EntrySlots1(), [2, 0, 3, 2], 2);
  }

  lemma Entry2()
    ensures Good(EntrySlots2(), 2)
  {
    hide KindFits, EnvironmentSlots, EvidenceSlots, PlanSlots, ContractSlots, WorkloadSlots, Policies, Statuses;
    PlainKinds(2);
    EnvironmentTable();
    EvidenceTable();
    GoneThrough(EntrySlots2(), [1, 2, 1, 2], 2);
  }

  lemma Entry3()
    ensures Good(EntrySlots3(), 2)
  {
    hide KindFits, EnvironmentSlots, EvidenceSlots, PlanSlots, ContractSlots, WorkloadSlots, Policies, Statuses;
    PlainKinds(2);
    EntryEnums(2);
    PlanTable();
    GoneThrough(EntrySlots3(), [2, 0, 0, 10], 2);
  }

  lemma Entry4()
    ensures Good(EntrySlots4(), 2)
  {
    hide KindFits, EnvironmentSlots, EvidenceSlots, PlanSlots, ContractSlots, WorkloadSlots, Policies, Statuses;
    PlainKinds(2);
    EntryEnums(2);
    GoneThrough(EntrySlots4(), [9, 0, 1, 3], 2);
  }

  lemma Entry5()
    ensures Good(EntrySlots5(), 2)
  {
    hide KindFits, EnvironmentSlots, EvidenceSlots, PlanSlots, ContractSlots, WorkloadSlots, Policies, Statuses;
    PlainKinds(2);
    ContractTable();
    WorkloadTable();
    GoneThrough(EntrySlots5(), [9, 0, 0, 0], 2);
  }

  lemma EntryTable()
    ensures KindFits(RecordK(EntrySlots()), 3)
  {
    hide Good, KindFits;
    Entry1();
    Entry2();
    Entry3();
    Entry4();
    Entry5();
    Join(EntrySlots1(), EntrySlots2(), 0, 2);
    Join(EntrySlots1() + EntrySlots2(), EntrySlots3(), 1, 2);
    Join(EntrySlots1() + EntrySlots2() + EntrySlots3(), EntrySlots4(), 0, 2);
    Join(EntrySlots1() + EntrySlots2() + EntrySlots3() + EntrySlots4(), EntrySlots5(), 8, 2);
    GoodRecord(EntrySlots(), 2);
  }

  lemma EntriesTable()
    ensures KindFits(ListK(RecordK(EntrySlots()), MAXIMUM_PROFILE_ENTRIES), 4)
  {
    EntryTable();
    hide EntrySlots;
  }

  lemma Database1()
    ensures Good(DatabaseSlots1(), 4)
  {
    hide KindFits, EnvironmentSlots, EntrySlots;
    PlainKinds(4);
    EnvironmentTable();
    EntriesTable();
    GoneThrough(DatabaseSlots1(), [1, 0, 2, 0], 4);
  }

  lemma Database2()
    ensures Good(DatabaseSlots2(), 4)
  {
    hide KindFits, EnvironmentSlots, EntrySlots;
    PlainKinds(4);
    GoneThrough(DatabaseSlots2(), [1], 4);
  }

  lemma DatabaseTable()
    ensures KindFits(RecordK(DatabaseSlots()), 5)
  {
    hide Good;
    Database1();
    Database2();
    Join(DatabaseSlots1(), DatabaseSlots2(), 1, 4);
    GoodRecord(DatabaseSlots(), 4);
  }

  // ----- positions the database functions look at

  const ENTRY_HASH: nat := 6
  const NUMERICAL_POLICY: nat := 14
  const OPERATION: nat := 15
  const RESOURCE_CONTRACT: nat := 22
  const WORKLOAD: nat := 24
  const EXACT_FINGERPRINT: nat := 1
  const MAXIMUM_WORKERS: nat := 3
  const PREFERRED_WORKERS: nat := 7
  const REQUESTED_WORKERS: nat := 11
  const CONTENT_HASH: nat := 0
  const ENTRIES: nat := 2
  const SCHEMA_VERSION: nat := 4
  const SEMANTIC_VERSION: nat := 5

  lemma EntryPositions()
    ensures |EntrySlots()| == 25
    ensures EntrySlots()[ENTRY_HASH] == Slot("entry_hash", TextK)
    ensures EntrySlots()[NUMERICAL_POLICY] == Slot("numerical_policy", ChoiceK(Policies()))
    ensures EntrySlots()[OPERATION] == Slot("operation", TextK)
    ensures EntrySlots()[RESOURCE_CONTRACT] == Slot("resource_contract", OptionalK(RecordK(ContractSlots())))
    ensures EntrySlots()[WORKLOAD] == Slot("workload", RecordK(WorkloadSlots()))
  {
    hide ContractSlots, WorkloadSlots, EnvironmentSlots, EvidenceSlots, PlanSlots, Policies, Statuses;
  }

  lemma ContractPositions()
    ensures |ContractSlots()| == 13
    ensures ContractSlots()[MAXIMUM_WORKERS] == Slot("maximum_workers", OptionalK(WholeK))
    ensures ContractSlots()[PREFERRED_WORKERS] == Slot("preferred_workers", OptionalK(WholeK))
    ensures ContractSlots()[REQUESTED_WORKERS] == Slot("requested_workers", WholeK)
  {
  }

  lemma DatabasePositions()
    ensures |DatabaseSlots()| == 7
    ensures DatabaseSlots()[CONTENT_HASH] == Slot("content_hash", TextK)
    ensures DatabaseSlots()[ENTRIES] == Slot("entries", ListK(EntryKind(), MAXIMUM_PROFILE_ENTRIES))
    ensures DatabaseSlots()[SCHEMA_VERSION] == Slot("schema_version", WholeK)
    ensures DatabaseSlots()[SEMANTIC_VERSION] == Slot("semantic_version", TextK)
  {
    hide EntrySlots, EnvironmentSlots;
  }
}
