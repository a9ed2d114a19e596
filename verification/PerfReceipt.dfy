/** The performance gate: reading plans and judging a receipt (decodePlanEvidence and validateReceipt in
    cmd/aicrm-contact-perf/main.go). Durations are nanoseconds. */
module PerfReceipt {
  import opened Wrappers
  import opened PerfMatrix
  import opened PerfEvidence
  import opened PerfPlan
  import Sets
  import Sorting
  import Text

  const LATENCY_LIMIT := 200_000_000
  const REQUIRED_SAMPLES := 20
  const COUNT_QUERY := "CountCustomerIDsBounded"
  const LIST_QUERY := "ListCustomers"

  // ----- Plan evidence

  datatype Root = Root(plan: Option<PlanNode>, planning: int, execution: int)

  /** The raw JSON of a plan: its size and, when it parses, its roots. */
  datatype Explain = Explain(size: nat, roots: Option<seq<Root>>)

  datatype PlanEvidence = PlanEvidence(
    query: string, planning: int, execution: int, hit: int, read: int, nodeTypes: seq<string>, forbidden: seq<string>, explain: Explain)

  predicate Readable(e: Explain) {
    2 <= e.size <= 256 * 1024 && e.roots.Some? && |e.roots.value| == 1 && e.roots.value[0].plan.Some?
  }

  function Tidy(list: seq<string>): seq<string> {
    Unique(Sorting.Sort(list, Text.Leq))
  }

  function Decoded(query: string, e: Explain): Option<PlanEvidence> {
    if !Readable(e) then None
    else
      var root := e.roots.value[0];
      var n := root.plan.value;
      Some(PlanEvidence(query, root.planning, root.execution, Blocks(n, true), Blocks(n, false), Tidy(Kinds(n)), Tidy(Scans(n)), e))
  }

  method SortAndUnique(list: seq<string>) returns (tidy: seq<string>)
    ensures tidy == Tidy(list)
  {
    var ordered := Sorting.Sort(list, Text.Leq);
    var values := new string[|ordered|](i requires 0 <= i < |ordered| => ordered[i]);
    assert values[..] == ordered;
    var n := UniqueStrings(values);
    tidy := values[..n];
  }

  method DecodePlanEvidence(query: string, e: Explain) returns (plan: Option<PlanEvidence>)
    ensures plan == Decoded(query, e)
  {
    if e.size < 2 || e.size > 256 * 1024 { return None; }
    if e.roots.None? || |e.roots.value| != 1 || e.roots.value[0].plan.None? { return None; }
    var root := e.roots.value[0];
    var evidence := new Evidence();
    WalkPlan(root.plan.value, evidence);
    assert [] + Kinds(root.plan.value) == Kinds(root.plan.value) && [] + Scans(root.plan.value) == Scans(root.plan.value);
    var nodeTypes := SortAndUnique(evidence.nodeTypes);
    var forbidden := SortAndUnique(evidence.forbidden);
    plan := Some(PlanEvidence(query, root.planning, root.execution, evidence.hit, evidence.read, nodeTypes, forbidden, e));
  }

  lemma TidyMembers(list: seq<string>)
    ensures Increasing(Tidy(list)) && forall v :: v in Tidy(list) <==> v in list
  {
    Text.LeqIsOrder();
    Sorting.SortCorrect(list, Text.Leq);
    var ordered := Sorting.Sort(list, Text.Leq);
    UniqueOfSorted(ordered);
    forall v ensures v in ordered <==> v in list { assert v in multiset(ordered) <==> v in multiset(list); }
  }

  /** A decoded plan reports no forbidden scan exactly when its tree contains none, and lists each kind
      of node of the tree once. */
  lemma DecodedReportsTree(query: string, e: Explain)
    requires Decoded(query, e).Some?
    ensures
      var p, n := Decoded(query, e).value, e.roots.value[0].plan.value;
      && (p.forbidden == [] <==> forall d :: InTree(d, n) ==> !ForbiddenScan(d))
      && Increasing(p.nodeTypes)
      && (forall kind :: kind in p.nodeTypes <==> kind != "" && exists d :: InTree(d, n) && d.kind == kind)
  {
    hide Tidy;
    var n := e.roots.value[0].plan.value;
    TidyMembers(Scans(n));
    TidyMembers(Kinds(n));
    ScansFound(n);
    if Scans(n) != [] { assert Scans(n)[0] in Tidy(Scans(n)); }
    if Tidy(Scans(n)) != [] { assert Tidy(Scans(n))[0] in Scans(n); }
    forall kind { KindFound(n, kind); }
  }

  // ----- Receipts

  datatype Case = Case(
    id: string, selectorMask: int, deleted: bool, samples: int, addedMode: string, interactMode: string, page: string, limit: int,
    p50: int, p95: int, max: int, matched: int, hasMore: bool, plans: seq<PlanEvidence>)

  datatype Report = Report(
    kind: string, evidenceClass: string, generatedAt: string, environment: Environment, dataset: Dataset, cases: seq<Case>, combinationCount: int, sampleCount: int, p50: int, p95: int, max: int, slowest: string, thresholdMS: int, passed: bool)

  const KIND := "contact_customer_list_s_tier_hard_gate"
  const EVIDENCE_CLASS := "authorized_test_server_synthetic"

  /** Where and on what the gate ran: kind, timestamp, environment and dataset. */
  predicate SettingValid(o: Outside, sha: string, url: string, v: Report) {
    && v.kind == KIND && v.evidenceClass == EVIDENCE_CLASS && o.timestamp(v.generatedAt)
    && EnvironmentValid(o, sha, url, v.environment) && DatasetValid(v.dataset)
  }

  predicate SummaryValid(v: Report) {
    && v.passed && v.thresholdMS == LATENCY_LIMIT / 1_000_000 && v.combinationCount == COMBINATIONS
    && |v.cases| == COMBINATIONS && v.sampleCount >= COMBINATIONS * REQUIRED_SAMPLES
    && 0 <= v.p50 <= v.p95 < LATENCY_LIMIT && v.p95 <= v.max && v.slowest != ""
  }

  predicate PlanValid(p: PlanEvidence) {
    && p.query in {COUNT_QUERY, LIST_QUERY}
    && p.execution >= 0 && p.planning >= 0 && p.hit >= 0 && p.read >= 0
    && p.nodeTypes != [] && p.forbidden == []
    && Decoded(p.query, p.explain) == Some(p)
  }

  predicate PlansValid(plans: seq<PlanEvidence>) {
    |plans| == 2 && PlanValid(plans[0]) && PlanValid(plans[1]) && plans[0].query != plans[1].query
  }

  predicate Measures(c: Case, s: Scenario) {
    && c.selectorMask == s.selectorMask && c.deleted == s.deleted && c.addedMode == ModeText(s.added)
    && c.interactMode == ModeText(s.interact) && c.page == PageName(s.nextPage) && c.limit == s.limit
    && c.samples >= REQUIRED_SAMPLES && 0 <= c.p50 <= c.p95 < LATENCY_LIMIT && c.p95 <= c.max
    && c.matched == c.limit && c.hasMore
  }

  ghost predicate CaseValid(c: Case) {
    exists s :: InMatrix(s) && c.id == ScenarioID(s) && Measures(c, s) && PlansValid(c.plans)
  }

  function SampleTotal(cases: seq<Case>): int {
    if cases == [] then 0 else SampleTotal(cases[..|cases| - 1]) + cases[|cases| - 1].samples
  }

  function Ids(cases: seq<Case>): (ids: seq<string>)
    ensures |ids| == |cases| && forall i :: 0 <= i < |ids| ==> ids[i] == cases[i].id
  {
    seq(|cases|, i requires 0 <= i < |cases| => cases[i].id)
  }

  /** The summary and the cases: every scenario is measured once, and well. */
  ghost predicate Covers(v: Report) {
    && SummaryValid(v)
    && (forall i :: 0 <= i < |v.cases| ==> CaseValid(v.cases[i]))
    && Sets.Distinct(Ids(v.cases))
    && SampleTotal(v.cases) == v.sampleCount
    && v.slowest in Ids(v.cases)
  }

  ghost predicate Accepted(o: Outside, sha: string, url: string, v: Report) {
    SettingValid(o, sha, url, v) && Covers(v)
  }

  method ValidatePlans(plans: seq<PlanEvidence>) returns (ok: bool)
    ensures ok <==> PlansValid(plans)
  {
    hide Decoded;
    if |plans| != 2 { return false; }
    var names: set<string> := {};
    for i := 0 to |plans|
      invariant forall j :: 0 <= j < i ==> PlanValid(plans[j]) && plans[j].query in names
      invariant i == 0 ==> names == {}
      invariant i == 1 ==> names == {plans[0].query}
      invariant i == 2 ==> plans[0].query != plans[1].query
    {
      var p := plans[i];
      if (p.query != COUNT_QUERY && p.query != LIST_QUERY) || p.query in names || p.execution < 0 || p.planning < 0
         || p.hit < 0 || p.read < 0 || |p.nodeTypes| == 0 || |p.forbidden| != 0 {
        return false;
      }
      var decoded := DecodePlanEvidence(p.query, p.explain);
      if decoded != Some(p) { return false; }
      names := names + {p.query};
    }
    ok := true;
  }

  /** The expected cases by id. */
  method ExpectedCases() returns (expected: map<string, Scenario>)
    ensures forall s :: InMatrix(s) ==> ScenarioID(s) in expected && expected[ScenarioID(s)] == s
    ensures forall id :: id in expected ==> InMatrix(expected[id]) && ScenarioID(expected[id]) == id
  {
    hide ScenarioID, Position, InMatrix;
    var list := Scenarios();
    expected := map[];
    for k := 0 to |list|
      invariant forall i :: 0 <= i < k ==> ScenarioID(list[i]) in expected
      invariant forall id :: id in expected ==> InMatrix(expected[id]) && ScenarioID(expected[id]) == id
    {
      expected := expected[ScenarioID(list[k]) := list[k]];
    }
    forall s | InMatrix(s) ensures ScenarioID(s) in expected && expected[ScenarioID(s)] == s {
      EveryScenarioOnce(list, s);
      ScenarioIDInjective(expected[ScenarioID(s)], s);
    }
  }

  /** validateReceipt */
  method ValidateReceipt(o: Outside, sha: string, url: string, v: Report) returns (ok: bool)
    ensures ok <==> Accepted(o, sha, url, v)
  {
    hide SummaryValid, PlansValid, Measures, ScenarioID, InMatrix, CaseValid, Frozen, DatasetValid, Sets.Distinct, Ids, Sets.Members;
    if v.kind != KIND || v.evidenceClass != EVIDENCE_CLASS || !SummaryValid(v) { return false; }
    if !o.timestamp(v.generatedAt) { return false; }
    var exact := IsExactSHA(sha);
    if !exact || !EnvironmentValid(o, sha, url, v.environment) { return false; }
    if !DatasetValid(v.dataset) { return false; }
    ok := ValidateCases(v);
  }

  /** Its loop over the cases. */
  method ValidateCases(v: Report) returns (ok: bool)
    requires SummaryValid(v)
    ensures ok <==> Covers(v)
  {
    hide SummaryValid, PlansValid, Measures, ScenarioID, InMatrix, CaseValid, Sets.Distinct, Ids, Sets.Members;
    SummaryLength(v);
    var expected := ExpectedCases();
    var seen: set<string> := {};
    var samples := 0;
    NothingSeen();
    assert v.cases[..0] == [];
    for i := 0 to |v.cases|
      invariant forall j :: 0 <= j < i ==> CaseValid(v.cases[j])
      invariant Sets.Distinct(Ids(v.cases[..i])) && seen == Sets.Members(Ids(v.cases[..i])) && |seen| == i
      invariant samples == SampleTotal(v.cases[..i])
    {
      var c := v.cases[i];
      assert v.cases[..i + 1][..i] == v.cases[..i];
      CaseLookup(c, expected);
      OneMoreId(v.cases, i);
      if c.id !in expected { return false; }
      if c.id in seen {
        RepeatStays(v.cases, i);
        return false;
      }
      var plansOk := ValidatePlans(c.plans);
      if !Measures(c, expected[c.id]) || !plansOk { return false; }
      seen := seen + {c.id};
      samples := samples + c.samples;
    }
    assert v.cases[..|v.cases|] == v.cases;
    InIds(v);
    ok := |seen| == COMBINATIONS && samples == v.sampleCount && v.slowest in seen;
  }

  lemma NothingSeen()
    ensures Sets.Distinct(Ids([])) && Sets.Members(Ids([])) == {} && SampleTotal([]) == 0
  {
  }

  lemma OneMoreId(cases: seq<Case>, i: nat)
    requires i < |cases|
    ensures Sets.Members(Ids(cases[..i + 1])) == Sets.Members(Ids(cases[..i])) + {cases[i].id}
    ensures Sets.Distinct(Ids(cases[..i + 1])) <==> Sets.Distinct(Ids(cases[..i])) && cases[i].id !in Sets.Members(Ids(cases[..i]))
  {
    var less, more := Ids(cases[..i]), Ids(cases[..i + 1]);
    assert forall j :: 0 <= j < i ==> more[j] == less[j];
    assert more[i] == cases[i].id;
    if cases[i].id in Sets.Members(less) {
      var j :| 0 <= j < i && less[j] == cases[i].id;
      assert more[j] == more[i];
    }
    assert Sets.Distinct(more) ==> forall j :: 0 <= j < i ==> more[j] != more[i];
    assert forall j :: 0 <= j < i ==> less[j] in Sets.Members(less);
  }

  lemma RepeatStays(cases: seq<Case>, i: nat)
    requires i < |cases| && !Sets.Distinct(Ids(cases[..i + 1]))
    ensures !Sets.Distinct(Ids(cases))
  {
    var part := Ids(cases[..i + 1]);
    var j, k :| 0 <= j < k < |part| && part[j] == part[k];
    assert Ids(cases)[j] == Ids(cases)[k];
  }

  lemma InIds(v: Report)
    ensures v.slowest in Ids(v.cases) <==> v.slowest in Sets.Members(Ids(v.cases))
  {
  }

  lemma SummaryLength(v: Report)
    requires SummaryValid(v)
    ensures |v.cases| == COMBINATIONS
  {
  }

  lemma CaseLookup(c: Case, expected: map<string, Scenario>)
    requires forall s :: InMatrix(s) ==> ScenarioID(s) in expected && expected[ScenarioID(s)] == s
    requires forall id :: id in expected ==> InMatrix(expected[id]) && ScenarioID(expected[id]) == id
    ensures CaseValid(c) <==> c.id in expected && Measures(c, expected[c.id]) && PlansValid(c.plans)
  {
    hide ScenarioID, InMatrix, Measures, PlansValid;
  }

  /** Main result: an accepted receipt covers every scenario of the matrix exactly once. */
  lemma AcceptedCoversMatrix(o: Outside, sha: string, url: string, v: Report, s: Scenario)
    requires Accepted(o, sha, url, v) && InMatrix(s)
    ensures exists i :: 0 <= i < |v.cases| && v.cases[i].id == ScenarioID(s) && Measures(v.cases[i], s)
    ensures forall i, j :: 0 <= i < |v.cases| && 0 <= j < |v.cases| && v.cases[i].id == ScenarioID(s) == v.cases[j].id ==> i == j
  {
    hide SettingValid, SummaryValid, PlansValid, Measures, ScenarioID, InMatrix, SampleTotal;
    SummaryLength(v);
    var ids, all := Ids(v.cases), AllIds();
    Sets.MembersSize(ids);
    Sets.MembersSize(all);
    forall id | id in Sets.Members(ids) ensures id in Sets.Members(all) {
      var i :| 0 <= i < |ids| && ids[i] == id;
      var t :| InMatrix(t) && v.cases[i].id == ScenarioID(t) && Measures(v.cases[i], t) && PlansValid(v.cases[i].plans);
      IdListed(t);
    }
    Sets.SubsetSize(Sets.Members(ids), Sets.Members(all));
    IdListed(s);
    var i :| 0 <= i < |ids| && ids[i] == ScenarioID(s);
    var t :| InMatrix(t) && v.cases[i].id == ScenarioID(t) && Measures(v.cases[i], t) && PlansValid(v.cases[i].plans);
    ScenarioIDInjective(s, t);
  }

  lemma PositionIs(s: Scenario, mask: nat, deleted: nat, added: nat, interact: nat, page: nat, limit: nat)
    requires s.selectorMask == mask && Bit(s.deleted) == deleted && Rank(s.added) == added && Rank(s.interact) == interact
    requires Bit(s.nextPage) == page && Bit(s.limit == MAXIMUM_LIMIT) == limit
    ensures Position(s) == ((((mask * 2 + deleted) * 4 + added) * 4 + interact) * 2 + page) * 2 + limit
  {
  }

  /** The scenario at a position of the matrix. */
  function ScenarioAt(k: nat): (s: Scenario)
    requires k < COMBINATIONS
    ensures InMatrix(s) && Position(s) == k
  {
    var pages, limit := k / 2, k % 2;
    var interacts, page := pages / 2, pages % 2;
    var addeds, interact := interacts / 4, interacts % 4;
    var deleteds, added := addeds / 4, addeds % 4;
    var mask, deleted := deleteds / 2, deleteds % 2;
    RankOfMode(interact);
    RankOfMode(added);
    var s := Scenario(mask, deleted == 1, MODES[added], MODES[interact], page == 1, LIMITS[limit]);
    PositionIs(s, mask, deleted, added, interact, page, limit);
    s
  }

  function AllIds(): (ids: seq<string>)
    ensures |ids| == COMBINATIONS
  {
    seq(COMBINATIONS, k requires 0 <= k < COMBINATIONS => ScenarioID(ScenarioAt(k)))
  }

  lemma IdListed(s: Scenario)
    requires InMatrix(s)
    ensures ScenarioID(s) in Sets.Members(AllIds())
  {
    hide ScenarioID, ScenarioAt;
    PositionBelow(s);
    PositionInjective(s, ScenarioAt(Position(s)));
    assert AllIds()[Position(s)] == ScenarioID(s);
  }
}
