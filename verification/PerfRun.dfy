/** Executing the matrix (execute in cmd/aicrm-contact-perf/main.go): every scenario is measured, and the
    report is computed from what was measured. */
module PerfRun {
  import opened Wrappers
  import opened PerfCase
  import opened PerfEvidence
  import opened PerfMatrix
  import opened PerfReceipt
  import opened Percentiles
  import Sets

  type Measurement = Scenario -> Option<Run>

  /** Each scenario of a run on a bench. */
  function Measure(b: Bench): Measurement {
    (s: Scenario) => CaseRun(b, s)
  }

  function CaseOf(s: Scenario, run: Run): Case {
    Case(ScenarioID(s), s.selectorMask, s.deleted, |run.durations|, ModeText(s.added), ModeText(s.interact), PageName(s.nextPage), s.limit,
         Percentile(run.durations, 50), Percentile(run.durations, 95), Largest(run.durations), run.matched, run.hasMore, run.plans)
  }

  ghost predicate AllMeasured(measure: Measurement) {
    forall s :: InMatrix(s) ==> measure(s).Some?
  }

  function CasesOf(list: seq<Scenario>, measure: Measurement): seq<Case>
    requires forall s :: s in list ==> measure(s).Some?
  {
    if list == [] then []
    else CasesOf(list[..|list| - 1], measure) + [CaseOf(list[|list| - 1], measure(list[|list| - 1]).value)]
  }

  function SamplesOf(list: seq<Scenario>, measure: Measurement): seq<seq<int>>
    requires forall s :: s in list ==> measure(s).Some?
  {
    if list == [] then [] else SamplesOf(list[..|list| - 1], measure) + [measure(list[|list| - 1]).value.durations]
  }

  /** No plan of the case scans a whole customer table. */
  predicate NoForbiddenScan(plans: seq<PlanEvidence>) {
    forall p :: p in plans ==> p.forbidden == []
  }

  predicate Fast(c: Case) {
    c.p95 < LATENCY_LIMIT && NoForbiddenScan(c.plans)
  }

  /** The last case as slow as the whole run. */
  ghost predicate IsSlowest(cases: seq<Case>, max: int, slowest: string) {
    if forall i :: 0 <= i < |cases| ==> cases[i].max < max then slowest == ""
    else exists i :: 0 <= i < |cases| && cases[i].max >= max && cases[i].id == slowest && forall j :: i < j < |cases| ==> cases[j].max < max
  }

  method Slowest(cases: seq<Case>, max: int) returns (slowest: string)
    ensures IsSlowest(cases, max, slowest)
  {
    slowest := "";
    for i := 0 to |cases|
      invariant IsSlowest(cases[..i], max, slowest)
    {
      var before, after := cases[..i], cases[..i + 1];
      assert after == before + [cases[i]];
      if cases[i].max >= max {
        slowest := cases[i].id;
        assert after[i].max >= max && after[i].id == slowest;
      } else if j :| 0 <= j < |before| && before[j].max >= max && before[j].id == slowest && forall k :: j < k < |before| ==> before[k].max < max {
        assert after[j].max >= max && after[j].id == slowest;
      }
    }
    assert cases[..|cases|] == cases;
  }

  method AllFast(cases: seq<Case>) returns (ok: bool)
    ensures ok <==> forall i :: 0 <= i < |cases| ==> Fast(cases[i])
  {
    ok := true;
    for i := 0 to |cases|
      invariant ok <==> forall j :: 0 <= j < i ==> Fast(cases[j])
    {
      if cases[i].p95 >= LATENCY_LIMIT { ok := false; }
      for k := 0 to |cases[i].plans|
        invariant ok <==> (forall j :: 0 <= j < i ==> Fast(cases[j])) && cases[i].p95 < LATENCY_LIMIT && NoForbiddenScan(cases[i].plans[..k])
      {
        assert cases[i].plans[..k + 1] == cases[i].plans[..k] + [cases[i].plans[k]];
        if |cases[i].plans[k].forbidden| != 0 { ok := false; }
      }
      assert cases[i].plans[..|cases[i].plans|] == cases[i].plans;
    }
  }

  ghost predicate ReportOf(list: seq<Scenario>, measure: Measurement, r: Report)
    requires forall s :: s in list ==> measure(s).Some?
  {
    var all := Concat(SamplesOf(list, measure));
    && r.cases == CasesOf(list, measure) && r.combinationCount == |r.cases| && r.sampleCount == |all|
    && r.p50 == Percentile(all, 50) && r.p95 == Percentile(all, 95) && r.max == Largest(all)
    && IsSlowest(r.cases, r.max, r.slowest) && r.thresholdMS == LATENCY_LIMIT / 1_000_000
  }

  lemma {:induction false} CaseAt(list: seq<Scenario>, measure: Measurement, i: nat)
    requires (forall s :: s in list ==> measure(s).Some?) && i < |list|
    ensures |CasesOf(list, measure)| == |SamplesOf(list, measure)| == |list|
    ensures CasesOf(list, measure)[i] == CaseOf(list[i], measure(list[i]).value)
    ensures SamplesOf(list, measure)[i] == measure(list[i]).value.durations
  {
    hide CaseOf;
    var front := list[..|list| - 1];
    assert list == front + [list[|list| - 1]];
    if i < |front| {
      CaseAt(front, measure, i);
    } else if front != [] {
      CaseAt(front, measure, 0);
    }
  }

  /** Per-case limits already bound the run: the global gate never decides anything. */
  lemma GlobalGateImplied(list: seq<Scenario>, measure: Measurement)
    requires forall s :: s in list ==> measure(s).Some?
    requires forall i :: 0 <= i < |CasesOf(list, measure)| ==> CasesOf(list, measure)[i].p95 < LATENCY_LIMIT
    ensures Percentile(Concat(SamplesOf(list, measure)), 95) < LATENCY_LIMIT
  {
    hide CasesOf, SamplesOf, Percentile, Concat;
    var cases := SamplesOf(list, measure);
    if list == [] {
      NoSamples(measure);
    } else {
      CaseAt(list, measure, 0);
      forall i | 0 <= i < |cases| && cases[i] != [] ensures Percentile(cases[i], 95) <= LATENCY_LIMIT - 1 {
        CaseAt(list, measure, i);
        assert CasesOf(list, measure)[i].p95 < LATENCY_LIMIT;
      }
      if Concat(cases) == [] {
        PercentileOfNone(95);
      } else {
        PercentileOfConcat(cases, 95, LATENCY_LIMIT - 1);
      }
    }
  }

  lemma NoSamples(measure: Measurement)
    ensures Percentile(Concat(SamplesOf([], measure)), 95) == 0
  {
  }

  lemma PercentileOfNone(rank: int)
    ensures Percentile([], rank) == 0
  {
  }

  lemma CompleteMembers(list: seq<Scenario>)
    requires Complete(list)
    ensures |list| == COMBINATIONS && forall k :: 0 <= k < |list| ==> InMatrix(list[k])
  {
  }

  lemma ExtendSamples(front: seq<Scenario>, measure: Measurement, s: Scenario)
    requires (forall t :: t in front ==> measure(t).Some?) && measure(s).Some?
    ensures forall t :: t in front + [s] ==> measure(t).Some?
    ensures CasesOf(front + [s], measure) == CasesOf(front, measure) + [CaseOf(s, measure(s).value)]
    ensures Concat(SamplesOf(front + [s], measure)) == Concat(SamplesOf(front, measure)) + measure(s).value.durations
  {
    hide CaseOf;
    var more := front + [s];
    assert more[..|more| - 1] == front;
    var samples := SamplesOf(more, measure);
    assert samples[..|samples| - 1] == SamplesOf(front, measure);
  }

  lemma FastMeansPassed(list: seq<Scenario>, measure: Measurement)
    requires forall s :: s in list ==> measure(s).Some?
    ensures (forall i :: 0 <= i < |CasesOf(list, measure)| ==> Fast(CasesOf(list, measure)[i]))
            ==> Percentile(Concat(SamplesOf(list, measure)), 95) < LATENCY_LIMIT
  {
    hide CasesOf, SamplesOf, Percentile, Concat;
    if forall i :: 0 <= i < |CasesOf(list, measure)| ==> Fast(CasesOf(list, measure)[i]) {
      GlobalGateImplied(list, measure);
    }
  }

  lemma NothingMeasured(measure: Measurement)
    ensures CasesOf([], measure) == [] && Concat(SamplesOf([], measure)) == []
  {
  }

  // ----- Measuring every scenario

  /** What the program is told and what it finds: the exact source, the machine, the dataset and the clock. */
  datatype Setting = Setting(sha: string, url: string, machine: Environment, dataset: Dataset, now: string)

  predicate Ready(setting: Setting) {
    Inspected(setting.machine, setting.sha, setting.url).Some? && DatasetValid(setting.dataset)
  }

  predicate Headed(setting: Setting, r: Report)
    requires Ready(setting)
  {
    && r.kind == KIND && r.evidenceClass == EVIDENCE_CLASS && r.generatedAt == setting.now && r.dataset == setting.dataset
    && r.environment == Inspected(setting.machine, setting.sha, setting.url).value && r.thresholdMS == LATENCY_LIMIT / 1_000_000
  }

  /** The loop over the scenarios. */
  method MeasureAll(b: Bench) returns (measured: Option<(seq<Case>, seq<int>)>, cases: seq<Case>, ghost list: seq<Scenario>)
    ensures Complete(list)
    ensures measured.Some? <==> AllMeasured(Measure(b))
    ensures measured.Some? ==>
              && (forall s :: s in list ==> Measure(b)(s).Some?)
              && measured.value == (CasesOf(list, Measure(b)), Concat(SamplesOf(list, Measure(b)))) && cases == measured.value.0
  {
    hide Complete, CaseOf, CasesOf, SamplesOf, Concat, InMatrix, Position, CaseRun;
    var capture := new QueryCapture();
    var matrix := Scenarios();
    list := matrix;
    ghost var measure := Measure(b);
    cases := [];
    var all: seq<int> := [];
    CompleteMembers(list);
    NothingMeasured(measure);
    assert list[..0] == [];
    for k := 0 to |matrix|
      invariant !capture.active && fresh(capture)
      invariant forall s :: s in list[..k] ==> measure(s).Some?
      invariant cases == CasesOf(list[..k], measure) && all == Concat(SamplesOf(list[..k], measure))
    {
      var run := ExecuteCase(capture, b, matrix[k]);
      assert run == measure(list[k]) && InMatrix(list[k]);
      if run.None? { return None, cases, list; }
      assert list[..k + 1] == list[..k] + [list[k]];
      ExtendSamples(list[..k], measure, list[k]);
      cases := cases + [CaseOf(matrix[k], run.value)];
      all := all + run.value.durations;
    }
    assert list[..|list|] == list;
    EveryoneMeasured(list, measure);
    measured := Some((cases, all));
  }

  lemma CompleteLength(list: seq<Scenario>)
    requires Complete(list)
    ensures |list| == COMBINATIONS
  {
  }

  lemma EveryoneMeasured(list: seq<Scenario>, measure: Measurement)
    requires Complete(list) && forall s :: s in list ==> measure(s).Some?
    ensures AllMeasured(measure)
  {
    hide Position, InMatrix;
    forall s | InMatrix(s) ensures measure(s).Some? {
      EveryScenarioOnce(list, s);
      assert list[Position(s)] in list;
    }
  }

  lemma CaseCount(list: seq<Scenario>, measure: Measurement)
    requires forall s :: s in list ==> measure(s).Some?
    ensures |CasesOf(list, measure)| == |SamplesOf(list, measure)| == |list|
  {
    if list != [] { CaseAt(list, measure, 0); }
  }

  // ----- A clean run is accepted

  /** What a measured scenario always has, given that clocks do not run backwards and plans are plausible. */
  predicate WellMeasured(s: Scenario, run: Run) {
    && |run.durations| >= REQUIRED_SAMPLES && (forall i :: 0 <= i < |run.durations| ==> run.durations[i] >= 0)
    && run.matched == s.limit && run.hasMore
    && |run.plans| == 2 && run.plans[0].query == COUNT_QUERY && run.plans[1].query == LIST_QUERY
    && (forall p :: p in run.plans ==> Decoded(p.query, p.explain) == Some(p) && p.planning >= 0 && p.execution >= 0 && p.nodeTypes != [])
  }

  /** Times are not negative and every plan names a node; at least the required number of samples is asked for. */
  ghost predicate Plausible(b: Bench) {
    && b.samples >= REQUIRED_SAMPLES && (forall s, q, k :: b.call(s, q, k).duration >= 0)
    && (forall s, q :: Plan(b, s, q).Some? ==> Plan(b, s, q).value.planning >= 0 && Plan(b, s, q).value.execution >= 0 && Plan(b, s, q).value.nodeTypes != [])
  }

  lemma PlanIs(b: Bench, s: Scenario, q: CapturedQuery)
    requires Plan(b, s, q).Some?
    ensures var p := Plan(b, s, q).value; p.query == q.name && Decoded(p.query, p.explain) == Some(p)
  {
  }

  lemma MeasuredWell(b: Bench, s: Scenario)
    requires Plausible(b) && CaseRun(b, s).Some?
    ensures WellMeasured(s, CaseRun(b, s).value)
  {
    hide Plan, Decoded, Traced, Measured, Anchor;
    var at := Start(s) + b.warmups;
    assert PageValid(s, Anchor(b, s).value, Answer(b, s, at).page.value);
    var queries := Traced(Answer(b, s, at).statements);
    PlanIs(b, s, queries[0]);
    PlanIs(b, s, queries[1]);
  }

  lemma CleanCaseValid(s: Scenario, run: Run)
    requires InMatrix(s) && WellMeasured(s, run) && Fast(CaseOf(s, run))
    ensures CaseValid(CaseOf(s, run))
  {
    hide Percentile, Decoded, InMatrix, ScenarioID, ModeText, Largest;
    var d := run.durations;
    PercentileMonotone(d, 50, 95);
    PercentileNotNegative(d, 50);
    PercentileAtMostLargest(d, 95, Largest(d));
    assert run.plans[0] in run.plans && run.plans[1] in run.plans;
    CleanPlan(run.plans[0]);
    CleanPlan(run.plans[1]);
    assert Measures(CaseOf(s, run), s);
  }

  lemma CleanPlan(p: PlanEvidence)
    requires Decoded(p.query, p.explain) == Some(p)
    ensures p.hit >= 0 && p.read >= 0
  {
  }

  lemma {:induction false} TotalIs(list: seq<Scenario>, measure: Measurement)
    requires forall s :: s in list ==> measure(s).Some? && |measure(s).value.durations| >= REQUIRED_SAMPLES
    ensures SampleTotal(CasesOf(list, measure)) == |Concat(SamplesOf(list, measure))| >= REQUIRED_SAMPLES * |list|
  {
    hide Percentile, Largest;
    if list != [] {
      var front, last := list[..|list| - 1], list[|list| - 1];
      assert list == front + [last];
      TotalIs(front, measure);
      ExtendSamples(front, measure, last);
      var cases := CasesOf(list, measure);
      assert cases[..|cases| - 1] == CasesOf(front, measure);
    }
  }

  lemma {:induction false} ConcatMember(cases: seq<seq<int>>, v: int) returns (i: nat)
    requires v in Concat(cases)
    ensures i < |cases| && v in cases[i]
  {
    if v in cases[|cases| - 1] {
      i := |cases| - 1;
    } else {
      i := ConcatMember(cases[..|cases| - 1], v);
    }
  }

  lemma {:induction false} ConcatNotNegative(cases: seq<seq<int>>)
    requires forall i, j :: 0 <= i < |cases| && 0 <= j < |cases[i]| ==> cases[i][j] >= 0
    ensures forall k :: 0 <= k < |Concat(cases)| ==> Concat(cases)[k] >= 0
  {
    if cases != [] { ConcatNotNegative(cases[..|cases| - 1]); }
  }

  lemma SlowestIsCase(list: seq<Scenario>, measure: Measurement, r: Report)
    requires list != [] && (forall s :: s in list ==> measure(s).Some?) && ReportOf(list, measure, r)
    ensures exists i :: 0 <= i < |list| && |list| == |r.cases| && r.slowest == r.cases[i].id
  {
    hide Percentile, Largest, Concat, SamplesOf, CasesOf, ScenarioID;
    CaseCount(list, measure);
    var all := Concat(SamplesOf(list, measure));
    LargestIs(all);
    if r.max == 0 {
      CaseAt(list, measure, 0);
      LargestIs(measure(list[0]).value.durations);
      assert r.cases[0].max >= r.max;
    } else {
      var i := ConcatMember(SamplesOf(list, measure), r.max);
      CaseAt(list, measure, i);
      LargestIs(measure(list[i]).value.durations);
      assert r.cases[i].max >= r.max;
    }
  }

  lemma LargestIs(values: seq<int>)
    ensures IsLargest(values, Largest(values))
  {
  }

  lemma DistinctIds(list: seq<Scenario>, measure: Measurement)
    requires Complete(list) && forall s :: s in list ==> measure(s).Some?
    ensures Sets.Distinct(Ids(CasesOf(list, measure)))
  {
    hide CasesOf, ScenarioID, Position, Percentile, Largest;
    CaseCount(list, measure);
    var ids := Ids(CasesOf(list, measure));
    forall i, j | 0 <= i < j < |ids| ensures ids[i] != ids[j] {
      CaseAt(list, measure, i);
      CaseAt(list, measure, j);
      if ids[i] == ids[j] { ScenarioIDInjective(list[i], list[j]); }
    }
  }

  lemma GlobalOrder(list: seq<Scenario>, measure: Measurement)
    requires forall s :: s in list ==> measure(s).Some? && forall i :: 0 <= i < |measure(s).value.durations| ==> measure(s).value.durations[i] >= 0
    ensures
      var all := Concat(SamplesOf(list, measure));
      0 <= Percentile(all, 50) <= Percentile(all, 95) <= Largest(all)
  {
    hide Percentile, Largest, Concat, SamplesOf, CasesOf;
    CaseCount(list, measure);
    var samples := SamplesOf(list, measure);
    forall i, j | 0 <= i < |samples| && 0 <= j < |samples[i]| ensures samples[i][j] >= 0 {
      CaseAt(list, measure, i);
      assert list[i] in list;
    }
    ConcatNotNegative(samples);
    var all := Concat(samples);
    PercentileMonotone(all, 50, 95);
    PercentileNotNegative(all, 50);
    LargestIs(all);
    PercentileAtMostLargest(all, 95, Largest(all));
  }

  lemma PassedCovers(list: seq<Scenario>, measure: Measurement, r: Report)
    requires Complete(list) && (forall s :: s in list ==> measure(s).Some? && WellMeasured(s, measure(s).value)) && ReportOf(list, measure, r)
    requires r.passed && forall i :: 0 <= i < |r.cases| ==> Fast(r.cases[i])
    ensures Covers(r)
  {
    hide Percentile, Largest, Concat, SamplesOf, CasesOf, ScenarioID, Position, Ids, Sets.Distinct, CaseValid, Fast, CaseOf, IsSlowest, SampleTotal, InMatrix;
    CompleteMembers(list);
    CaseCount(list, measure);
    forall i | 0 <= i < |r.cases| ensures CaseValid(r.cases[i]) {
      CaseAt(list, measure, i);
      assert list[i] in list;
      CleanCaseValid(list[i], measure(list[i]).value);
    }
    DistinctIds(list, measure);
    TotalIs(list, measure);
    GlobalOrder(list, measure);
    FastMeansPassed(list, measure);
    SlowestIsCase(list, measure, r);
    var i :| 0 <= i < |list| && r.slowest == r.cases[i].id;
    CaseAt(list, measure, i);
    CaseId(list[i], measure(list[i]).value);
    assert Ids(r.cases)[i] == r.slowest;
  }

  /** Main result: on a plausible bench a report that passes is always accepted, its setting included: the
      generated receipt never fails its own contract. */
  lemma PassedIsAccepted(o: Outside, setting: Setting, b: Bench, list: seq<Scenario>, r: Report)
    requires Ready(setting) && o.trustedURL(setting.url) && o.timestamp(setting.now) && Plausible(b)
    requires Complete(list) && (forall s :: s in list ==> Measure(b)(s).Some?)
    requires Headed(setting, r) && ReportOf(list, Measure(b), r) && r.passed && forall i :: 0 <= i < |r.cases| ==> Fast(r.cases[i])
    ensures Accepted(o, setting.sha, setting.url, r)
  {
    hide Complete, ReportOf, Fast, Covers, Plausible, WellMeasured, CaseRun, DatasetValid, EnvironmentValid, Frozen;
    forall s | s in list ensures WellMeasured(s, Measure(b)(s).value) { MeasuredWell(b, s); }
    PassedCovers(list, Measure(b), r);
  }

  lemma CaseId(s: Scenario, run: Run)
    ensures CaseOf(s, run).id != ""
  {
  }

  // ----- The run

  /** The scenario is measured and its case is fast. */
  predicate FastScenario(b: Bench, s: Scenario) {
    CaseRun(b, s).Some? && Fast(CaseOf(s, CaseRun(b, s).value))
  }

  lemma SlowIfUnmeasured(b: Bench)
    requires !AllMeasured(Measure(b))
    ensures exists s :: InMatrix(s) && !FastScenario(b, s)
  {
    hide InMatrix, CaseRun, Fast;
    var s :| InMatrix(s) && Measure(b)(s).None?;
    assert !FastScenario(b, s);
  }

  lemma FastIffPassed(b: Bench, list: seq<Scenario>, r: Report)
    requires Complete(list) && (forall s :: s in list ==> Measure(b)(s).Some?) && r.cases == CasesOf(list, Measure(b))
    ensures (forall i :: 0 <= i < |r.cases| ==> Fast(r.cases[i])) <==> forall s :: InMatrix(s) ==> FastScenario(b, s)
  {
    hide CasesOf, SamplesOf, CaseRun, CaseOf, Fast, Position, InMatrix;
    var measure := Measure(b);
    CaseCount(list, measure);
    CompleteMembers(list);
    forall i | 0 <= i < |list| ensures Fast(r.cases[i]) <==> FastScenario(b, list[i]) {
      CaseAt(list, measure, i);
      assert list[i] in list;
    }
    if forall i :: 0 <= i < |r.cases| ==> Fast(r.cases[i]) {
      forall s | InMatrix(s) ensures FastScenario(b, s) {
        EveryScenarioOnce(list, s);
        assert Fast(r.cases[Position(s)]);
      }
    } else {
      var i :| 0 <= i < |r.cases| && !Fast(r.cases[i]);
      assert InMatrix(list[i]) && !FastScenario(b, list[i]);
    }
  }

  /** execute. Without the frozen environment or dataset there is no report. A failing scenario ends the run
      with a report that has not passed; otherwise the report passes exactly when every case is fast, and
      the run succeeds exactly when its receipt is accepted too. On a plausible bench the receipt decides
      nothing any more: the run succeeds exactly when its report passes, and that is exactly when the
      environment and the dataset are the frozen ones and every scenario is measured and fast. */
  method Execute(o: Outside, setting: Setting, b: Bench) returns (report: Option<Report>, ok: bool, ghost list: seq<Scenario>)
    ensures report.Some? <==> Ready(setting)
    ensures report.Some? ==> Complete(list)
    ensures ok <==> report.Some? && report.value.passed && Accepted(o, setting.sha, setting.url, report.value)
    ensures report.Some? ==> Headed(setting, report.value) && (report.value.passed ==> AllMeasured(Measure(b)))
    ensures report.Some? && AllMeasured(Measure(b)) ==>
              && (forall s :: s in list ==> Measure(b)(s).Some?) && ReportOf(list, Measure(b), report.value)
              && (report.value.passed <==> forall i :: 0 <= i < |report.value.cases| ==> Fast(report.value.cases[i]))
    ensures o.trustedURL(setting.url) && o.timestamp(setting.now) && Plausible(b) ==>
              && (ok <==> report.Some? && report.value.passed)
              && (ok <==> Ready(setting) && forall s :: InMatrix(s) ==> FastScenario(b, s))
  {
    hide Percentile, Largest, Complete, IsSlowest, Fast, Accepted, CasesOf, SamplesOf, Concat, CaseRun, DatasetValid, Inspected, InMatrix, FastScenario, Plausible;
    var environment := Inspected(setting.machine, setting.sha, setting.url);
    if environment.None? || !DatasetValid(setting.dataset) {
      return None, false, [];
    }
    var measured, partial;
    measured, partial, list := MeasureAll(b);
    if measured.None? {
      SlowIfUnmeasured(b);
      return Some(Report(KIND, EVIDENCE_CLASS, setting.now, environment.value, setting.dataset, partial, 0, 0, 0, 0, 0, "",
                         LATENCY_LIMIT / 1_000_000, false)), false, list;
    }
    var (cases, all) := measured.value;
    ghost var measure := Measure(b);
    CaseCount(list, measure);
    CompleteLength(list);
    var max := MaxDuration(all);
    var slowest := Slowest(cases, max);
    var fast := AllFast(cases);
    var p50, p95 := Percentile(all, 50), Percentile(all, 95);
    var passed := |cases| == COMBINATIONS && p95 < LATENCY_LIMIT && fast;
    var r := Report(KIND, EVIDENCE_CLASS, setting.now, environment.value, setting.dataset, cases, |cases|, |all|, p50, p95, max, slowest,
                    LATENCY_LIMIT / 1_000_000, passed);
    FastMeansPassed(list, measure);
    report := Some(r);
    FastIffPassed(b, list, r);
    if o.trustedURL(setting.url) && o.timestamp(setting.now) && Plausible(b) && passed { PassedIsAccepted(o, setting, b, list, r); }
    if !passed { return report, false, list; }
    ok := ValidateReceipt(o, setting.sha, setting.url, r);
  }
}
