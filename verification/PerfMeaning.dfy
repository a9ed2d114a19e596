/** What a measured scenario, a report and an accepted receipt say, in terms of the calls, the samples and
    the plans themselves (executeCase, execute and validateReceipt in cmd/aicrm-contact-perf/main.go). */
module PerfMeaning {
  import opened Wrappers
  import opened PerfMatrix
  import opened PerfPlan
  import opened PerfEvidence
  import opened PerfReceipt
  import opened PerfCase
  import opened PerfRun
  import opened Percentiles
  import Sets

  // ----- The two statements a captured call must send

  predicate CountSQL(sql: string) {
    "-- name: CountCustomerIDsBounded :one" <= sql
  }

  predicate ListSQL(sql: string) {
    "-- name: ListCustomers :many" <= sql
  }

  predicate Ignored(sql: string) {
    !CountSQL(sql) && !ListSQL(sql)
  }

  lemma NameTells(sql: string)
    ensures NameOf(sql) == "" <==> Ignored(sql)
    ensures NameOf(sql) == "CountCustomerIDsBounded" <==> CountSQL(sql)
    ensures NameOf(sql) == "ListCustomers" <==> ListSQL(sql)
  {
    assert CountSQL(sql) ==> sql[9] == 'C';
    assert ListSQL(sql) ==> sql[9] == 'L';
    assert "CountCustomerIDsBounded"[0] != "ListCustomers"[0];
  }

  lemma {:induction false} NoneTraced(statements: seq<string>)
    ensures Traced(statements) == [] <==> forall k :: 0 <= k < |statements| ==> Ignored(statements[k])
  {
    hide NameOf, Ignored;
    if statements != [] {
      NoneTraced(statements[..|statements| - 1]);
      NameTells(statements[|statements| - 1]);
    }
  }

  /** Only the statement at i is traced. */
  predicate Alone(statements: seq<string>, i: int) {
    0 <= i < |statements| && forall k :: 0 <= k < |statements| && k != i ==> Ignored(statements[k])
  }

  function QueryAt(statements: seq<string>, i: nat): CapturedQuery
    requires i < |statements|
  {
    CapturedQuery(NameOf(statements[i]), statements[i])
  }

  lemma {:induction false} OneFrom(statements: seq<string>) returns (i: nat)
    requires |Traced(statements)| == 1
    ensures Alone(statements, i) && NameOf(statements[i]) != "" && Traced(statements) == [QueryAt(statements, i)]
  {
    hide NameOf, Ignored;
    var n := |statements| - 1;
    NoneTraced(statements[..n]);
    NameTells(statements[n]);
    i := n;
    if NameOf(statements[n]) == "" { i := OneFrom(statements[..n]); }
  }

  lemma {:induction false} OneTo(statements: seq<string>, i: nat)
    requires Alone(statements, i) && !Ignored(statements[i])
    ensures Traced(statements) == [QueryAt(statements, i)]
  {
    hide NameOf, Ignored;
    var n := |statements| - 1;
    NameTells(statements[n]);
    if i < n {
      OneTo(statements[..n], i);
    } else {
      NoneTraced(statements[..n]);
    }
  }

  /** Only the statements at i and j are traced. */
  predicate Both(statements: seq<string>, i: int, j: int) {
    0 <= i < j < |statements| && forall k :: 0 <= k < |statements| && k != i && k != j ==> Ignored(statements[k])
  }

  lemma {:induction false} TwoFrom(statements: seq<string>) returns (i: nat, j: nat)
    requires |Traced(statements)| == 2
    ensures Both(statements, i, j) && Traced(statements) == [QueryAt(statements, i), QueryAt(statements, j)]
  {
    hide NameOf, Ignored;
    var n := |statements| - 1;
    NameTells(statements[n]);
    if NameOf(statements[n]) == "" {
      i, j := TwoFrom(statements[..n]);
    } else {
      i := OneFrom(statements[..n]);
      j := n;
    }
  }

  lemma {:induction false} TwoTo(statements: seq<string>, i: nat, j: nat)
    requires Both(statements, i, j) && !Ignored(statements[i]) && !Ignored(statements[j])
    ensures Traced(statements) == [QueryAt(statements, i), QueryAt(statements, j)]
  {
    hide NameOf, Ignored;
    var n := |statements| - 1;
    NameTells(statements[n]);
    if j < n {
      TwoTo(statements[..n], i, j);
    } else {
      OneTo(statements[..n], i);
    }
  }

  /** The call sends the count query, then the list query, and neither twice. */
  ghost predicate Sends(statements: seq<string>, count: string, list: string) {
    exists i, j :: Both(statements, i, j) && CountSQL(statements[i]) && ListSQL(statements[j]) && statements[i] == count && statements[j] == list
  }

  lemma SendsIff(statements: seq<string>, count: string, list: string)
    ensures Traced(statements) == [CapturedQuery("CountCustomerIDsBounded", count), CapturedQuery("ListCustomers", list)]
            <==> Sends(statements, count, list)
  {
    hide NameOf, Ignored, Traced, CountSQL, ListSQL;
    if Traced(statements) == [CapturedQuery("CountCustomerIDsBounded", count), CapturedQuery("ListCustomers", list)] {
      var i, j := TwoFrom(statements);
      NameTells(statements[i]);
      NameTells(statements[j]);
    }
    if i, j :| Both(statements, i, j) && CountSQL(statements[i]) && ListSQL(statements[j]) && statements[i] == count && statements[j] == list {
      NameTells(statements[i]);
      NameTells(statements[j]);
      Relevant(statements[i]);
      Relevant(statements[j]);
      TwoTo(statements, i, j);
    }
  }

  lemma Relevant(sql: string)
    ensures CountSQL(sql) || ListSQL(sql) <==> !Ignored(sql)
  {
    hide CountSQL, ListSQL;
  }

  // ----- A measured scenario

  /** The query that is measured, and the page before it: a next page is asked for after the last customer of
      a full first page. */
  ghost predicate Prepared(b: Bench, s: Scenario, q: Query, before: seq<Customer>) {
    if s.nextPage then
      && b.call(s, QueryFor(s), 0).page == Some(Page(before, true)) && |before| == s.limit > 0
      && q == QueryFor(s).(after := Some((before[|before| - 1].updatedAt, before[|before| - 1].id)))
    else
      q == QueryFor(s) && before == []
  }

  /** The page is full, has more behind it, and repeats nobody of the page before. */
  ghost predicate FullPage(s: Scenario, before: seq<Customer>, reply: Reply) {
    && reply.page.Some? && |reply.page.value.items| == s.limit && reply.page.value.hasMore
    && (s.nextPage ==> forall i, j :: 0 <= i < |before| && 0 <= j < s.limit ==> before[i].id != reply.page.value.items[j].id)
  }

  /** How a scenario is measured: after the first page come the warm-ups, the captured call and the samples;
      every page is full, the captured call sends the two frozen queries, and only the samples are timed. */
  ghost predicate MeasuredAs(b: Bench, s: Scenario, run: Run, q: Query, before: seq<Customer>) {
    var first := if s.nextPage then 1 else 0;
    var captured := first + b.warmups;
    && Prepared(b, s, q, before)
    && (forall k :: first <= k <= captured + b.samples ==> FullPage(s, before, b.call(s, q, k)))
    && |run.durations| == b.samples && (forall i :: 0 <= i < b.samples ==> run.durations[i] == b.call(s, q, captured + 1 + i).duration)
    && run.matched == s.limit && run.hasMore
    && |run.plans| == 2
    && exists count, list ::
         && Sends(b.call(s, q, captured).statements, count, list)
         && Plan(b, s, CapturedQuery("CountCustomerIDsBounded", count)) == Some(run.plans[0])
         && Plan(b, s, CapturedQuery("ListCustomers", list)) == Some(run.plans[1])
  }

  lemma PreparedIs(b: Bench, s: Scenario)
    ensures AnchorValid(b, s) <==> exists q, before :: Prepared(b, s, q, before)
    ensures AnchorValid(b, s) ==> Prepared(b, s, Measured(b, s), Anchor(b, s).value.items)
    ensures forall q, before :: Prepared(b, s, q, before) ==> AnchorValid(b, s) && q == Measured(b, s) && before == Anchor(b, s).value.items
  {
    hide QueryFor;
    if AnchorValid(b, s) { assert Prepared(b, s, Measured(b, s), Anchor(b, s).value.items); }
  }

  lemma FullPageIs(b: Bench, s: Scenario, k: nat)
    requires AnchorValid(b, s)
    ensures Answer(b, s, k).page.Some? && PageValid(s, Anchor(b, s).value, Answer(b, s, k).page.value)
            <==> FullPage(s, Anchor(b, s).value.items, b.call(s, Measured(b, s), k))
  {
    hide QueryFor, Measured, Anchor, AnchorValid;
  }

  lemma PagesAre(b: Bench, s: Scenario, from: nat, to: nat)
    requires AnchorValid(b, s)
    ensures PagesValid(b, s, from, to) <==> forall k :: from <= k < to ==> FullPage(s, Anchor(b, s).value.items, b.call(s, Measured(b, s), k))
  {
    hide QueryFor, Measured, FullPage, PageValid;
    forall k | from <= k < to
      ensures Answer(b, s, k).page.Some? && PageValid(s, Anchor(b, s).value, Answer(b, s, k).page.value)
              <==> FullPage(s, Anchor(b, s).value.items, b.call(s, Measured(b, s), k))
    {
      FullPageIs(b, s, k);
    }
  }

  lemma QueriesAre(statements: seq<string>)
    ensures FrozenQueries(Traced(statements)) ==>
              Sends(statements, Traced(statements)[0].sql, Traced(statements)[1].sql)
              && Traced(statements)[0].name == "CountCustomerIDsBounded" && Traced(statements)[1].name == "ListCustomers"
    ensures forall count, list :: Sends(statements, count, list) ==>
              FrozenQueries(Traced(statements)) && Traced(statements)[0].sql == count && Traced(statements)[1].sql == list
  {
    hide Traced, Sends;
    var queries := Traced(statements);
    if FrozenQueries(queries) {
      assert queries == [CapturedQuery("CountCustomerIDsBounded", queries[0].sql), CapturedQuery("ListCustomers", queries[1].sql)];
      SendsIff(statements, queries[0].sql, queries[1].sql);
    }
    forall count, list | Sends(statements, count, list)
      ensures FrozenQueries(queries) && queries[0].sql == count && queries[1].sql == list
    {
      SendsIff(statements, count, list);
    }
  }

  /** Main result: executeCase returns a run exactly when the scenario was measured so. */
  lemma CaseRunIff(b: Bench, s: Scenario, run: Run)
    ensures CaseRun(b, s) == Some(run) <==> exists q, before :: MeasuredAs(b, s, run, q, before)
  {
    if CaseRun(b, s) == Some(run) { MeasuredFrom(b, s, run); }
    if q, before :| MeasuredAs(b, s, run, q, before) { MeasuredTo(b, s, run, q, before); }
  }

  lemma MeasuredFrom(b: Bench, s: Scenario, run: Run)
    requires CaseRun(b, s) == Some(run)
    ensures MeasuredAs(b, s, run, Measured(b, s), Anchor(b, s).value.items)
  {
    hide QueryFor, Measured, Anchor, AnchorValid, FullPage, PageValid, PagesValid, Prepared, Sends, Traced, Plan, Answer;
    PreparedIs(b, s);
    var first := Start(s);
    var captured := first + b.warmups;
    PagesAre(b, s, first, captured + 1 + b.samples);
    CallIs(b, s, captured);
    QueriesAre(Answer(b, s, captured).statements);
    forall i | 0 <= i < b.samples ensures run.durations[i] == b.call(s, Measured(b, s), captured + 1 + i).duration { CallIs(b, s, captured + 1 + i); }
    PageOf(b, s, captured);
  }

  lemma CallIs(b: Bench, s: Scenario, k: nat)
    requires AnchorValid(b, s)
    ensures Answer(b, s, k) == b.call(s, Measured(b, s), k)
  {
    hide Measured, AnchorValid;
  }

  lemma PageOf(b: Bench, s: Scenario, k: nat)
    requires AnchorValid(b, s) && FullPage(s, Anchor(b, s).value.items, b.call(s, Measured(b, s), k))
    ensures Answer(b, s, k).page.Some? && |Answer(b, s, k).page.value.items| == s.limit && Answer(b, s, k).page.value.hasMore
  {
    hide Measured, AnchorValid, Anchor;
  }

  lemma MeasuredTo(b: Bench, s: Scenario, run: Run, q: Query, before: seq<Customer>)
    requires MeasuredAs(b, s, run, q, before)
    ensures CaseRun(b, s) == Some(run)
  {
    hide QueryFor, Measured, Anchor, AnchorValid, FullPage, PageValid, PagesValid, Prepared, Sends, Traced, Plan, Answer;
    PreparedIs(b, s);
    var first := Start(s);
    var captured := first + b.warmups;
    PagesAre(b, s, first, captured + 1 + b.samples);
    CallIs(b, s, captured);
    QueriesAre(Answer(b, s, captured).statements);
    PageOf(b, s, captured);
    forall i | 0 <= i < b.samples ensures run.durations[i] == Answer(b, s, captured + 1 + i).duration { CallIs(b, s, captured + 1 + i); }
    assert run.durations == Durations(b, s, captured + 1, b.samples);
    var queries := Traced(Answer(b, s, captured).statements);
    assert queries == [queries[0], queries[1]];
    assert run.plans == [run.plans[0], run.plans[1]];
  }

  // ----- Plans

  lemma {:induction false} SameBelow(n: PlanNode, m: PlanNode, k: nat, hits: bool)
    requires k <= |n.children| && n.children <= m.children
    ensures BlocksOf(n, k, hits) == BlocksOf(m, k, hits)
  {
    if k > 0 {
      SameBelow(n, m, k - 1, hits);
      assert n.children[k - 1] == m.children[k - 1];
    }
  }

  /** The blocks of a tree: those of its root, negative counts aside, and those of every subtree. */
  lemma BlocksOfTree(kind: string, relation: string, hit: int, read: int, children: seq<PlanNode>, child: PlanNode)
    ensures Blocks(PlanNode(kind, relation, hit, read, []), true) == (if hit > 0 then hit else 0)
    ensures Blocks(PlanNode(kind, relation, hit, read, []), false) == (if read > 0 then read else 0)
    ensures forall hits :: Blocks(PlanNode(kind, relation, hit, read, children + [child]), hits)
                           == Blocks(PlanNode(kind, relation, hit, read, children), hits) + Blocks(child, hits)
  {
    var less, more := PlanNode(kind, relation, hit, read, children), PlanNode(kind, relation, hit, read, children + [child]);
    forall hits ensures Blocks(more, hits) == Blocks(less, hits) + Blocks(child, hits) { SameBelow(less, more, |children|, hits); }
  }

  /** Evidence that fits its plan: the times are the plan's, the blocks those of its tree, the node types
      those that occur, and no node scans a customer table from end to end. */
  ghost predicate Shows(e: Explain, p: PlanEvidence) {
    && 2 <= e.size <= 262_144 && e.roots.Some? && |e.roots.value| == 1 && e.roots.value[0].plan.Some?
    && var n := e.roots.value[0].plan.value;
       && p.planning == e.roots.value[0].planning && p.execution == e.roots.value[0].execution
       && p.hit == Blocks(n, true) && p.read == Blocks(n, false) && p.explain == e
       && (forall kind :: kind in p.nodeTypes <==> kind != "" && exists d :: InTree(d, n) && d.kind == kind)
       && (p.forbidden == [] <==> forall d :: InTree(d, n) && d.kind == "Seq Scan" ==> d.relation !in {"customers", "customer_tags"})
  }

  lemma DecodedShows(query: string, e: Explain, p: PlanEvidence)
    requires Decoded(query, e) == Some(p)
    ensures Shows(e, p) && p.query == query
  {
    hide Tidy, InTree;
    DecodedReportsTree(query, e);
    forall d ensures ForbiddenScan(d) <==> d.kind == "Seq Scan" && d.relation in {"customers", "customer_tags"} {}
  }

  // ----- Texts

  function TextOf(m: TimeMode): string {
    if m == TimeNone then "none" else if m == TimeAfter then "after" else if m == TimeBefore then "before" else "closed"
  }

  lemma ModeTextIs(m: TimeMode)
    ensures ModeText(m) == TextOf(m)
  {
  }

  // ----- The report

  /** A case of the report: the scenario's own fields, and the nearest-rank percentiles and the maximum of the
      durations measured for it. */
  ghost predicate Reports(s: Scenario, run: Run, c: Case) {
    && c.id == ScenarioID(s) && c.selectorMask == s.selectorMask && c.deleted == s.deleted && c.limit == s.limit
    && c.addedMode == TextOf(s.added) && c.interactMode == TextOf(s.interact) && c.page == (if s.nextPage then "next" else "first")
    && c.samples == |run.durations| && c.matched == run.matched && c.hasMore == run.hasMore && c.plans == run.plans
    && (run.durations != [] ==> NearestRank(run.durations, 50, c.p50) && NearestRank(run.durations, 95, c.p95))
    && IsLargest(run.durations, c.max)
  }

  lemma CaseReports(s: Scenario, run: Run)
    ensures Reports(s, run, CaseOf(s, run))
  {
    hide ScenarioID, Percentile, ModeText, TextOf, NearestRank, IsLargest;
    ModeTextIs(s.added);
    ModeTextIs(s.interact);
    if run.durations != [] {
      PercentileIsNearestRank(run.durations, 50, Percentile(run.durations, 50));
      PercentileIsNearestRank(run.durations, 95, Percentile(run.durations, 95));
    }
  }

  lemma {:induction false} EqualParts(cases: seq<seq<int>>, n: nat)
    requires forall i :: 0 <= i < |cases| ==> |cases[i]| == n
    ensures |Concat(cases)| == |cases| * n
  {
    if cases != [] { EqualParts(cases[..|cases| - 1], n); }
  }

  /** Main result: the report of a complete run says of every scenario how it was measured, and of all samples
      together the nearest-rank percentiles and the maximum. */
  lemma ReportMeans(b: Bench, list: seq<Scenario>, r: Report, i: nat)
    requires Complete(list) && i < |list| && (forall s :: s in list ==> Measure(b)(s).Some?) && ReportOf(list, Measure(b), r)
    ensures |r.cases| == 4096 == r.combinationCount && r.sampleCount == 4096 * b.samples
    ensures exists run, q, before :: MeasuredAs(b, list[i], run, q, before) && Reports(list[i], run, r.cases[i])
    ensures var all := Concat(SamplesOf(list, Measure(b)));
            IsLargest(all, r.max) && (all != [] ==> NearestRank(all, 50, r.p50) && NearestRank(all, 95, r.p95))
    ensures r.thresholdMS == 200
  {
    hide Percentile, Largest, Concat, SamplesOf, CasesOf, CaseOf, ScenarioID, CaseRun, MeasuredAs, Reports, NearestRank, IsSlowest, InMatrix, Position;
    var measure := Measure(b);
    CaseAt(list, measure, i);
    assert list[i] in list;
    CaseRunIff(b, list[i], measure(list[i]).value);
    CaseReports(list[i], measure(list[i]).value);
    CaseCount(list, measure);
    forall k | 0 <= k < |SamplesOf(list, measure)| ensures |SamplesOf(list, measure)[k]| == b.samples {
      CaseAt(list, measure, k);
      assert list[k] in list;
      SampleCount(b, list[k]);
    }
    EqualParts(SamplesOf(list, measure), b.samples);
    var all := Concat(SamplesOf(list, measure));
    LargestIs(all);
    if all != [] {
      PercentileIsNearestRank(all, 50, r.p50);
      PercentileIsNearestRank(all, 95, r.p95);
    }
  }

  lemma SampleCount(b: Bench, s: Scenario)
    requires CaseRun(b, s).Some?
    ensures |CaseRun(b, s).value.durations| == b.samples
  {
    hide AnchorValid, PagesValid, Answer, Traced, Plan, FrozenQueries;
  }

  // ----- An accepted receipt

  /** The tier and the binary a receipt is accepted for. */
  predicate FrozenTier(e: Environment, sha: string, url: string) {
    && |sha| == 40 && (forall k :: 0 <= k < 40 ==> '0' <= sha[k] <= '9' || 'a' <= sha[k] <= 'f')
    && e.sourceSHA == sha && e.revision == sha && !e.modified && e.mainCIURL == url && e.database == "aicrm_perf" && e.version == "160014"
    && e.cpus == 2 && 3_500_000 <= e.memory <= 4_800_000 && e.swap >= 4_000_000 && e.goMemoryLimit == 805_306_368
    && e.sharedBuffers == "1GB" && e.effectiveCacheSize == "2GB" && e.workMem == "8MB" && e.maxConnections == "40"
  }

  predicate FrozenDataset(d: Dataset) {
    && d.customers == 200_000 && d.customerTags == 600_000 && d.staff == 64 && d.stages == 8 && d.channels == 12 && d.tags == 50
    && d.deleted == 10_000 && d.hotActive >= 500 && d.hotDeleted >= 500
    && d.addedBefore >= 1 && d.addedWithin >= 1 && d.addedAfter >= 1 && d.addedBefore + d.addedWithin + d.addedAfter == 200_000
    && d.interactBefore >= 1 && d.interactWithin >= 1 && d.interactAfter >= 1 && d.interactBefore + d.interactWithin + d.interactAfter == 200_000
  }

  /** A case that proves its scenario: enough samples, 95 per cent of them under 200 ms, a full page with more
      behind it, and both plans without a scan of a whole customer table. */
  ghost predicate Proves(s: Scenario, c: Case) {
    && c.id == ScenarioID(s) && c.selectorMask == s.selectorMask && c.deleted == s.deleted && c.limit == s.limit
    && c.addedMode == TextOf(s.added) && c.interactMode == TextOf(s.interact) && c.page == (if s.nextPage then "next" else "first")
    && c.samples >= 20 && 0 <= c.p50 <= c.p95 <= c.max && c.p95 < 200_000_000 && c.matched == s.limit && c.hasMore
    && |c.plans| == 2 && {c.plans[0].query, c.plans[1].query} == {"CountCustomerIDsBounded", "ListCustomers"}
    && (forall k :: 0 <= k < 2 ==> ProvesPlan(c.plans[k]))
  }

  ghost predicate ProvesPlan(p: PlanEvidence) {
    && p.planning >= 0 && p.execution >= 0 && p.hit >= 0 && p.read >= 0 && p.nodeTypes != [] && p.forbidden == []
    && Decoded(p.query, p.explain) == Some(p)
  }

  lemma PlanProves(p: PlanEvidence)
    ensures PlanValid(p) <==> ProvesPlan(p) && p.query in {"CountCustomerIDsBounded", "ListCustomers"}
  {
    hide Decoded;
  }

  lemma PlansProve(plans: seq<PlanEvidence>)
    ensures PlansValid(plans) <==>
            |plans| == 2 && {plans[0].query, plans[1].query} == {"CountCustomerIDsBounded", "ListCustomers"}
            && forall k :: 0 <= k < 2 ==> ProvesPlan(plans[k])
  {
    hide PlanValid, ProvesPlan;
    assert "CountCustomerIDsBounded"[0] != "ListCustomers"[0];
    forall p { PlanProves(p); }
    if PlansValid(plans) {
      assert {plans[0].query, plans[1].query} == {"CountCustomerIDsBounded", "ListCustomers"};
    }
    if |plans| == 2 && {plans[0].query, plans[1].query} == {"CountCustomerIDsBounded", "ListCustomers"} {
      assert plans[0].query in {"CountCustomerIDsBounded", "ListCustomers"} && plans[1].query in {"CountCustomerIDsBounded", "ListCustomers"};
      assert "CountCustomerIDsBounded" in {plans[0].query, plans[1].query} && "ListCustomers" in {plans[0].query, plans[1].query};
    }
  }

  lemma CaseProves(c: Case)
    ensures CaseValid(c) <==> exists s :: InMatrix(s) && Proves(s, c)
  {
    hide ScenarioID, PlansValid, ProvesPlan, ModeText, TextOf, InMatrix;
    PlansProve(c.plans);
    forall m { ModeTextIs(m); }
    if s :| InMatrix(s) && c.id == ScenarioID(s) && Measures(c, s) && PlansValid(c.plans) { assert Proves(s, c); }
    if s :| InMatrix(s) && Proves(s, c) { assert Measures(c, s); }
  }

  /** Main result: a receipt is accepted exactly when it is of the frozen tier and dataset and its 4096 cases,
      no two of one id, each prove a scenario, with their samples adding up and the summary within the limit. */
  lemma AcceptedIff(o: Outside, sha: string, url: string, v: Report)
    ensures Accepted(o, sha, url, v) <==>
            && v.kind == "contact_customer_list_s_tier_hard_gate" && v.evidenceClass == "authorized_test_server_synthetic"
            && o.timestamp(v.generatedAt) && o.trustedURL(url) && FrozenTier(v.environment, sha, url) && FrozenDataset(v.dataset)
            && v.passed && v.thresholdMS == 200 && |v.cases| == 4096 == v.combinationCount && v.sampleCount >= 81_920
            && 0 <= v.p50 <= v.p95 <= v.max && v.p95 < 200_000_000 && v.slowest != ""
            && (forall i :: 0 <= i < |v.cases| ==> exists s :: InMatrix(s) && Proves(s, v.cases[i]))
            && (forall i, j :: 0 <= i < j < |v.cases| ==> v.cases[i].id != v.cases[j].id)
            && v.sampleCount == SampleTotal(v.cases) && exists i :: 0 <= i < |v.cases| && v.cases[i].id == v.slowest
  {
    hide Proves, CaseValid, InMatrix, SampleTotal, DatasetValid, FrozenDataset, EnvironmentValid, FrozenTier;
    forall c { CaseProves(c); }
    TierIs(o, sha, url, v.environment);
    DatasetIs(v.dataset);
    var ids := Ids(v.cases);
    if Sets.Distinct(ids) { forall i, j | 0 <= i < j < |v.cases| ensures v.cases[i].id != v.cases[j].id { assert ids[i] != ids[j]; } }
    if v.slowest in ids { var i :| 0 <= i < |ids| && ids[i] == v.slowest; }
    if i :| 0 <= i < |v.cases| && v.cases[i].id == v.slowest { assert ids[i] == v.slowest; }
  }

  lemma TierIs(o: Outside, sha: string, url: string, e: Environment)
    ensures EnvironmentValid(o, sha, url, e) <==> o.trustedURL(url) && FrozenTier(e, sha, url)
  {
  }

  lemma DatasetIs(d: Dataset)
    ensures DatasetValid(d) <==> FrozenDataset(d)
  {
  }
}
