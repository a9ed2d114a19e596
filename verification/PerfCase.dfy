/** Measuring one scenario (executeCase, queryCapture and their helpers in cmd/aicrm-contact-perf/main.go).
    What the repository and EXPLAIN answer are functions of the call. */
module PerfCase {
  import opened Wrappers
  import opened PerfMatrix
  import opened PerfReceipt

  // ----- Queries and answers

  /** What a page is asked for: the keyword kw000 to kw127 by its number, instants in seconds since
      2026-01-01; after is the keyset position of a continuation, update time and id. */
  datatype Query = Query(
    watermark: int, deleted: bool, limit: int, keyword: Option<int>, ownerStaffID: Option<int>, stageID: Option<int>, channelID: Option<int>,
    tagID: Option<int>, addedAfter: Option<int>, addedBefore: Option<int>, interactAfter: Option<int>, interactBefore: Option<int>,
    after: Option<(int, int)>)

  const DAY := 86_400
  const WATERMARK := 224 * DAY
  const ADDED_AFTER := 90 * DAY
  const ADDED_BEFORE := 212 * DAY - 1
  const INTERACT_AFTER := 120 * DAY
  const INTERACT_BEFORE := 223 * DAY - 1

  function HasBit(mask: nat, bit: nat): bool
    requires bit > 0
  {
    mask / bit % 2 == 1
  }

  function When(condition: bool, value: int): Option<int> {
    if condition then Some(value) else None
  }

  /** timeRange */
  function TimeRange(mode: TimeMode, after: int, before: int): (Option<int>, Option<int>) {
    match mode
    case TimeNone => (None, None)
    case TimeAfter => (Some(after), None)
    case TimeBefore => (None, Some(before))
    case TimeClosed => (Some(after), Some(before))
  }

  /** queryForScenario: the selectors of the mask with their fixed values, the watermark and the two windows. */
  function QueryFor(s: Scenario): Query {
    var added, interact := TimeRange(s.added, ADDED_AFTER, ADDED_BEFORE), TimeRange(s.interact, INTERACT_AFTER, INTERACT_BEFORE);
    Query(WATERMARK, s.deleted, s.limit, When(HasBit(s.selectorMask, 1), 17), When(HasBit(s.selectorMask, 2), 7),
          When(HasBit(s.selectorMask, 4), 3), When(HasBit(s.selectorMask, 8), 5), When(HasBit(s.selectorMask, 16), 11),
          added.0, added.1, interact.0, interact.1, None)
  }

  function BitValue(b: bool): nat {
    if b then 1 else 0
  }

  lemma MaskOfBits(mask: nat)
    requires mask < MASKS
    ensures mask == BitValue(HasBit(mask, 1)) + 2 * BitValue(HasBit(mask, 2)) + 4 * BitValue(HasBit(mask, 4)) + 8 * BitValue(HasBit(mask, 8))
                    + 16 * BitValue(HasBit(mask, 16))
  {
  }

  /** Any choice of selectors is asked for by the mask with their bits, and each mask asks for just those;
      each window is open on the sides its mode leaves open. */
  lemma QueryAsks(s: Scenario, keyword: bool, owner: bool, stage: bool, channel: bool, tag: bool)
    requires s.selectorMask == BitValue(keyword) + 2 * BitValue(owner) + 4 * BitValue(stage) + 8 * BitValue(channel) + 16 * BitValue(tag)
    ensures var q := QueryFor(s);
            && q.deleted == s.deleted && q.limit == s.limit && q.after.None? && q.watermark == 19_353_600
            && q.keyword == (if keyword then Some(17) else None) && q.ownerStaffID == (if owner then Some(7) else None)
            && q.stageID == (if stage then Some(3) else None) && q.channelID == (if channel then Some(5) else None)
            && q.tagID == (if tag then Some(11) else None)
            && q.addedAfter == (if s.added in {TimeAfter, TimeClosed} then Some(7_776_000) else None)
            && q.addedBefore == (if s.added in {TimeBefore, TimeClosed} then Some(18_316_799) else None)
            && q.interactAfter == (if s.interact in {TimeAfter, TimeClosed} then Some(10_368_000) else None)
            && q.interactBefore == (if s.interact in {TimeBefore, TimeClosed} then Some(19_267_199) else None)
  {
  }

  lemma RangeTells(m: TimeMode, n: TimeMode, after: int, before: int)
    requires TimeRange(m, after, before) == TimeRange(n, after, before)
    ensures m == n
  {
  }

  /** No two scenarios of one page ask the same: a query determines its scenario. */
  lemma QueryDeterminesScenario(s: Scenario, t: Scenario)
    requires InMatrix(s) && InMatrix(t) && s.nextPage == t.nextPage && QueryFor(s) == QueryFor(t)
    ensures s == t
  {
    hide HasBit;
    MaskOfBits(s.selectorMask);
    MaskOfBits(t.selectorMask);
    RangeTells(s.added, t.added, ADDED_AFTER, ADDED_BEFORE);
    RangeTells(s.interact, t.interact, INTERACT_AFTER, INTERACT_BEFORE);
  }

  datatype Customer = Customer(id: int, updatedAt: int)

  datatype Page = Page(items: seq<Customer>, hasMore: bool)

  /** One call of the repository: its page unless it fails, the SQL it sent, and the time it took. */
  datatype Reply = Reply(page: Option<Page>, statements: seq<string>, duration: int)

  datatype CapturedQuery = CapturedQuery(name: string, sql: string)

  /** call gives the k-th answer in a scenario, explain the plan of a captured query. */
  datatype Bench = Bench(
    call: (Scenario, Query, nat) -> Reply, explain: (Scenario, CapturedQuery) -> Option<Explain>, samples: nat, warmups: nat)

  // ----- Capturing queries

  const COUNT_PREFIX := "-- name: CountCustomerIDsBounded :one"
  const LIST_PREFIX := "-- name: ListCustomers :many"

  function NameOf(sql: string): string {
    if COUNT_PREFIX <= sql then COUNT_QUERY else if LIST_PREFIX <= sql then LIST_QUERY else ""
  }

  function Traced(statements: seq<string>): seq<CapturedQuery> {
    if statements == [] then []
    else
      var front, last := Traced(statements[..|statements| - 1]), statements[|statements| - 1];
      if NameOf(last) == "" then front else front + [CapturedQuery(NameOf(last), last)]
  }

  predicate FrozenQueries(queries: seq<CapturedQuery>) {
    |queries| == 2 && queries[0].name == COUNT_QUERY && queries[1].name == LIST_QUERY
  }

  class QueryCapture {
    var active: bool
    var queries: seq<CapturedQuery>

    constructor ()
      ensures !active && queries == []
    {
      active, queries := false, [];
    }

    /** TraceQueryStart */
    method Trace(sql: string)
      modifies this
      ensures active == old(active)
      ensures queries == old(queries) + if active then Traced([sql]) else []
    {
      TracedOne(sql);
      var name := NameOf(sql);
      if name != "" && active {
        queries := queries + [CapturedQuery(name, sql)];
      }
    }

    method Begin()
      modifies this
      ensures active && queries == []
    {
      active, queries := true, [];
    }

    method Finish() returns (captured: Option<seq<CapturedQuery>>)
      modifies this
      ensures !active && queries == []
      ensures captured == if FrozenQueries(old(queries)) then Some(old(queries)) else None
    {
      active := false;
      var found := queries;
      queries := [];
      if |found| != 2 || found[0].name != COUNT_QUERY || found[1].name != LIST_QUERY { return None; }
      captured := Some(found);
    }
  }

  lemma TracedOne(sql: string)
    ensures Traced([sql]) == if NameOf(sql) == "" then [] else [CapturedQuery(NameOf(sql), sql)]
  {
    hide NameOf;
    assert [sql][..0] == [];
  }

  lemma TracedMore(statements: seq<string>, i: nat)
    requires i < |statements|
    ensures Traced(statements[..i + 1]) == Traced(statements[..i]) + Traced([statements[i]])
  {
    hide NameOf;
    TracedOne(statements[i]);
    assert statements[..i + 1][..i] == statements[..i];
  }

  /** callRepository: every statement passes the tracer. */
  method CallRepository(capture: QueryCapture, reply: Reply) returns (page: Option<Page>)
    modifies capture
    ensures page == reply.page && capture.active == old(capture.active)
    ensures capture.queries == old(capture.queries) + if capture.active then Traced(reply.statements) else []
  {
    hide Traced, NameOf;
    assert reply.statements[..0] == [];
    NothingTraced();
    for i := 0 to |reply.statements|
      invariant capture.active == old(capture.active)
      invariant capture.queries == old(capture.queries) + if capture.active then Traced(reply.statements[..i]) else []
    {
      TracedMore(reply.statements, i);
      capture.Trace(reply.statements[i]);
    }
    assert reply.statements[..|reply.statements|] == reply.statements;
    page := reply.page;
  }

  lemma NothingTraced()
    ensures Traced([]) == []
  {
  }

  // ----- Pages

  predicate Overlapping(first: seq<Customer>, second: seq<Customer>) {
    exists i, j :: 0 <= i < |first| && 0 <= j < |second| && first[i].id == second[j].id
  }

  method Overlaps(first: seq<Customer>, second: seq<Customer>) returns (found: bool)
    ensures found <==> Overlapping(first, second)
  {
    var seen: set<int> := {};
    for i := 0 to |first|
      invariant forall j :: 0 <= j < i ==> first[j].id in seen
      invariant forall id :: id in seen ==> exists j :: 0 <= j < i && first[j].id == id
    {
      seen := seen + {first[i].id};
    }
    for i := 0 to |second|
      invariant forall j :: 0 <= j < i ==> second[j].id !in seen
    {
      if second[i].id in seen { return true; }
    }
    found := false;
  }

  const NO_PAGE := Page([], false)

  predicate PageValid(s: Scenario, anchor: Page, page: Page) {
    |page.items| == s.limit && page.hasMore && (s.nextPage ==> !Overlapping(anchor.items, page.items))
  }

  method ValidateScenarioPage(s: Scenario, anchor: Page, page: Page) returns (ok: bool)
    ensures ok <==> PageValid(s, anchor, page)
  {
    if |page.items| != s.limit || !page.hasMore { return false; }
    if s.nextPage {
      var overlap := Overlaps(anchor.items, page.items);
      if overlap { return false; }
    }
    ok := true;
  }

  // ----- What a scenario yields

  /** The number of calls before the first warm-up. */
  function Start(s: Scenario): nat {
    if s.nextPage then 1 else 0
  }

  function Anchor(b: Bench, s: Scenario): Option<Page> {
    if s.nextPage then b.call(s, QueryFor(s), 0).page else Some(NO_PAGE)
  }

  predicate AnchorValid(b: Bench, s: Scenario) {
    Anchor(b, s).Some? && (s.nextPage ==> Anchor(b, s).value.hasMore && |Anchor(b, s).value.items| == s.limit > 0)
  }

  /** The query that is measured: for a next page, the continuation after the last customer of the first. */
  function Measured(b: Bench, s: Scenario): Query
    requires AnchorValid(b, s)
  {
    if s.nextPage then
      var items := Anchor(b, s).value.items;
      var last := items[|items| - 1];
      QueryFor(s).(after := Some((last.updatedAt, last.id)))
    else QueryFor(s)
  }

  function Answer(b: Bench, s: Scenario, k: nat): Reply
    requires AnchorValid(b, s)
  {
    b.call(s, Measured(b, s), k)
  }

  /** Calls from one number up to another all answer with a valid page. */
  predicate PagesValid(b: Bench, s: Scenario, from: nat, to: nat)
    requires AnchorValid(b, s)
  {
    forall k :: from <= k < to ==> Answer(b, s, k).page.Some? && PageValid(s, Anchor(b, s).value, Answer(b, s, k).page.value)
  }

  function Durations(b: Bench, s: Scenario, from: nat, n: nat): (d: seq<int>)
    requires AnchorValid(b, s)
    ensures |d| == n && forall i :: 0 <= i < n ==> d[i] == Answer(b, s, from + i).duration
  {
    seq(n, i requires 0 <= i => Answer(b, s, from + i).duration)
  }

  function Plan(b: Bench, s: Scenario, q: CapturedQuery): Option<PlanEvidence> {
    match b.explain(s, q)
    case None => None
    case Some(raw) => Decoded(q.name, raw)
  }

  datatype Run = Run(durations: seq<int>, matched: int, hasMore: bool, plans: seq<PlanEvidence>)

  /** What executeCase returns: an anchor for a next page, warm-ups, one captured call whose two queries
      are explained, then the samples. */
  function CaseRun(b: Bench, s: Scenario): Option<Run> {
    if !AnchorValid(b, s) then None
    else
      var captured := Start(s) + b.warmups;
      if !PagesValid(b, s, Start(s), captured + 1 + b.samples) then None
      else
        var first, queries := Answer(b, s, captured).page.value, Traced(Answer(b, s, captured).statements);
        if !FrozenQueries(queries) then None
        else
          match (Plan(b, s, queries[0]), Plan(b, s, queries[1]))
          case (Some(p), Some(q)) => Some(Run(Durations(b, s, captured + 1, b.samples), |first.items|, first.hasMore, [p, q]))
          case _ => None
  }

  method ExplainQuery(b: Bench, s: Scenario, q: CapturedQuery) returns (plan: Option<PlanEvidence>)
    ensures plan == Plan(b, s, q)
  {
    var raw := b.explain(s, q);
    if raw.None? { return None; }
    plan := DecodePlanEvidence(q.name, raw.value);
  }

  /** One call outside the capture, with its page checked. */
  method OneCall(capture: QueryCapture, b: Bench, s: Scenario, query: Query, anchor: Page, k: nat) returns (valid: bool)
    requires !capture.active && AnchorValid(b, s) && anchor == Anchor(b, s).value && query == Measured(b, s)
    modifies capture
    ensures !capture.active
    ensures valid <==> Answer(b, s, k).page.Some? && PageValid(s, Anchor(b, s).value, Answer(b, s, k).page.value)
  {
    hide PageValid, Traced, AnchorValid, Measured;
    var page := CallRepository(capture, b.call(s, query, k));
    if page.None? { return false; }
    valid := ValidateScenarioPage(s, anchor, page.value);
  }

  /** The first page and the continuation after it. */
  method Prepare(capture: QueryCapture, b: Bench, s: Scenario) returns (prepared: Option<(Query, Page)>)
    requires !capture.active
    modifies capture
    ensures !capture.active
    ensures prepared.Some? <==> AnchorValid(b, s)
    ensures prepared.Some? ==> prepared.value == (Measured(b, s), Anchor(b, s).value)
  {
    hide Traced, QueryFor;
    if !s.nextPage { return Some((QueryFor(s), NO_PAGE)); }
    var page := CallRepository(capture, b.call(s, QueryFor(s), 0));
    if page.None? || !page.value.hasMore || |page.value.items| != s.limit { return None; }
    var anchor := page.value;
    if |anchor.items| == 0 { return None; }
    var last := anchor.items[|anchor.items| - 1];
    prepared := Some((QueryFor(s).(after := Some((last.updatedAt, last.id))), anchor));
  }

  method WarmUp(capture: QueryCapture, b: Bench, s: Scenario, query: Query, anchor: Page) returns (ok: bool)
    requires !capture.active && AnchorValid(b, s) && anchor == Anchor(b, s).value && query == Measured(b, s)
    modifies capture
    ensures !capture.active
    ensures ok <==> PagesValid(b, s, Start(s), Start(s) + b.warmups)
  {
    hide PageValid, Answer, AnchorValid, Measured;
    for i := 0 to b.warmups
      invariant !capture.active && PagesValid(b, s, Start(s), Start(s) + i)
    {
      var valid := OneCall(capture, b, s, query, anchor, Start(s) + i);
      if !valid { return false; }
    }
    ok := true;
  }

  /** The captured call: its page and, when exactly the two frozen queries were sent, those. */
  method Capture(capture: QueryCapture, b: Bench, s: Scenario, query: Query, anchor: Page) returns (first: Option<(Page, seq<CapturedQuery>)>)
    requires AnchorValid(b, s) && anchor == Anchor(b, s).value && query == Measured(b, s)
    modifies capture
    ensures
      var at := Start(s) + b.warmups;
      && (first.Some? <==> PagesValid(b, s, at, at + 1) && FrozenQueries(Traced(Answer(b, s, at).statements)))
      && (first.Some? ==> !capture.active && first.value == (Answer(b, s, at).page.value, Traced(Answer(b, s, at).statements)))
  {
    hide PageValid, Traced, FrozenQueries;
    capture.Begin();
    var reply := b.call(s, query, Start(s) + b.warmups);
    assert reply == Answer(b, s, Start(s) + b.warmups);
    var page := CallRepository(capture, reply);
    if page.None? { return None; }
    var valid := ValidateScenarioPage(s, anchor, page.value);
    if !valid { return None; }
    assert [] + Traced(reply.statements) == Traced(reply.statements);
    var captured := capture.Finish();
    if captured.None? { return None; }
    first := Some((page.value, captured.value));
  }

  method Sample(capture: QueryCapture, b: Bench, s: Scenario, query: Query, anchor: Page, from: nat) returns (durations: Option<seq<int>>)
    requires !capture.active && AnchorValid(b, s) && anchor == Anchor(b, s).value && query == Measured(b, s)
    modifies capture
    ensures !capture.active
    ensures durations.Some? <==> PagesValid(b, s, from, from + b.samples)
    ensures durations.Some? ==> durations.value == Durations(b, s, from, b.samples)
  {
    hide PageValid, AnchorValid, Measured;
    var list: seq<int> := [];
    for i := 0 to b.samples
      invariant !capture.active && PagesValid(b, s, from, from + i)
      invariant list == Durations(b, s, from, i)
    {
      var valid := OneCall(capture, b, s, query, anchor, from + i);
      list := list + [b.call(s, query, from + i).duration];
      if !valid { return None; }
    }
    durations := Some(list);
  }

  lemma PagesJoin(b: Bench, s: Scenario, from: nat, mid: nat, to: nat)
    requires AnchorValid(b, s) && from <= mid <= to
    ensures PagesValid(b, s, from, to) <==> PagesValid(b, s, from, mid) && PagesValid(b, s, mid, to)
  {
    hide PageValid, Answer, AnchorValid;
  }

  /** executeCase */
  method ExecuteCase(capture: QueryCapture, b: Bench, s: Scenario) returns (run: Option<Run>)
    requires !capture.active
    modifies capture
    ensures run == CaseRun(b, s)
    ensures run.Some? ==> !capture.active
  {
    hide PagesValid, Traced, Answer, Measured, Anchor, AnchorValid, Plan;
    var prepared := Prepare(capture, b, s);
    if prepared.None? { return None; }
    var (query, anchor) := prepared.value;
    var at := Start(s) + b.warmups;
    PagesJoin(b, s, Start(s), at, at + 1 + b.samples);
    PagesJoin(b, s, at, at + 1, at + 1 + b.samples);
    var warm := WarmUp(capture, b, s, query, anchor);
    if !warm { return None; }
    var first := Capture(capture, b, s, query, anchor);
    if first.None? { return None; }
    var (page, queries) := first.value;
    var p := ExplainQuery(b, s, queries[0]);
    if p.None? { return None; }
    var q := ExplainQuery(b, s, queries[1]);
    if q.None? { return None; }
    var durations := Sample(capture, b, s, query, anchor, at + 1);
    if durations.None? { return None; }
    run := Some(Run(durations.value, |page.items|, page.hasMore, [p.value, q.value]));
  }
}
