/** The reconciliation of a target (reconcileWhitelistTx in cmd/aicrm-whitelist-import/reconcile.go):
    receipt counts per domain, then the hard gates. */
module Reconcile {
  import opened Wrappers
  import opened Snapshot
  import opened CopyRules
  import opened Target
  import opened CleanTarget
  import Decimal
  import Sets

  const RECONCILED: seq<Domain> := [Identity, Product, Order, Questionnaire, Membership, Radar, Channel, Audience, Automation]

  datatype DomainCounts = DomainCounts(source: nat, target: nat, rejected: nat)

  datatype Report = Report(
    domains: map<Domain, DomainCounts>,
    orphanRows: nat,
    identityConflicts: nat,
    orderAmountMinor: int,
    legacyMaterial: nat,
    audienceNotPaused: nat,
    automationOpen: nat,
    others: nat)

  // ----- Receipts

  function CountReceipts(receipts: seq<Receipt>, domain: Domain, migrated: bool): nat {
    if receipts == [] then 0
    else
      var last := receipts[|receipts| - 1];
      CountReceipts(receipts[..|receipts| - 1], domain, migrated)
      + if last.domain == domain && (last.disposition == Migrate) == migrated then 1 else 0
  }

  function DomainOf(receipts: seq<Receipt>, domain: Domain): DomainCounts {
    var migrated, rejected := CountReceipts(receipts, domain, true), CountReceipts(receipts, domain, false);
    DomainCounts(migrated + rejected, migrated, rejected)
  }

  // ----- Hard gates

  predicate CustomerExists(db: Database, id: Json) {
    id.Num? && exists c :: c in db.customers && c.id == id.n
  }

  predicate Orphan(db: Database, c: Columns) {
    !CustomerExists(db, Col(c, "customer_id"))
  }

  predicate LegacyProduct(c: Columns) {
    var j := Col(c, "legacy_admin_projection");
    || HasAny(j, PRODUCT_KEYS)
    || Field(j, "lead_program_id") != Null
    || Field(j, "lead_channel_id") != Null
    || Field(j, "completion_target") != Null
    || Field(j, "wecom_tagging") !in {Null, Obj(map[]), Arr([])}
  }

  predicate LegacyChannel(c: Columns) {
    HasAny(Col(c, "config"), CHANNEL_KEYS)
  }

  predicate LegacyRadar(c: Columns) {
    Col(c, "cover_image_id") != Null || Col(c, "attachment_id") != Null
  }

  predicate LegacyAgent(c: Columns) {
    var j := Col(c, "fixed_content_package_json");
    || Length(Field(j, "image_library_ids")) > 0
    || Length(Field(j, "miniprogram_library_ids")) > 0
    || Length(Field(j, "attachment_library_ids")) > 0
    || Length(Field(j, "group_invite_library_ids")) > 0
    || (j.Obj? && "dynamic_miniprogram_card" in j.fields)
  }

  predicate NotPaused(c: Columns) {
    Col(c, "lifecycle") != Null && Col(c, "lifecycle") != Text("paused")
  }

  predicate Open(c: Columns) {
    (Col(c, "status") != Null && Col(c, "status") != Text("paused")) || Col(c, "execution_enabled") == Bool(true)
  }

  /** The gates that count rows of one table. */
  datatype Gate = OrphanGate | ProductGate | ChannelGate | RadarGate | AgentGate | PausedGate | OpenGate

  predicate Violates(db: Database, g: Gate, c: Columns) {
    match g
    case OrphanGate => Orphan(db, c)
    case ProductGate => LegacyProduct(c)
    case ChannelGate => LegacyChannel(c)
    case RadarGate => LegacyRadar(c)
    case AgentGate => LegacyAgent(c)
    case PausedGate => NotPaused(c)
    case OpenGate => Open(c)
  }

  function Violations(db: Database, g: Gate, rows: seq<Columns>): nat {
    if rows == [] then 0
    else Violations(db, g, rows[..|rows| - 1]) + if Violates(db, g, rows[|rows| - 1]) then 1 else 0
  }

  lemma {:induction false} NoViolations(db: Database, g: Gate, rows: seq<Columns>)
    ensures Violations(db, g, rows) == 0 <==> forall c :: c in rows ==> !Violates(db, g, c)
  {
    hide Violates;
    if rows != [] {
      var front, last := rows[..|rows| - 1], rows[|rows| - 1];
      NoViolations(db, g, front);
      assert rows == front + [last];
    }
  }

  predicate SameReference(a: SubjectRef, b: SubjectRef) {
    a.entity == b.entity && a.digest == b.digest
  }

  /** Reference groups held by more than one customer, each counted at its first row. */
  function ConflictsIn(refs: seq<SubjectRef>, n: nat): nat
    requires n <= |refs|
  {
    if n == 0 then 0
    else
      var r := refs[n - 1];
      var first := forall i :: 0 <= i < n - 1 ==> !SameReference(refs[i], r);
      var shared := exists i :: 0 <= i < |refs| && SameReference(refs[i], r) && refs[i].customer != r.customer;
      ConflictsIn(refs, n - 1) + if first && shared then 1 else 0
  }

  ghost predicate Unshared(refs: seq<SubjectRef>) {
    forall a, b :: a in refs && b in refs && SameReference(a, b) ==> a.customer == b.customer
  }

  lemma {:induction false} UnsharedCountsNone(refs: seq<SubjectRef>, n: nat)
    requires n <= |refs| && Unshared(refs)
    ensures ConflictsIn(refs, n) == 0
  {
    if n > 0 { UnsharedCountsNone(refs, n - 1); }
  }

  lemma {:induction false} ConflictsGrow(refs: seq<SubjectRef>, n: nat, m: nat)
    requires n <= m <= |refs|
    ensures ConflictsIn(refs, n) <= ConflictsIn(refs, m)
  {
    if n < m { ConflictsGrow(refs, n, m - 1); }
  }

  /** The first row with the reference of row a. */
  lemma {:induction false} FirstOf(refs: seq<SubjectRef>, a: nat) returns (f: nat)
    requires a < |refs|
    ensures f <= a && SameReference(refs[f], refs[a]) && forall i :: 0 <= i < f ==> !SameReference(refs[i], refs[a])
  {
    if i :| 0 <= i < a && SameReference(refs[i], refs[a]) {
      f := FirstOf(refs, i);
    } else {
      f := a;
    }
  }

  lemma FirstCounts(refs: seq<SubjectRef>, f: nat, other: nat)
    requires f < |refs| && other < |refs| && SameReference(refs[other], refs[f]) && refs[other].customer != refs[f].customer
    requires forall i :: 0 <= i < f ==> !SameReference(refs[i], refs[f])
    ensures ConflictsIn(refs, f + 1) > 0
  {
    hide SameReference;
  }

  lemma SameAsThird(x: SubjectRef, y: SubjectRef, z: SubjectRef)
    requires SameReference(x, y) && SameReference(y, z)
    ensures SameReference(x, z)
  {
  }

  lemma Symmetric(x: SubjectRef, y: SubjectRef)
    ensures SameReference(x, y) ==> SameReference(y, x)
  {
  }

  lemma SharedCounts(refs: seq<SubjectRef>, a: nat, b: nat)
    requires a < |refs| && b < |refs| && SameReference(refs[a], refs[b]) && refs[a].customer != refs[b].customer
    ensures ConflictsIn(refs, |refs|) > 0
  {
    hide ConflictsIn, SameReference;
    var f := FirstOf(refs, a);
    forall i | 0 <= i < f ensures !SameReference(refs[i], refs[f]) {
      if SameReference(refs[i], refs[f]) { SameAsThird(refs[i], refs[f], refs[a]); }
    }
    SameAsThird(refs[f], refs[a], refs[b]);
    var other := if refs[f].customer != refs[a].customer then a else b;
    Symmetric(refs[f], refs[other]);
    FirstCounts(refs, f, other);
    ConflictsGrow(refs, f + 1, |refs|);
  }

  /** The references held by more than one customer. */
  function Conflicts(refs: seq<SubjectRef>): nat {
    ConflictsIn(refs, |refs|)
  }

  /** The count is zero exactly when no reference is listed for two customers. */
  lemma NoConflicts(refs: seq<SubjectRef>)
    ensures Conflicts(refs) == 0 <==> Unshared(refs)
  {
    hide ConflictsIn, SameReference;
    if Unshared(refs) {
      UnsharedCountsNone(refs, |refs|);
    } else {
      var x, y :| x in refs && y in refs && SameReference(x, y) && x.customer != y.customer;
      var a :| 0 <= a < |refs| && refs[a] == x;
      var b :| 0 <= b < |refs| && refs[b] == y;
      SharedCounts(refs, a, b);
    }
  }

  function OrphanRows(db: Database): nat {
    Violations(db, OrphanGate, TableOf(db, Orders)) + Violations(db, OrphanGate, TableOf(db, Submissions))
    + Violations(db, OrphanGate, TableOf(db, Entitlements)) + Violations(db, OrphanGate, TableOf(db, Members))
    + Violations(db, OrphanGate, TableOf(db, SegmentMembers))
  }

  function LegacyContent(db: Database): nat {
    Violations(db, ProductGate, TableOf(db, Products)) + Violations(db, ChannelGate, TableOf(db, Channels))
    + Violations(db, RadarGate, TableOf(db, RadarLinks))
  }

  function LegacyMaterial(db: Database): nat {
    LegacyContent(db) + Violations(db, AgentGate, TableOf(db, AgentConfigurations))
  }

  function Amounts(rows: seq<Columns>): int {
    if rows == [] then 0 else Amounts(rows[..|rows| - 1]) + Int(Col(rows[|rows| - 1], "amount_minor"))
  }

  /** Rows and relations that must be absent and that no import writes. */
  const OTHER_GATES := {"external_effects", "provider_receipts", "product_images", "campaigns", "messages", "radar_events", "channel_events"}

  predicate OthersClosed(db: Database) {
    forall k :: k in OTHER_GATES && k in db.other ==> db.other[k] == 0
  }

  ghost predicate GatesClosed(db: Database) {
    && OrphanRows(db) == 0 && Conflicts(db.refs) == 0 && LegacyMaterial(db) == 0
    && Violations(db, PausedGate, TableOf(db, PackageMetadata)) == 0
    && Violations(db, OpenGate, TableOf(db, AgentConfigurations)) == 0
    && OthersClosed(db)
  }

  /** What a bigint column holds. */
  predicate Bigint(n: int) {
    Decimal.MIN_INT64 <= n <= Decimal.MAX_INT64
  }

  /** jsonb_array_length of a missing field is taken of an empty list; of anything else but an array it is an error. */
  predicate ListReadable(j: Json, key: string) {
    j.Obj? && key in j.fields ==> j.fields[key].Arr?
  }

  predicate ListsReadable(j: Json) {
    && ListReadable(j, "image_library_ids") && ListReadable(j, "miniprogram_library_ids")
    && ListReadable(j, "attachment_library_ids") && ListReadable(j, "group_invite_library_ids")
  }

  predicate AgentReadable(c: Columns) {
    ListsReadable(Col(c, "fixed_content_package_json"))
  }

  /** Every gate is closed, and neither the cast of the order total nor the length of a list is an error. */
  ghost predicate Reconcilable(db: Database) {
    && GatesClosed(db) && Bigint(Amounts(TableOf(db, Orders)))
    && forall c :: c in TableOf(db, AgentConfigurations) ==> AgentReadable(c)
  }

  lemma NothingCounted(domain: Domain)
    ensures CountReceipts([], domain, true) == CountReceipts([], domain, false) == 0
  {
  }

  lemma OneMoreCounted(receipts: seq<Receipt>, i: nat, domain: Domain, migrated: bool)
    requires i < |receipts|
    ensures CountReceipts(receipts[..i + 1], domain, migrated) ==
            CountReceipts(receipts[..i], domain, migrated)
            + if receipts[i].domain == domain && (receipts[i].disposition == Migrate) == migrated then 1 else 0
  {
    assert receipts[..i + 1][..i] == receipts[..i];
  }

  /** One pass over the receipts of the run; the third count is whatever is not MIGRATE. */
  method CountDomain(receipts: seq<Receipt>, domain: Domain) returns (counts: DomainCounts)
    ensures counts == DomainOf(receipts, domain)
    ensures counts.source == counts.target + counts.rejected
  {
    hide CountReceipts;
    NothingCounted(domain);
    assert receipts[..0] == [];
    var source, target, rejected := 0, 0, 0;
    for i := 0 to |receipts|
      invariant target == CountReceipts(receipts[..i], domain, true) && rejected == CountReceipts(receipts[..i], domain, false)
      invariant source == target + rejected
    {
      OneMoreCounted(receipts, i, domain, true);
      OneMoreCounted(receipts, i, domain, false);
      if receipts[i].domain == domain {
        source := source + 1;
        if receipts[i].disposition == Migrate {
          target := target + 1;
        } else {
          rejected := rejected + 1;
        }
      }
    }
    assert receipts[..|receipts|] == receipts;
    counts := DomainCounts(source, target, rejected);
  }

  /** The query over the agents: an error at a list that is none, unless an earlier list of the row already
      makes it count, and then the gate fails. */
  method CountAgents(rows: seq<Columns>) returns (count: Option<nat>)
    ensures count == Some(0) <==> forall c :: c in rows ==> AgentReadable(c) && !LegacyAgent(c)
  {
    hide AgentReadable, LegacyAgent;
    var n: nat := 0;
    for i := 0 to |rows|
      invariant n == 0 <==> forall j :: 0 <= j < i ==> AgentReadable(rows[j]) && !LegacyAgent(rows[j])
      invariant n > 0 ==> exists j :: 0 <= j < i && LegacyAgent(rows[j])
    {
      if !AgentReadable(rows[i]) { return None; }
      if LegacyAgent(rows[i]) { n := n + 1; }
    }
    count := Some(n);
  }

  // ----- What passing means of the rows

  lemma ProductRule(c: Columns)
    ensures !LegacyProduct(c) <==> CleanProduct(c)
  {
  }

  lemma ChannelRule(c: Columns)
    ensures !LegacyChannel(c) <==> CleanChannel(c)
  {
  }

  lemma RadarRule(c: Columns)
    ensures !LegacyRadar(c) <==> CleanRadar(c)
  {
  }

  lemma ListRule(j: Json, key: string)
    ensures ListReadable(j, key) && Length(Field(j, key)) == 0 <==> EmptyList(j, key)
  {
  }

  lemma ContentRule(c: Columns)
    ensures AgentReadable(c) && !LegacyAgent(c) <==> CleanContent(Col(c, "fixed_content_package_json"))
  {
    hide ListReadable, EmptyList, Length, Field, Col;
    var j := Col(c, "fixed_content_package_json");
    ListRule(j, "image_library_ids");
    ListRule(j, "miniprogram_library_ids");
    ListRule(j, "attachment_library_ids");
    ListRule(j, "group_invite_library_ids");
  }

  lemma AgentRule(c: Columns)
    ensures AgentReadable(c) && !LegacyAgent(c) && !Open(c) <==> CleanAgent(c)
  {
    hide CleanContent, AgentReadable, LegacyAgent;
    ContentRule(c);
  }

  lemma PackageRule(c: Columns)
    ensures !NotPaused(c) <==> CleanPackage(c)
  {
  }

  lemma CustomerRule(db: Database, c: Columns)
    ensures !Orphan(db, c) <==> CustomerNamed(db, c)
  {
    hide Col;
  }

  lemma OrphanRule(db: Database)
    ensures OrphanRows(db) == 0 <==> CustomersThere(db)
  {
    hide Violations, Orphan, CustomerNamed, TableOf;
    forall c { CustomerRule(db, c); }
    NoViolations(db, OrphanGate, TableOf(db, Orders));
    NoViolations(db, OrphanGate, TableOf(db, Submissions));
    NoViolations(db, OrphanGate, TableOf(db, Entitlements));
    NoViolations(db, OrphanGate, TableOf(db, Members));
    NoViolations(db, OrphanGate, TableOf(db, SegmentMembers));
    if CustomersThere(db) {
      forall e, c | e in {Orders, Submissions, Entitlements, Members, SegmentMembers} && c in TableOf(db, e) ensures !Violates(db, OrphanGate, c) {
        assert CustomerNamed(db, c);
      }
    }
  }

  /** The gates on content, and the rows they let pass. */
  lemma ContentGates(db: Database)
    ensures (LegacyMaterial(db) == 0 && Violations(db, PausedGate, TableOf(db, PackageMetadata)) == 0
             && Violations(db, OpenGate, TableOf(db, AgentConfigurations)) == 0
             && forall c :: c in TableOf(db, AgentConfigurations) ==> AgentReadable(c))
            <==> ContentClean(db)
  {
    hide Violations, LegacyProduct, LegacyChannel, LegacyRadar, LegacyAgent, NotPaused, Open, AgentReadable, TableOf,
      CleanProduct, CleanChannel, CleanRadar, CleanAgent, CleanPackage;
    NoViolations(db, ProductGate, TableOf(db, Products));
    NoViolations(db, ChannelGate, TableOf(db, Channels));
    NoViolations(db, RadarGate, TableOf(db, RadarLinks));
    NoViolations(db, AgentGate, TableOf(db, AgentConfigurations));
    NoViolations(db, PausedGate, TableOf(db, PackageMetadata));
    NoViolations(db, OpenGate, TableOf(db, AgentConfigurations));
    forall c { ProductRule(c); }
    forall c { ChannelRule(c); }
    forall c { RadarRule(c); }
    forall c { AgentRule(c); }
    forall c { PackageRule(c); }
  }

  lemma OwnerRule(refs: seq<SubjectRef>)
    ensures Conflicts(refs) == 0 <==> OneOwner(refs)
  {
    hide Conflicts;
    NoConflicts(refs);
    if Unshared(refs) {
      forall i, j | 0 <= i < j < |refs| && refs[i].entity == refs[j].entity && refs[i].digest == refs[j].digest ensures refs[i].customer == refs[j].customer {
        assert refs[i] in refs && refs[j] in refs && SameReference(refs[i], refs[j]);
      }
    }
    if OneOwner(refs) {
      forall a, b | a in refs && b in refs && SameReference(a, b) ensures a.customer == b.customer {
        var i :| 0 <= i < |refs| && refs[i] == a;
        var j :| 0 <= j < |refs| && refs[j] == b;
      }
    }
  }

  /** Main result: exactly the clean targets whose order total is a bigint can be reconciled. */
  lemma ReconcilableMeansClean(db: Database)
    ensures Reconcilable(db) <==> Clean(db) && -0x8000_0000_0000_0000 <= Amounts(TableOf(db, Orders)) <= 0x7fff_ffff_ffff_ffff
  {
    hide OrphanRows, Conflicts, LegacyMaterial, Violations, CustomersThere, ContentClean, OneOwner, AgentReadable, Amounts, TableOf;
    OrphanRule(db);
    ContentGates(db);
    OwnerRule(db.refs);
    OthersRule(db);
  }

  lemma OthersRule(db: Database)
    ensures OthersClosed(db) <==> Untouched(db)
  {
  }

  // ----- What is counted

  /** The receipts of a domain, split by whether they say MIGRATE. */
  ghost predicate CountedAs(receipts: seq<Receipt>, d: Domain, counts: DomainCounts) {
    && counts.source == |Sets.Where(receipts, (r: Receipt) => r.domain == d)|
    && counts.target == |Sets.Where(receipts, (r: Receipt) => r.domain == d && r.disposition == Migrate)|
    && counts.rejected == |Sets.Where(receipts, (r: Receipt) => r.domain == d && r.disposition != Migrate)|
  }

  lemma {:induction false} ReceiptsCounted(receipts: seq<Receipt>, d: Domain)
    ensures CountedAs(receipts, d, DomainOf(receipts, d))
  {
    hide Sets.Where;
    var all, migrated, others := (r: Receipt) => r.domain == d, (r: Receipt) => r.domain == d && r.disposition == Migrate,
      (r: Receipt) => r.domain == d && r.disposition != Migrate;
    if receipts == [] {
      Sets.WhereNone(all);
      Sets.WhereNone(migrated);
      Sets.WhereNone(others);
    } else {
      var front, last := receipts[..|receipts| - 1], receipts[|receipts| - 1];
      assert receipts == front + [last];
      ReceiptsCounted(front, d);
      Sets.WhereMore(front, last, all);
      Sets.WhereMore(front, last, migrated);
      Sets.WhereMore(front, last, others);
    }
  }

  lemma NineDomains()
    ensures (set j | 0 <= j < |RECONCILED| :: RECONCILED[j])
            == {Identity, Product, Order, Questionnaire, Membership, Radar, Channel, Audience, Automation}
  {
    var all := set j | 0 <= j < |RECONCILED| :: RECONCILED[j];
    assert RECONCILED[0] in all && RECONCILED[1] in all && RECONCILED[2] in all && RECONCILED[3] in all && RECONCILED[4] in all
           && RECONCILED[5] in all && RECONCILED[6] in all && RECONCILED[7] in all && RECONCILED[8] in all;
  }

  /** reconcileWhitelistTx for a run in a reconcilable state: it succeeds exactly when every row of the target
      is clean and the order total fits a bigint. */
  method ReconcileWhitelist(db: Database) returns (result: Result<Report, string>)
    ensures result.Ok? <==> Reconcilable(db)
    ensures result.Ok? <==> Clean(db) && -0x8000_0000_0000_0000 <= Amounts(TableOf(db, Orders)) <= 0x7fff_ffff_ffff_ffff
    ensures result.Ok? ==>
              && result.value.domains.Keys == {Identity, Product, Order, Questionnaire, Membership, Radar, Channel, Audience, Automation}
              && (forall d :: d in result.value.domains ==> CountedAs(db.receipts, d, result.value.domains[d]))
              && result.value.orderAmountMinor == Amounts(TableOf(db, Orders))
  {
    hide Violations, CountReceipts, AgentReadable, LegacyAgent, Bigint, Clean, CountedAs, DomainOf;
    ReconcilableMeansClean(db);
    var domains: map<Domain, DomainCounts> := map[];
    for i := 0 to |RECONCILED|
      invariant domains.Keys == set j | 0 <= j < i :: RECONCILED[j]
      invariant forall d :: d in domains ==> CountedAs(db.receipts, d, domains[d])
    {
      var counts := CountDomain(db.receipts, RECONCILED[i]);
      if counts.source != counts.target + counts.rejected {
        return Err("reconciliation silently dropped rows");
      }
      ReceiptsCounted(db.receipts, RECONCILED[i]);
      domains := domains[RECONCILED[i] := counts];
    }
    var orphans, conflicts, total := OrphanRows(db), Conflicts(db.refs), Amounts(TableOf(db, Orders));
    if !Bigint(total) { return Err("bigint out of range"); }
    NoAgentViolations(db);
    var agents := CountAgents(TableOf(db, AgentConfigurations));
    if agents.None? { return Err("cannot get array length"); }
    var material := LegacyContent(db) + agents.value;
    var paused := Violations(db, PausedGate, TableOf(db, PackageMetadata));
    var open := Violations(db, OpenGate, TableOf(db, AgentConfigurations));
    if orphans != 0 || conflicts != 0 || material != 0 || paused != 0 || open != 0 || !OthersClosed(db) {
      return Err("whitelist hard gate failed");
    }
    NineDomains();
    result := Ok(Report(domains, 0, 0, total, 0, 0, 0, 0));
  }

  lemma NoAgentViolations(db: Database)
    ensures Violations(db, AgentGate, TableOf(db, AgentConfigurations)) == 0 <==> forall c :: c in TableOf(db, AgentConfigurations) ==> !LegacyAgent(c)
  {
    hide LegacyAgent, Violations;
    NoViolations(db, AgentGate, TableOf(db, AgentConfigurations));
    assert forall c :: Violates(db, AgentGate, c) == LegacyAgent(c);
  }
}
