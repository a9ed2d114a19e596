/** After a successful walk from an empty target the hard gates the walk is responsible for are
    closed, so the import's own reconciliation cannot fail on them. */
module ImportGates {
  import opened Wrappers
  import opened Snapshot
  import opened CopyRules
  import opened Target
  import opened ImportPlan
  import opened ImportEffects
  import opened Reconcile
  import opened SubjectRows
  import Decimal
  import References
  import Resolution
  import ResolutionPass
  import SubjectFacts

  const EMPTY_TARGET := Database([], [], map[], [], map[])

  /** The target after the plan has been carried out from empty. */
  ghost function After(x: Inputs): Database {
    ApplyAll(EMPTY_TARGET, Writes(Plan(x)))
  }

  /** Customer columns and primary keys of the tables that carry customers are bigint. */
  predicate Typed(src: Snapshot) {
    && (forall e, r :: e in {Orders, Entitlements, Members, SegmentMembers, HxcUsers, Identities} && r in Rows(src, e)
                       ==> Col(r.columns, "customer_id").Num? || Col(r.columns, "customer_id").Null?)
    && PositiveIDs(Rows(src, Orders)) && PositiveIDs(Rows(src, Submissions)) && PositiveIDs(Rows(src, Customers))
    && PositiveIDs(Rows(src, Identities))
  }

  lemma RowsAfter(x: Inputs, e: Entity, c: Columns)
    ensures c in TableOf(After(x), e) <==> InsertRow(e, c) in Writes(Plan(x))
  {
    hide Plan, Writes;
    RowAfter(EMPTY_TARGET, Writes(Plan(x)), e, c);
  }

  lemma CustomersAfter(x: Inputs, id: int)
    ensures CustomerExists(After(x), Num(id)) <==> id in CustomerIDs(x)
  {
    hide Plan, Writes, CustomerIDs;
    if id in CustomerIDs(x) {
      var c := CustomerInserted(x, id);
      CustomerAfter(EMPTY_TARGET, Writes(Plan(x)), c);
    }
    if CustomerExists(After(x), Num(id)) {
      var c :| c in After(x).customers && c.id == id;
      CustomerAfter(EMPTY_TARGET, Writes(Plan(x)), c);
      InsertedCustomer(x, c);
    }
  }

  // ----- Sanitised material and paused rows

  lemma SpecOf(spec: CopySpec, table: Entity)
    requires spec in COPIED && spec.target == table
    requires table in {Channels, Products, Orders, Entitlements, Submissions, Members, RadarLinks, PackageMetadata, SegmentMembers, AgentConfigurations}
    ensures spec.source == table
  {
  }

  /** The gates on copied content, and the table each looks at. */
  function Watched(g: Gate): Entity {
    match g
    case ProductGate => Products
    case ChannelGate => Channels
    case RadarGate => RadarLinks
    case AgentGate => AgentConfigurations
    case PausedGate => PackageMetadata
    case OpenGate => AgentConfigurations
    case OrphanGate => Orders
  }

  lemma ProductClean(src: Snapshot, row: SourceRow)
    ensures !LegacyProduct(Project(src, Products, row))
  {
    var before := Without(Col(row.columns, "legacy_admin_projection"), PRODUCT_KEYS);
    var cleared := map["lead_program_id" := Null, "lead_channel_id" := Null, "completion_target" := Null, "wecom_tagging" := Obj(map[])];
    var j := Merged(before, cleared);
    assert Col(Project(src, Products, row), "legacy_admin_projection") == j;
    if j.Obj? {
      assert forall k :: k in PRODUCT_KEYS ==> k !in before.fields && k !in cleared;
    }
  }

  lemma ChannelClean(src: Snapshot, row: SourceRow)
    ensures !LegacyChannel(Project(src, Channels, row))
  {
  }

  lemma RadarClean(src: Snapshot, row: SourceRow)
    ensures !LegacyRadar(Project(src, RadarLinks, row))
  {
  }

  predicate LibrariesEmpty(j: Json) {
    && Length(Field(j, "image_library_ids")) == 0 && Length(Field(j, "miniprogram_library_ids")) == 0
    && Length(Field(j, "attachment_library_ids")) == 0 && Length(Field(j, "group_invite_library_ids")) == 0
    && !(j.Obj? && "dynamic_miniprogram_card" in j.fields)
  }

  lemma ContentEmpty(c: Columns)
    ensures LibrariesEmpty(FixedContent(c))
  {
  }

  lemma AgentColumns(src: Snapshot, row: SourceRow)
    ensures var c := Project(src, AgentConfigurations, row);
            Col(c, "fixed_content_package_json") == FixedContent(row.columns) && Col(c, "status") == Text("paused") && Col(c, "execution_enabled") == Bool(false)
  {
    hide FixedContent;
  }

  lemma AgentClean(src: Snapshot, row: SourceRow)
    ensures !LegacyAgent(Project(src, AgentConfigurations, row)) && !Open(Project(src, AgentConfigurations, row))
  {
    hide Project, FixedContent, Col, Field, Length;
    AgentColumns(src, row);
    ContentEmpty(row.columns);
  }

  lemma PackageClean(src: Snapshot, row: SourceRow)
    ensures !NotPaused(Project(src, PackageMetadata, row))
  {
  }

  lemma ProjectedClean(x: Inputs, g: Gate, row: SourceRow, db: Database)
    requires !g.OrphanGate?
    ensures !Violates(db, g, Project(x.src, Watched(g), row))
  {
    hide Project;
    match g
    case ProductGate => ProductClean(x.src, row);
    case ChannelGate => ChannelClean(x.src, row);
    case RadarGate => RadarClean(x.src, row);
    case AgentGate => AgentClean(x.src, row);
    case PausedGate => PackageClean(x.src, row);
    case OpenGate => AgentClean(x.src, row);
  }

  lemma ContentGateClosed(x: Inputs, g: Gate)
    requires !g.OrphanGate?
    ensures Violations(After(x), g, TableOf(After(x), Watched(g))) == 0
  {
    hide Plan, Writes, Project, Violates, Keep, Violations;
    var db := After(x);
    forall c | c in TableOf(db, Watched(g)) ensures !Violates(db, g, c) {
      RowsAfter(x, Watched(g), c);
      var spec, row := InsertedRow(x, Watched(g), c);
      SpecOf(spec, Watched(g));
      ProjectedClean(x, g, row, db);
    }
    NoViolations(db, g, TableOf(db, Watched(g)));
  }

  // ----- Orphans

  lemma ParsedKey(e: Entity, row: SourceRow)
    requires e in {Orders, Submissions} && Col(row.columns, "id").Num? && 1 <= Col(row.columns, "id").n <= Decimal.MAX_INT64
    ensures Decimal.ParseInt(Key(e, row)) == Some(Col(row.columns, "id").n)
  {
    hide Decimal.FormatInt, Decimal.ParseInt;
    Decimal.ParseOfFormat(Col(row.columns, "id").n);
  }

  lemma CustomerColumnKept(src: Snapshot, e: Entity, row: SourceRow)
    requires e in {Orders, Entitlements, Members, SegmentMembers}
    ensures Col(Project(src, e, row), "customer_id") == Col(row.columns, "customer_id")
  {
  }

  /** Copied orders take the customer that verifyRequiredIdentities checked. */
  lemma OrderCustomerCopied(x: Inputs, row: SourceRow, c: Columns)
    requires Typed(x.src) && row in Rows(x.src, Orders) && Copied(x, Orders, row) == Some(c)
    ensures Col(c, "customer_id") == Num(OrderCustomer(x, row))
  {
    hide Project, Key, Decimal.ParseInt;
    ParsedKey(Orders, row);
    CustomerColumnKept(x.src, Orders, row);
  }

  lemma SubmissionCustomerCopied(x: Inputs, row: SourceRow, c: Columns)
    requires Typed(x.src) && row in Rows(x.src, Submissions) && Copied(x, Submissions, row) == Some(c)
    ensures Int(Col(row.columns, "id")) in x.subjects.bySubmission
    ensures Col(c, "customer_id") == Num(x.subjects.bySubmission[Int(Col(row.columns, "id"))])
  {
    hide Project, Key, Decimal.ParseInt;
    ParsedKey(Submissions, row);
  }

  /** Tables other than submissions: the checks of the walk already exclude orphans. */
  lemma CheckedTablesHaveCustomers(x: Inputs, e: Entity)
    requires Typed(x.src) && Permitted(x) && e in {Orders, Entitlements, Members, SegmentMembers}
    ensures Violations(After(x), OrphanGate, TableOf(After(x), e)) == 0
  {
    hide Plan, Writes, Project, CustomerIDs, AllTransformable, Complete, HasPackage, CustomerExists;
    var db := After(x);
    forall c | c in TableOf(db, e) ensures !Violates(db, OrphanGate, c) {
      RowsAfter(x, e, c);
      var spec, row := InsertedRow(x, e, c);
      SpecOf(spec, e);
      if e == Orders {
        OrderCustomerCopied(x, row, c);
        CustomersAfter(x, OrderCustomer(x, row));
      } else {
        CustomerColumnKept(x.src, e, row);
        if e == SegmentMembers {
          MemberSelected(x, row);
        }
        CustomersAfter(x, Int(Col(row.columns, "customer_id")));
      }
    }
    NoViolations(db, OrphanGate, TableOf(db, e));
  }

  lemma MemberSelected(x: Inputs, m: SourceRow)
    requires Typed(x.src) && m in Rows(x.src, SegmentMembers) && Keep(x.src, SegmentMembers, m)
    ensures Col(m.columns, "customer_id").Num? && Int(Col(m.columns, "customer_id")) in CustomerIDs(x)
  {
    var id := Col(m.columns, "customer_id");
    assert Equal(Col(m.columns, "segment_id"), Col(m.columns, "segment_id")) by {
      var p :| p in Rows(x.src, PackageMetadata) && Equal(Col(p.columns, "segment_id"), Col(m.columns, "segment_id"));
    }
    var c :| c in Rows(x.src, Customers) && Equal(Col(c.columns, "id"), id);
    assert Int(id) in Wanted(x);
    hide Wanted;
    assert Selected(x, c);
  }

  /** Every submission was given a customer that the walk inserts. */
  ghost predicate SubmissionsReal(x: Inputs) {
    forall r :: r in Rows(x.src, Submissions) ==>
      var id := Int(Col(r.columns, "id"));
      id in x.subjects.bySubmission && x.subjects.bySubmission[id] in CustomerIDs(x)
  }

  lemma SubmissionGate(x: Inputs)
    requires Typed(x.src) && Permitted(x)
    ensures Violations(After(x), OrphanGate, TableOf(After(x), Submissions)) == 0 <==> SubmissionsReal(x)
  {
    hide Plan, Writes, Project, CustomerIDs, RequiredIdentities, CustomerExists, Copied, AllTransformable;
    var db, spec := After(x), CopySpec(Questionnaire, Submissions, Submissions);
    assert spec in COPIED;
    forall r | r in Rows(x.src, Submissions)
      ensures Int(Col(r.columns, "id")) in x.subjects.bySubmission
      ensures Violations(db, OrphanGate, TableOf(db, Submissions)) == 0 ==> x.subjects.bySubmission[Int(Col(r.columns, "id"))] in CustomerIDs(x)
    {
      AllTransformed(x, spec, r);
      var c := Copied(x, Submissions, r).value;
      KeptRowInserted(x, spec, r);
      SubmissionCustomerCopied(x, r, c);
      RowsAfter(x, Submissions, c);
      NoViolations(db, OrphanGate, TableOf(db, Submissions));
      CustomersAfter(x, x.subjects.bySubmission[Int(Col(r.columns, "id"))]);
    }
    if SubmissionsReal(x) {
      forall c | c in TableOf(db, Submissions) ensures !Violates(db, OrphanGate, c) {
        RowsAfter(x, Submissions, c);
        var made, row := InsertedRow(x, Submissions, c);
        SpecOf(made, Submissions);
        SubmissionCustomerCopied(x, row, c);
        CustomersAfter(x, x.subjects.bySubmission[Int(Col(row.columns, "id"))]);
      }
      NoViolations(db, OrphanGate, TableOf(db, Submissions));
    }
  }

  /** The orphan gate closes exactly when every submission's customer really exists: the walk checks
      everything else itself. */
  lemma OrphanGateIff(x: Inputs)
    requires Typed(x.src) && Permitted(x)
    ensures OrphanRows(After(x)) == 0 <==> SubmissionsReal(x)
  {
    hide Plan, Writes, Permitted, SubmissionsReal, Violations;
    SubmissionGate(x);
    CheckedTablesHaveCustomers(x, Orders);
    CheckedTablesHaveCustomers(x, Entitlements);
    CheckedTablesHaveCustomers(x, Members);
    CheckedTablesHaveCustomers(x, SegmentMembers);
  }

  // ----- Subjects resolved from the same snapshot

  /** The walk is given the resolution of its own snapshot. */
  ghost predicate ResolvedFrom(x: Inputs) {
    var rows, maximum := SubjectRowsOf(x.src), MaxCustomerID(Rows(x.src, Customers));
    && Resolution.Resolves(rows, maximum)
    && |Resolution.Outcome(rows, maximum).chosen| == |rows|
    && x.subjects == ResolutionPass.SubjectsOf(rows, maximum)
  }

  lemma RowsInRange(src: Snapshot)
    requires Typed(src) && IdentitiesReal(src)
    ensures Resolution.MatchesInRange(SubjectRowsOf(src), MaxCustomerID(Rows(src, Customers)))
  {
    hide References.Of, MaxCustomerID, IdentitiesReal;
    var rows := SubjectRowsOf(src);
    MaximumNotNegative(Rows(src, Customers));
    forall i | 0 <= i < |rows| && References.Matched(rows[i])
      ensures rows[i].existingCustomer <= MaxCustomerID(Rows(src, Customers))
    {
      MatchIsReal(src, rows[i]);
    }
  }

  lemma ChosenIsReal(x: Inputs, i: nat)
    requires Typed(x.src) && IdentitiesReal(x.src) && ResolvedFrom(x) && i < |SubjectRowsOf(x.src)|
    ensures
      var customer := Resolution.Outcome(SubjectRowsOf(x.src), MaxCustomerID(Rows(x.src, Customers))).chosen[i];
      customer in SubjectIDs(x.subjects) ==> customer in CustomerIDs(x)
  {
    hide References.Of, Resolution.Resolve, MaxCustomerID, SubjectRowsOf, SubjectIDs, IdentitiesReal;
    var rows, maximum := SubjectRowsOf(x.src), MaxCustomerID(Rows(x.src, Customers));
    var s := Resolution.Outcome(rows, maximum);
    var customer := s.chosen[i];
    RowsInRange(x.src);
    Resolution.OwnershipHolds(rows, |rows|, maximum);
    if customer <= maximum {
      var m := SubjectFacts.ExistingWasMatched(rows, maximum, i);
      MatchIsReal(x.src, rows[m]);
      var c :| c in Rows(x.src, Customers) && Equal(Col(c.columns, "id"), Num(customer));
      if customer in SubjectIDs(x.subjects) {
        assert customer in Wanted(x);
        assert Selected(x, c);
      }
    } else {
      var k := customer - maximum - 1;
      SubjectFacts.InventedCustomers(rows, |rows|, maximum, k);
      assert s.synthetic[k] in x.subjects.synthetic;
    }
  }

  lemma {:induction false} KeyedValue(rows: seq<References.Row>, chosen: seq<int>, n: nat, orders: bool, k: int) returns (i: nat)
    requires n <= |rows| && n <= |chosen| && k in ResolutionPass.Keyed(rows, chosen, n, orders)
    ensures i < n && ResolutionPass.Keyed(rows, chosen, n, orders)[k] == chosen[i]
  {
    if References.IsOrder(rows[n - 1]) == orders && rows[n - 1].submissionID == k {
      i := n - 1;
    } else {
      i := KeyedValue(rows, chosen, n - 1, orders, k);
    }
  }

  /** With the source's foreign keys intact, every submission's customer exists. */
  lemma ForeignKeysMakeSubmissionsReal(x: Inputs)
    requires Typed(x.src) && IdentitiesReal(x.src) && ResolvedFrom(x) && Permitted(x)
    ensures SubmissionsReal(x)
  {
    hide References.Of, Resolution.Resolve, MaxCustomerID, SubjectRowsOf, CustomerIDs, RequiredIdentities, IdentitiesReal, Copied, AllTransformable;
    var rows, maximum := SubjectRowsOf(x.src), MaxCustomerID(Rows(x.src, Customers));
    var s, spec := Resolution.Outcome(rows, maximum), CopySpec(Questionnaire, Submissions, Submissions);
    assert spec in COPIED;
    forall r | r in Rows(x.src, Submissions)
      ensures Int(Col(r.columns, "id")) in x.subjects.bySubmission
      ensures x.subjects.bySubmission[Int(Col(r.columns, "id"))] in CustomerIDs(x)
    {
      AllTransformed(x, spec, r);
      SubmissionCustomerCopied(x, r, Copied(x, Submissions, r).value);
      var id := Int(Col(r.columns, "id"));
      var i := KeyedValue(rows, s.chosen, |rows|, false, id);
      ChosenIsReal(x, i);
      assert x.subjects.bySubmission[id] in SubjectIDs(x.subjects);
    }
  }

  // ----- Identity conflicts

  ghost predicate Preimage(x: Inputs, p: string) {
    || (exists row :: row in Rows(x.src, Customers) && p == SYSTEM + [Digest.NUL] + "customer" + [Digest.NUL] + Key(Customers, row))
    || (exists c, r :: c in x.subjects.references && r in x.subjects.references[c] && p == SYSTEM + [Digest.NUL] + r.entity + [Digest.NUL] + r.value)
  }

  /** SHA-256 does not collide on the references of this run. */
  ghost predicate CollisionFree(x: Inputs) {
    forall p, q :: Preimage(x, p) && Preimage(x, q) && x.sha(p) == x.sha(q) ==> p == q
  }

  lemma SuffixSame(entity: string, a: string, b: string)
    requires SYSTEM + [Digest.NUL] + entity + [Digest.NUL] + a == SYSTEM + [Digest.NUL] + entity + [Digest.NUL] + b
    ensures a == b
  {
    var front := SYSTEM + [Digest.NUL] + entity + [Digest.NUL];
    assert (front + a)[|front|..] == a && (front + b)[|front|..] == b;
  }

  lemma ListedReferenceOwner(x: Inputs, c: int, d: int, r: References.Reference)
    requires Typed(x.src) && IdentitiesReal(x.src) && ResolvedFrom(x)
    requires c in x.subjects.references && r in x.subjects.references[c] && d in x.subjects.references && r in x.subjects.references[d]
    ensures c == d
  {
    hide References.Of, Resolution.Resolve, MaxCustomerID, SubjectRowsOf, IdentitiesReal;
    RowsInRange(x.src);
    SubjectFacts.ReferenceListsDisjoint(SubjectRowsOf(x.src), MaxCustomerID(Rows(x.src, Customers)), c, d, r);
  }

  lemma ListedReferenceEntity(x: Inputs, c: int, r: References.Reference)
    requires Typed(x.src) && IdentitiesReal(x.src) && ResolvedFrom(x)
    requires c in x.subjects.references && r in x.subjects.references[c]
    ensures r.entity in References.ENTITIES
  {
    hide References.Of, Resolution.Resolve, MaxCustomerID, SubjectRowsOf, IdentitiesReal;
    var rows, maximum := SubjectRowsOf(x.src), MaxCustomerID(Rows(x.src, Customers));
    RowsInRange(x.src);
    SubjectFacts.ListedReferences(rows, |rows|, maximum, c, r);
    var i :| 0 <= i < |rows| && r in References.Of(rows[i]);
    References.OfShape(rows[i]);
  }

  ghost predicate ListedAs(x: Inputs, q: SubjectRef, r: References.Reference) {
    && q.customer in x.subjects.references && r in x.subjects.references[q.customer]
    && q == SubjectRef(q.customer, r.entity, ReferenceDigest(x.sha, r.entity, r.value))
  }

  lemma SameListedReference(x: Inputs, a: SubjectRef, b: SubjectRef, r: References.Reference, q: References.Reference)
    requires Typed(x.src) && IdentitiesReal(x.src) && ResolvedFrom(x) && CollisionFree(x)
    requires ListedAs(x, a, r) && ListedAs(x, b, q) && SameReference(a, b)
    ensures a.customer == b.customer
  {
    hide ResolvedFrom, IdentitiesReal;
    assert Preimage(x, SYSTEM + [Digest.NUL] + r.entity + [Digest.NUL] + r.value);
    assert Preimage(x, SYSTEM + [Digest.NUL] + q.entity + [Digest.NUL] + q.value);
    SuffixSame(r.entity, r.value, q.value);
    ListedReferenceOwner(x, a.customer, b.customer, r);
  }

  /** What a customer's own reference is the digest of. */
  function CustomerPreimage(row: SourceRow): string {
    SYSTEM + [Digest.NUL] + "customer" + [Digest.NUL] + Key(Customers, row)
  }

  lemma OwnReference(x: Inputs, row: SourceRow, a: SubjectRef)
    requires row in Rows(x.src, Customers) && InsertReference(a) == CustomerWrites(x, row)[1]
    ensures a.customer == Int(Col(row.columns, "id")) && a.digest == x.sha(CustomerPreimage(row)) && Preimage(x, CustomerPreimage(row))
  {
    hide Key;
  }

  lemma CustomerKey(src: Snapshot, row: SourceRow)
    requires Typed(src) && row in Rows(src, Customers)
    ensures Key(Customers, row) == Decimal.FormatInt(Int(Col(row.columns, "id")))
  {
    hide Decimal.FormatInt;
  }

  lemma SameCustomerRow(x: Inputs, a: SubjectRef, b: SubjectRef, rowA: SourceRow, rowB: SourceRow)
    requires Typed(x.src) && CollisionFree(x) && rowA in Rows(x.src, Customers) && rowB in Rows(x.src, Customers)
    requires InsertReference(a) == CustomerWrites(x, rowA)[1] && InsertReference(b) == CustomerWrites(x, rowB)[1] && SameReference(a, b)
    ensures a.customer == b.customer
  {
    hide Decimal.FormatInt, Key, Typed, CustomerWrites, Preimage;
    OwnReference(x, rowA, a);
    OwnReference(x, rowB, b);
    assert CustomerPreimage(rowA) == CustomerPreimage(rowB);
    SuffixSame("customer", Key(Customers, rowA), Key(Customers, rowB));
    CustomerKey(x.src, rowA);
    CustomerKey(x.src, rowB);
    Decimal.FormatIntInjective(Int(Col(rowA.columns, "id")), Int(Col(rowB.columns, "id")));
  }

  lemma NoSharedReference(x: Inputs, a: SubjectRef, b: SubjectRef)
    requires Typed(x.src) && IdentitiesReal(x.src) && ResolvedFrom(x) && CollisionFree(x)
    requires InsertReference(a) in Writes(Plan(x)) && InsertReference(b) in Writes(Plan(x)) && SameReference(a, b)
    ensures a.customer == b.customer
  {
    hide Plan, Writes, ResolvedFrom, IdentitiesReal, Selected, Key, CollisionFree;
    var rowA, refA := InsertedReference(x, a);
    var rowB, refB := InsertedReference(x, b);
    if ListedAs(x, a, refA) { ListedReferenceEntity(x, a.customer, refA); }
    if ListedAs(x, b, refB) { ListedReferenceEntity(x, b.customer, refB); }
    if ListedAs(x, a, refA) && ListedAs(x, b, refB) {
      SameListedReference(x, a, b, refA, refB);
    } else {
      assert "customer" !in References.ENTITIES;
      SameCustomerRow(x, a, b, rowA, rowB);
    }
  }

  lemma ConflictGateClosed(x: Inputs)
    requires Typed(x.src) && IdentitiesReal(x.src) && ResolvedFrom(x) && CollisionFree(x)
    ensures Conflicts(After(x).refs) == 0
  {
    hide Plan, Writes, ResolvedFrom, IdentitiesReal, CollisionFree, Typed, Conflicts;
    var refs := After(x).refs;
    forall a, b | a in refs && b in refs && SameReference(a, b) ensures a.customer == b.customer {
      ReferenceAfter(EMPTY_TARGET, Writes(Plan(x)), a);
      ReferenceAfter(EMPTY_TARGET, Writes(Plan(x)), b);
      NoSharedReference(x, a, b);
    }
    NoConflicts(refs);
  }

  // ----- The whole import

  /** Main result: from an empty target, with the source's foreign keys intact, whatever constraints
      the target enforces, a walk that succeeds leaves every hard gate closed. */
  lemma SuccessfulWalkClosesGates(x: Inputs, accepts: (Database, Write) -> bool)
    requires Typed(x.src) && IdentitiesReal(x.src) && ResolvedFrom(x) && CollisionFree(x)
    requires Permitted(x) && Advance(accepts, Progress([], map[], Some(EMPTY_TARGET)), Plan(x)).Some?
    ensures
      var end := Advance(accepts, Progress([], map[], Some(EMPTY_TARGET)), Plan(x)).value;
      end.target == Some(After(x)) && GatesClosed(After(x))
  {
    hide Plan, Writes, ResolvedFrom, IdentitiesReal, CollisionFree, Typed, Permitted, Advance, Conflicts, Violations, CountAll, Records;
    AdvanceEffects(accepts, Progress([], map[], Some(EMPTY_TARGET)), Plan(x));
    ForeignKeysMakeSubmissionsReal(x);
    OrphanGateIff(x);
    ConflictGateClosed(x);
    ContentGateClosed(x, ProductGate);
    ContentGateClosed(x, ChannelGate);
    ContentGateClosed(x, RadarGate);
    ContentGateClosed(x, AgentGate);
    ContentGateClosed(x, PausedGate);
    ContentGateClosed(x, OpenGate);
    OtherAfter(EMPTY_TARGET, Writes(Plan(x)));
  }
}
