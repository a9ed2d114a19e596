/** What the receipts of an import say: domain, tables, target id, disposition and reason, and about which
    rows each is written (insertReceipt, insertSkippedReceipt and insertRejectedReceipt in
    cmd/aicrm-whitelist-import/importer.go). */
module ReceiptContents {
  import opened Wrappers
  import opened Snapshot
  import opened CopyRules
  import opened Target
  import opened ImportPlan
  import opened ImportEffects
  import opened CopiedTables
  import Decimal
  import ImportReceipts
  import Sets

  // ----- Keys

  /** column::text, for text and numbers. */
  predicate TextOf(j: Json, s: string) {
    (j.Text? ==> s == j.s) && (j.Num? ==> s == Decimal.FormatInt(j.n))
  }

  /** The key text of a row. */
  ghost predicate KeyIs(e: Entity, c: Columns, key: string) {
    match e
    case Settings => TextOf(Col(c, "key"), key)
    case HxcUsers => TextOf(Col(c, "hxc_user_id"), key)
    case PackageMetadata => TextOf(Col(c, "segment_id"), key)
    case PackageVersions => exists a, b :: TextOf(Col(c, "package_id"), a) && TextOf(Col(c, "version"), b) && key == a + ":" + b
    case SegmentMembers => exists a, b :: TextOf(Col(c, "segment_id"), a) && TextOf(Col(c, "customer_id"), b) && key == a + ":" + b
    case _ => TextOf(Col(c, "id"), key)
  }

  lemma CastIs(j: Json)
    ensures TextOf(j, Cast(j))
  {
  }

  lemma KeyOfRow(e: Entity, row: SourceRow)
    requires e != EditableProjections
    ensures KeyIs(e, row.columns, Key(e, row))
  {
    hide TextOf, Cast, Col;
    forall j { CastIs(j); }
  }

  // ----- Rows that stay behind

  /** A refund whose status says that the provider is not done with it. */
  predicate Undecided(refund: Columns) {
    && Col(refund, "status").Text?
    && Lower(Col(refund, "status").s) !in {"completed", "success", "succeeded", "refunded", "failed", "rejected", "cancelled"}
  }

  /** An active package of the first version that nobody projected. */
  predicate Unprojected(src: Snapshot, package: Columns) {
    && Col(package, "original_status") == Text("active")
    && !(Col(package, "id") != Null && exists p :: p in Rows(src, EditableProjections) && Col(p.columns, "package_history_id") == Col(package, "id"))
  }

  /** Some order the refund belongs to. */
  predicate OrderOf(src: Snapshot, refund: Columns, o: SourceRow) {
    o in Rows(src, Orders) && Belongs(refund, o.columns)
  }

  /** The receipt of a row that stays behind: no target id, and a reason. */
  predicate LeftAs(r: Receipt, row: SourceRow, domain: Domain, source: Entity, target: Entity, d: Disposition, reason: string) {
    r == Receipt(domain, source, Key(source, row), row.text, target, None, d, reason)
  }

  ghost predicate SkippedRefundReceipt(src: Snapshot, r: Receipt, row: SourceRow) {
    && row in Rows(src, HistoricalRefunds) && Undecided(row.columns)
    && LeftAs(r, row, Order, HistoricalRefunds, RefundFacts, ArchiveNotOnV2, "refund is not a final provider fact")
  }

  ghost predicate RejectedOrderReceipt(src: Snapshot, r: Receipt, row: SourceRow) {
    && row in Rows(src, Orders) && Col(row.columns, "product_id") == Null
    && LeftAs(r, row, Order, Orders, Orders, Reject, "order has no exact product relation")
  }

  ghost predicate RejectedRefundReceipt(src: Snapshot, r: Receipt, row: SourceRow) {
    && row in Rows(src, HistoricalRefunds) && CopiedTables.Decided(row.columns)
    && (exists o :: OrderOf(src, row.columns, o) && Col(o.columns, "product_id") == Null)
    && LeftAs(r, row, Order, HistoricalRefunds, RefundFacts, Reject, "parent order has no exact product relation")
  }

  ghost predicate SkippedMetadataReceipt(src: Snapshot, r: Receipt, row: SourceRow) {
    && row in Rows(src, PackageMetadata) && !Whole(src, Col(row.columns, "segment_id"))
    && LeftAs(r, row, Audience, PackageMetadata, Segments, ArchiveNotOnV2, "package member mapping is incomplete; recreate with V2 audience logic")
  }

  ghost predicate SkippedPackageReceipt(src: Snapshot, r: Receipt, row: SourceRow) {
    && row in Rows(src, V1Packages) && Unprojected(src, row.columns)
    && LeftAs(r, row, Audience, V1Packages, Segments, ArchiveNotOnV2, "identity mapping or legacy rule requires redesign")
  }

  lemma UndecidedIs(row: SourceRow)
    ensures NotFinal(row) <==> Undecided(row.columns)
  {
    hide Lower;
  }

  lemma UnprojectedIs(src: Snapshot, row: SourceRow)
    ensures SkippedPackage(src, row) <==> Unprojected(src, row.columns)
  {
    hide Rows;
    var id := Col(row.columns, "id");
    if p :| p in Rows(src, EditableProjections) && id != Null && Col(p.columns, "package_history_id") == id {
      assert Equal(Col(p.columns, "package_history_id"), id);
    }
  }

  lemma RejectedIs(src: Snapshot, row: SourceRow)
    ensures RejectedRefund(src, row) ==> CopiedTables.Decided(row.columns) && exists o :: OrderOf(src, row.columns, o) && Col(o.columns, "product_id") == Null
  {
    hide Final, CopiedTables.Decided, FindById, Col, Rows;
    DecidedIs(row);
    ParentFound(Rows(src, Orders), Col(row.columns, "order_id"));
    if RejectedRefund(src, row) { assert OrderOf(src, row.columns, Parent(src, row)[0]); }
  }

  lemma SkippedRefundFrom(x: Inputs, e: Event, r: Receipt)
    requires e in SkippedRefunds(x) && InsertReceipt(r) in e.writes
    ensures exists row :: SkippedRefundReceipt(x.src, r, row)
  {
    hide FlatMap, NotFinal, Undecided, Key;
    var row := FlatMapMember(Rows(x.src, HistoricalRefunds), SkippedRefundStep(), e);
    UndecidedIs(row);
    assert SkippedRefundReceipt(x.src, r, row);
  }

  lemma RejectedFrom(x: Inputs, e: Event, r: Receipt)
    requires e in RejectedOrders(x) && InsertReceipt(r) in e.writes
    ensures exists row :: RejectedOrderReceipt(x.src, r, row) || RejectedRefundReceipt(x.src, r, row)
  {
    hide FlatMap, RejectedRefund, OrderOf, Key, CopiedTables.Decided;
    if e in FlatMap(Rows(x.src, Orders), RejectedOrderStep()) {
      var row := FlatMapMember(Rows(x.src, Orders), RejectedOrderStep(), e);
      assert RejectedOrderReceipt(x.src, r, row);
    } else {
      var row := FlatMapMember(Rows(x.src, HistoricalRefunds), RejectedRefundStep(x), e);
      RejectedIs(x.src, row);
      assert RejectedRefundReceipt(x.src, r, row);
    }
  }

  lemma AudienceFrom(x: Inputs, e: Event, r: Receipt)
    requires e in SkippedAudiences(x) && InsertReceipt(r) in e.writes
    ensures exists row :: SkippedMetadataReceipt(x.src, r, row) || SkippedPackageReceipt(x.src, r, row)
  {
    hide FlatMap, SkippedPackage, Unprojected, Complete, Whole, Key;
    if e in FlatMap(Rows(x.src, PackageMetadata), SkippedMetadataStep(x)) {
      var row := FlatMapMember(Rows(x.src, PackageMetadata), SkippedMetadataStep(x), e);
      WholeIs(x.src, Col(row.columns, "segment_id"));
      assert SkippedMetadataReceipt(x.src, r, row);
    } else {
      var row := FlatMapMember(Rows(x.src, V1Packages), SkippedPackageStep(x), e);
      UnprojectedIs(x.src, row);
      assert SkippedPackageReceipt(x.src, r, row);
    }
  }

  // ----- Migrated rows

  function DomainFor(source: Entity): Domain {
    match source
    case Customers | QuestionnaireSubjects => Identity
    case Channels => Channel
    case Products => Product
    case Orders | HistoricalRefunds => Order
    case Entitlements | MemberViews | Members => Membership
    case Questionnaires | Questions | Options | Submissions | Answers => Questionnaire
    case RadarLinks => Radar
    case PackageGroups | Segments | PackageMetadata | PackageVersions | SegmentMembers => Audience
    case AgentConfigurations => Automation
    case HxcUsers | HxcSyncRuns => Hxc
    case _ => NoDomain
  }

  /** The receipt of a row that came along. */
  predicate MovedAs(r: Receipt, source: Entity, key: string, text: string) {
    r == Receipt(DomainFor(source), source, key, text, if source == HistoricalRefunds then RefundFacts else if source == QuestionnaireSubjects then Customers else source,
                 Some(key), Migrate, "")
    && DomainFor(source) != NoDomain
  }

  ghost predicate MovedReceipt(x: Inputs, r: Receipt) {
    || (exists row :: row in Rows(x.src, r.source) && MovedAs(r, r.source, Key(r.source, row), row.text))
    || (exists y :: y in x.subjects.synthetic && MovedAs(r, QuestionnaireSubjects, Decimal.FormatInt(y.id), SubjectText(y)))
  }

  /** The domain of a rule, by its position. */
  function DomainAt(p: nat): Domain {
    if p < 3 then NoDomain else if p == 3 then Channel else if p == 4 then Product else if p < 7 then Order
    else if p == 7 || p == 13 || p == 14 then Membership else if p < 13 then Questionnaire
    else if p == 15 then Radar else if p < 21 then Audience else if p == 21 then Automation else if p < 24 then Hxc else NoDomain
  }

  lemma DomainTold(e: Entity)
    requires HasRule(e)
    ensures DomainFor(e) == DomainAt(ImportReceipts.Position(e))
  {
  }

  lemma DomainListed(i: nat)
    requires i < |COPIED|
    ensures COPIED[i].domain == DomainAt(i)
  {
  }

  lemma RuleDomain(i: nat)
    requires i < |COPIED|
    ensures COPIED[i].domain == DomainFor(COPIED[i].source)
  {
    hide DomainFor, DomainAt, ImportReceipts.Position, ImportReceipts.Receipted;
    RuleCount();
    ImportReceipts.PositionOfSpec(i);
    DomainTold(COPIED[i].source);
    DomainListed(i);
  }

  lemma CopyReceipt(x: Inputs, e: Event, r: Receipt)
    requires e in FlatMap(COPIED, CopyTable(x)) && InsertReceipt(r) in e.writes
    ensures MovedReceipt(x, r)
  {
    hide FlatMap, CopyTable, Copied, Keep, Key, DomainFor, HasRule, SubjectText;
    var spec, row := CopyEvent(x, e);
    var i :| 0 <= i < |COPIED| && COPIED[i] == spec;
    RuleDomain(i);
    RuleIs(spec);
    NotInvented(spec.source);
    assert MovedAs(r, spec.source, Key(spec.source, row), row.text);
  }

  lemma NotInvented(e: Entity)
    requires HasRule(e)
    ensures e != QuestionnaireSubjects && e != Customers && e != V1Packages
  {
  }

  lemma CustomerReceipt(x: Inputs, e: Event, r: Receipt)
    requires e in FlatMap(Rows(x.src, Customers), CustomerStep(x)) && InsertReceipt(r) in e.writes
    ensures MovedReceipt(x, r)
  {
    hide FlatMap, Selected, Key, SubjectText, ReferenceDigest;
    var row := FlatMapMember(Rows(x.src, Customers), CustomerStep(x), e);
    assert MovedAs(r, Customers, Key(Customers, row), row.text);
  }

  lemma SubjectReceipt(x: Inputs, e: Event, r: Receipt)
    requires e in FlatMap(x.subjects.synthetic, SubjectStep()) && InsertReceipt(r) in e.writes
    ensures MovedReceipt(x, r)
  {
    hide FlatMap, Key, SubjectText;
    var y := FlatMapMember(x.subjects.synthetic, SubjectStep(), e);
    assert MovedAs(r, QuestionnaireSubjects, Decimal.FormatInt(y.id), SubjectText(y));
  }

  ghost predicate LeftReceipt(src: Snapshot, r: Receipt) {
    exists row ::
      || SkippedRefundReceipt(src, r, row) || RejectedOrderReceipt(src, r, row) || RejectedRefundReceipt(src, r, row)
      || SkippedMetadataReceipt(src, r, row) || SkippedPackageReceipt(src, r, row)
  }

  /** Main result: every receipt an import writes is that of a row that came along, under the domain and
      tables of its rule, or that of a row left behind for one of five reasons, each with its condition. */
  lemma ReceiptsSayWhy(x: Inputs, r: Receipt)
    requires InsertReceipt(r) in Writes(Plan(x))
    ensures MovedReceipt(x, r) || LeftReceipt(x.src, r)
  {
    hide Plan, FlatMap, SkippedRefunds, RejectedOrders, SkippedAudiences, CustomerStep, SubjectStep, CopyTable, CustomerReferences, MovedReceipt,
      SkippedRefundReceipt, RejectedOrderReceipt, RejectedRefundReceipt, SkippedMetadataReceipt, SkippedPackageReceipt;
    var e := WriteHasEvent(Plan(x), InsertReceipt(r));
    PlanMember(x, e);
    if e in SkippedRefunds(x) {
      SkippedRefundFrom(x, e, r);
    } else if e in RejectedOrders(x) {
      RejectedFrom(x, e, r);
    } else if e in SkippedAudiences(x) {
      AudienceFrom(x, e, r);
    } else if e in FlatMap(COPIED, CopyTable(x)) {
      CopyReceipt(x, e, r);
    } else if e in FlatMap(x.subjects.synthetic, SubjectStep()) {
      SubjectReceipt(x, e, r);
    } else if e in FlatMap(Rows(x.src, Customers), CustomerStep(x)) {
      CustomerReceipt(x, e, r);
    } else if e in FlatMap(Sets.Ascend(x.subjects.references.Keys), CustomerReferences(x)) {
      var customer, reference := ReferenceEventOf(x, e);
    }
  }
}
