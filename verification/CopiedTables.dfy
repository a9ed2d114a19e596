/** What each target table holds after an import, in terms of the source rows alone: which rows come along
    and what every column of the copy is (the queries of whitelistCopySpecs in
    cmd/aicrm-whitelist-import/importer.go). */
module CopiedTables {
  import opened Wrappers
  import opened Snapshot
  import opened CopyRules
  import opened Target
  import opened ImportPlan
  import opened ImportEffects
  import opened ImportGates
  import opened ImportTables
  import ImportReceipts

  // ----- From a target row to its source row and back

  /** The table is copied under one of the 24 rules. */
  predicate HasRule(e: Entity) {
    ImportReceipts.Position(e) < 24
  }

  function TargetOf(e: Entity): Entity {
    if e == HistoricalRefunds then RefundFacts else e
  }

  lemma RuleCount()
    ensures |COPIED| == 24
  {
  }

  /** The table a rule is for, by its position. */
  function TableAt(p: nat): Entity {
    if p < 8 then
      (match p case 0 => AdminUsers case 1 => AdminSessions case 2 => Settings case 3 => Channels case 4 => Products case 5 => Orders
               case 6 => HistoricalRefunds case _ => Entitlements)
    else if p < 16 then
      (match p case 8 => Questionnaires case 9 => Questions case 10 => Options case 11 => Submissions case 12 => Answers
               case 13 => MemberViews case 14 => Members case _ => RadarLinks)
    else
      (match p case 16 => PackageGroups case 17 => Segments case 18 => PackageMetadata case 19 => PackageVersions
               case 20 => SegmentMembers case 21 => AgentConfigurations case 22 => HxcUsers case _ => HxcSyncRuns)
  }

  lemma PositionTells(e: Entity)
    requires HasRule(e)
    ensures TableAt(ImportReceipts.Position(e)) == e
  {
  }

  lemma RuleFor(e: Entity) returns (spec: CopySpec)
    requires HasRule(e)
    ensures spec in COPIED && spec.source == e && spec.target == TargetOf(e)
  {
    hide ImportReceipts.Position, ImportReceipts.Receipted, TableAt;
    var i := ImportReceipts.Position(e);
    RuleCount();
    spec := COPIED[i];
    ImportReceipts.PositionOfSpec(i);
    TargetNamed(i);
    PositionTells(e);
    PositionTells(spec.source);
  }

  lemma RuleIs(spec: CopySpec)
    requires spec in COPIED
    ensures HasRule(spec.source) && spec.target == TargetOf(spec.source)
  {
    hide ImportReceipts.Position, ImportReceipts.Receipted;
    RuleCount();
    var i :| 0 <= i < |COPIED| && COPIED[i] == spec;
    ImportReceipts.PositionOfSpec(i);
    TargetNamed(i);
  }

  lemma RuleOf(spec: CopySpec, e: Entity)
    requires spec in COPIED && HasRule(e) && spec.target == TargetOf(e)
    ensures spec.source == e
  {
    RuleIs(spec);
  }

  lemma From(x: Inputs, e: Entity, table: Entity, c: Columns) returns (row: SourceRow)
    requires HasRule(e) && table == TargetOf(e) && c in TableOf(After(x), table)
    ensures row in Rows(x.src, e) && Keep(x.src, e, row) && Copied(x, e, row) == Some(c)
  {
    hide Plan, Writes, Keep, Copied, Rows, HasRule, TargetOf, TableOf, After;
    RowsAfter(x, table, c);
    var spec;
    spec, row := InsertedRow(x, table, c);
    RuleOf(spec, e);
  }

  lemma Arrives(x: Inputs, e: Entity, table: Entity, row: SourceRow) returns (c: Columns)
    requires Permitted(x) && HasRule(e) && table == TargetOf(e) && row in Rows(x.src, e) && Keep(x.src, e, row)
    ensures c in TableOf(After(x), table) && Copied(x, e, row) == Some(c)
  {
    hide Plan, Writes, Keep, Copied, Rows, Permitted, HasRule, TargetOf, TableOf, After;
    var spec := RuleFor(e);
    AllTransformed(x, spec, row);
    KeptRowInserted(x, spec, row);
    c := Copied(x, e, row).value;
    RowsAfter(x, table, c);
  }

  lemma CopiedPlainly(x: Inputs, e: Entity, row: SourceRow)
    requires e != Orders && e != Submissions
    ensures Copied(x, e, row) == Some(Project(x.src, e, row))
  {
    hide Project, Key;
  }

  // ----- Tables copied as they are

  function ColumnsOf(rows: seq<SourceRow>): seq<Columns> {
    seq(|rows|, i requires 0 <= i < |rows| => rows[i].columns)
  }

  const WHOLE := {AdminUsers, AdminSessions, Entitlements, Questions, Options, Answers, MemberViews, Members, HxcUsers, HxcSyncRuns}

  lemma WholeKept(src: Snapshot, e: Entity, row: SourceRow)
    requires e in WHOLE
    ensures Keep(src, e, row)
  {
  }

  lemma WholeProjected(src: Snapshot, e: Entity, row: SourceRow)
    requires e in WHOLE
    ensures Project(src, e, row) == row.columns && e != Orders && e != Submissions
  {
    hide FixedContent, Without, Merged, RefundFact, Col;
  }

  lemma WholeRow(x: Inputs, e: Entity, row: SourceRow)
    requires e in WHOLE
    ensures Keep(x.src, e, row) && Copied(x, e, row) == Some(row.columns)
  {
    hide Keep, Project, Copied;
    WholeKept(x.src, e, row);
    WholeProjected(x.src, e, row);
    CopiedPlainly(x, e, row);
  }

  lemma WholeRules(e: Entity)
    requires e in WHOLE
    ensures HasRule(e) && TargetOf(e) == e
  {
  }

  lemma {:induction false} WholeCopies(x: Inputs, spec: CopySpec, n: nat)
    requires spec.source in WHOLE && n <= |Rows(x.src, spec.source)|
    ensures Copies(x, spec, n) == ColumnsOf(Rows(x.src, spec.source)[..n])
  {
    hide Copied, Keep, Rows;
    if n > 0 {
      WholeCopies(x, spec, n - 1);
      WholeRow(x, spec.source, Rows(x.src, spec.source)[n - 1]);
    }
  }

  /** These ten tables hold the rows of the source, in order and unchanged. */
  lemma WholeTables(x: Inputs, e: Entity)
    requires e in {AdminUsers, AdminSessions, Entitlements, Questions, Options, Answers, MemberViews, Members, HxcUsers, HxcSyncRuns}
    ensures TableOf(After(x), e) == ColumnsOf(Rows(x.src, e))
  {
    hide After, TableOf, Copies, ColumnsOf, Rows, HasRule, TargetOf;
    var rows := Rows(x.src, e);
    WholeRules(e);
    var spec := RuleFor(e);
    TableIsCopied(x, spec);
    WholeCopies(x, spec, |rows|);
    assert rows[..|rows|] == rows;
  }

  // ----- Columns of a copy

  ghost predicate SameExcept(changed: set<string>, source: Columns, copy: Columns) {
    forall k :: k !in changed ==> Col(copy, k) == Col(source, k)
  }

  /** The object without some of its keys. */
  ghost predicate Cleared(keys: set<string>, before: Json, after: Json) {
    if before.Obj? then
      && after.Obj? && (forall k :: k in after.fields <==> k in before.fields && k !in keys)
      && (forall k :: k in after.fields ==> after.fields[k] == before.fields[k])
    else after == before
  }

  ghost predicate ChannelCopy(s: Columns, c: Columns) {
    && SameExcept({"config"}, s, c)
    && Cleared({"staff_id", "staff_ids", "employee_id", "employee_ids", "tag_id", "tag_ids", "welcome_material_id",
                "welcome_material_ids", "welcome_message", "material_id", "material_ids"}, Col(s, "config"), Col(c, "config"))
  }

  ghost predicate ProjectionCopy(before: Json, after: Json) {
    before.Obj? ==>
      && after.Obj? && after.fields.Keys == before.fields.Keys - {"image_ids", "material_ids"}
                                            + {"lead_program_id", "lead_channel_id", "completion_target", "wecom_tagging"}
      && Field(after, "lead_program_id") == Field(after, "lead_channel_id") == Field(after, "completion_target") == Null
      && Field(after, "wecom_tagging") == Obj(map[])
      && (forall k :: k in after.fields && k !in {"lead_program_id", "lead_channel_id", "completion_target", "wecom_tagging"}
                      ==> after.fields[k] == before.fields[k])
  }

  ghost predicate ProductCopy(s: Columns, c: Columns) {
    SameExcept({"legacy_admin_projection"}, s, c) && ProjectionCopy(Col(s, "legacy_admin_projection"), Col(c, "legacy_admin_projection"))
  }

  ghost predicate RadarCopy(s: Columns, c: Columns) {
    SameExcept({"cover_image_id", "attachment_id"}, s, c) && Col(c, "cover_image_id") == Null && Col(c, "attachment_id") == Null
  }

  ghost predicate QuestionnaireCopy(s: Columns, c: Columns) {
    SameExcept({"submission_count"}, s, c) && Col(c, "submission_count") == Num(0)
  }

  ghost predicate PackageCopy(s: Columns, c: Columns) {
    SameExcept({"lifecycle"}, s, c) && Col(c, "lifecycle") == Text("paused")
  }

  /** Nothing is left of an agent's content but its text. */
  predicate ContentCopy(before: Json, after: Json) {
    && after.Obj? && after.fields.Keys == {"content_text", "image_library_ids", "miniprogram_library_ids", "attachment_library_ids", "group_invite_library_ids"}
    && after.fields["image_library_ids"] == after.fields["miniprogram_library_ids"] == Arr([])
    && after.fields["attachment_library_ids"] == after.fields["group_invite_library_ids"] == Arr([])
    && (before.Obj? && "content_text" in before.fields && before.fields["content_text"].Text? ==> after.fields["content_text"] == before.fields["content_text"])
    && (!before.Obj? || "content_text" !in before.fields || before.fields["content_text"].Null? ==> after.fields["content_text"] == Text(""))
  }

  ghost predicate AgentCopy(s: Columns, c: Columns) {
    && SameExcept({"status", "execution_enabled", "fixed_content_package_json"}, s, c)
    && Col(c, "status") == Text("paused") && Col(c, "execution_enabled") == Bool(false)
    && ContentCopy(Col(s, "fixed_content_package_json"), Col(c, "fixed_content_package_json"))
  }

  ghost predicate CopyOf(e: Entity, s: Columns, c: Columns) {
    match e
    case Channels => ChannelCopy(s, c)
    case Products => ProductCopy(s, c)
    case Questionnaires => QuestionnaireCopy(s, c)
    case RadarLinks => RadarCopy(s, c)
    case PackageMetadata => PackageCopy(s, c)
    case AgentConfigurations => AgentCopy(s, c)
    case _ => c == s
  }

  // ----- Which rows come along

  /** Every member of the segment is a customer of the source. */
  predicate Whole(src: Snapshot, segment: Json) {
    forall m :: m in Rows(src, SegmentMembers) && segment != Null && Col(m.columns, "segment_id") == segment ==>
      Col(m.columns, "customer_id") != Null && exists k :: k in Rows(src, Customers) && Col(k.columns, "id") == Col(m.columns, "customer_id")
  }

  predicate Packaged(src: Snapshot, segment: Json) {
    segment != Null && exists p :: p in Rows(src, PackageMetadata) && Col(p.columns, "segment_id") == segment
  }

  predicate InGroup(p: SourceRow, group: Columns) {
    Col(p.columns, "group_id") == Col(group, "id") != Null
  }

  predicate Comes(src: Snapshot, e: Entity, c: Columns) {
    match e
    case Settings => Col(c, "key") in {Text("wecom.corp_id"), Text("wecom.agent_id"), Text("outbound.rate_per_second"), Text("outbound.max_attempts")}
    case PackageGroups => exists p :: p in Rows(src, PackageMetadata) && InGroup(p, c) && Whole(src, Col(p.columns, "segment_id"))
    case Segments => Packaged(src, Col(c, "id")) && Whole(src, Col(c, "id"))
    case PackageMetadata => Whole(src, Col(c, "segment_id"))
    case PackageVersions => Whole(src, Col(c, "package_id"))
    case SegmentMembers => Packaged(src, Col(c, "segment_id")) && Whole(src, Col(c, "segment_id"))
    case AgentConfigurations => Col(c, "status").Text? && Col(c, "status") != Text("archived")
    case _ => true
  }

  lemma ChannelRule(src: Snapshot, row: SourceRow)
    ensures Keep(src, Channels, row) && ChannelCopy(row.columns, Project(src, Channels, row))
  {
  }

  lemma MergedProjection(before: Json)
    ensures ProjectionCopy(before, Merged(Without(before, {"image_ids", "material_ids"}),
                             map["lead_program_id" := Null, "lead_channel_id" := Null, "completion_target" := Null, "wecom_tagging" := Obj(map[])]))
  {
  }

  lemma ProductRule(src: Snapshot, row: SourceRow)
    ensures Keep(src, Products, row) && ProductCopy(row.columns, Project(src, Products, row))
  {
    hide ProjectionCopy, Merged, Without;
    MergedProjection(Col(row.columns, "legacy_admin_projection"));
  }

  lemma RadarRule(src: Snapshot, row: SourceRow)
    ensures Keep(src, RadarLinks, row) && RadarCopy(row.columns, Project(src, RadarLinks, row))
  {
  }

  lemma QuestionnaireRule(src: Snapshot, row: SourceRow)
    ensures Keep(src, Questionnaires, row) && QuestionnaireCopy(row.columns, Project(src, Questionnaires, row))
  {
  }

  lemma PackageRule(src: Snapshot, row: SourceRow)
    ensures PackageCopy(row.columns, Project(src, PackageMetadata, row))
  {
  }

  lemma ContentRule(c: Columns)
    ensures ContentCopy(Col(c, "fixed_content_package_json"), FixedContent(c))
  {
  }

  lemma AgentRule(src: Snapshot, row: SourceRow)
    ensures AgentCopy(row.columns, Project(src, AgentConfigurations, row))
    ensures Keep(src, AgentConfigurations, row) <==> Col(row.columns, "status").Text? && Col(row.columns, "status") != Text("archived")
  {
    hide ContentCopy, FixedContent;
    ContentRule(row.columns);
  }

  lemma WholeIs(src: Snapshot, segment: Json)
    ensures Complete(src, segment) <==> Whole(src, segment)
    ensures HasPackage(src, segment) <==> Packaged(src, segment)
  {
    hide Col, Rows;
  }

  lemma GroupRule(src: Snapshot, row: SourceRow)
    ensures Keep(src, PackageGroups, row) <==> Comes(src, PackageGroups, row.columns)
  {
    hide Complete, Whole, Col, Rows;
    forall segment { WholeIs(src, segment); }
    var c := row.columns;
    if p :| p in Rows(src, PackageMetadata) && InGroup(p, c) && Whole(src, Col(p.columns, "segment_id")) {
      assert Equal(Col(p.columns, "group_id"), Col(c, "id"));
    }
    if m :| m in Rows(src, PackageMetadata) && Equal(Col(m.columns, "group_id"), Col(c, "id")) && Complete(src, Col(m.columns, "segment_id")) {
      assert InGroup(m, c);
    }
  }

  lemma AudienceRule(src: Snapshot, e: Entity, row: SourceRow)
    requires e in {Segments, PackageMetadata, PackageVersions, SegmentMembers}
    ensures Keep(src, e, row) <==> Comes(src, e, row.columns)
  {
    hide Complete, Whole, HasPackage, Packaged, Col;
    forall segment { WholeIs(src, segment); }
  }

  lemma SettingRule(src: Snapshot, row: SourceRow)
    ensures Keep(src, Settings, row) <==> Comes(src, Settings, row.columns)
  {
  }

  lemma SameRule(src: Snapshot, e: Entity, row: SourceRow)
    requires e in {Settings, PackageGroups, Segments, PackageVersions, SegmentMembers}
    ensures Project(src, e, row) == row.columns
  {
  }

  const SHAPED := {Settings, Channels, Products, Questionnaires, RadarLinks, PackageGroups, Segments, PackageMetadata,
                   PackageVersions, SegmentMembers, AgentConfigurations}

  lemma ShapedRule(src: Snapshot, e: Entity, row: SourceRow)
    requires e in SHAPED
    ensures Keep(src, e, row) <==> Comes(src, e, row.columns)
    ensures CopyOf(e, row.columns, Project(src, e, row))
    ensures HasRule(e) && TargetOf(e) == e && e != Orders && e != Submissions
  {
    hide Keep, Project, ChannelCopy, ProductCopy, QuestionnaireCopy, RadarCopy, PackageCopy, AgentCopy, Whole, Packaged, InGroup, Col;
    match e {
      case Channels => ChannelRule(src, row);
      case Products => ProductRule(src, row);
      case Questionnaires => QuestionnaireRule(src, row);
      case RadarLinks => RadarRule(src, row);
      case AgentConfigurations => AgentRule(src, row);
      case Settings => SettingRule(src, row); SameRule(src, e, row);
      case PackageGroups => GroupRule(src, row); SameRule(src, e, row);
      case PackageMetadata => AudienceRule(src, e, row); PackageRule(src, row);
      case _ => AudienceRule(src, e, row); SameRule(src, e, row);
    }
  }

  /** Main result: a row in one of these eleven tables is the copy, column by column, of a source row that
      comes along. */
  lemma ComesFrom(x: Inputs, e: Entity, c: Columns) returns (row: SourceRow)
    requires c in TableOf(After(x), e)
    requires e in {Settings, Channels, Products, Questionnaires, RadarLinks, PackageGroups, Segments, PackageMetadata,
                   PackageVersions, SegmentMembers, AgentConfigurations}
    ensures row in Rows(x.src, e) && Comes(x.src, e, row.columns) && CopyOf(e, row.columns, c)
  {
    hide Keep, Project, Comes, CopyOf, After, TableOf, Rows, HasRule, TargetOf;
    ShapedRule(x.src, e, SourceRow(map[], ""));
    row := From(x, e, e, c);
    CopiedPlainly(x, e, row);
    ShapedRule(x.src, e, row);
  }

  /** And every one of those arrives. */
  lemma AllCome(x: Inputs, e: Entity, row: SourceRow) returns (c: Columns)
    requires Permitted(x) && row in Rows(x.src, e) && Comes(x.src, e, row.columns)
    requires e in {Settings, Channels, Products, Questionnaires, RadarLinks, PackageGroups, Segments, PackageMetadata,
                   PackageVersions, SegmentMembers, AgentConfigurations}
    ensures c in TableOf(After(x), e) && CopyOf(e, row.columns, c)
  {
    hide Keep, Project, Comes, CopyOf, After, TableOf, Rows, HasRule, TargetOf, Permitted;
    ShapedRule(x.src, e, row);
    c := Arrives(x, e, e, row);
    CopiedPlainly(x, e, row);
  }

  // ----- Refunds

  /** What a fact takes over from the refund and from its order. */
  predicate FactKept(refund: Columns, order: Columns, c: Columns) {
    && Col(c, "id") == Col(refund, "id") && Col(c, "order_id") == Col(refund, "order_id")
    && Col(c, "amount_minor") == Col(refund, "amount_minor") && Col(c, "currency") == Col(refund, "currency")
    && Col(c, "status") == Col(refund, "status") && Col(c, "reason") == Col(refund, "reason")
    && Col(c, "created_at") == Col(refund, "created_at") && Col(c, "provider") == Col(order, "provider")
  }

  /** What it derives. */
  predicate FactDerived(refund: Columns, c: Columns) {
    && Col(c, "provider_refund_reference") ==
       (if Col(refund, "provider_refund_id") in {Text(""), Null} then Col(refund, "refund_number") else Col(refund, "provider_refund_id"))
    && Col(c, "completed_at") ==
       (if Lower(Str(Col(refund, "status"))) in {"completed", "success", "succeeded", "refunded"} then Col(refund, "updated_at") else Null)
  }

  predicate FactOf(refund: Columns, order: Columns, c: Columns) {
    && FactKept(refund, order, c) && FactDerived(refund, c)
    && c.Keys == {"id", "order_id", "provider", "provider_refund_reference", "amount_minor", "currency", "status", "reason", "created_at", "completed_at"}
  }

  /** A refund the provider has decided. */
  predicate Decided(refund: Columns) {
    && Col(refund, "status").Text?
    && Lower(Col(refund, "status").s) in {"completed", "success", "succeeded", "refunded", "failed", "rejected", "cancelled"}
  }

  predicate Belongs(refund: Columns, order: Columns) {
    Col(order, "id") == Col(refund, "order_id") != Null
  }

  lemma {:induction false} ParentFound(rows: seq<SourceRow>, id: Json)
    ensures FindById(rows, id) == [] <==> forall o :: o in rows ==> !Equal(Col(o.columns, "id"), id)
    ensures FindById(rows, id) != [] ==> FindById(rows, id)[0] in rows && Equal(Col(FindById(rows, id)[0].columns, "id"), id)
  {
    hide Col;
    if rows != [] { ParentFound(rows[1..], id); }
  }

  lemma FactKeepsColumns(src: Snapshot, refund: SourceRow, order: SourceRow)
    requires Parent(src, refund) != [] && Parent(src, refund)[0] == order
    ensures FactKept(refund.columns, order.columns, RefundFact(src, refund))
  {
    hide Lower, Parent;
  }

  lemma RefundProjected(src: Snapshot, refund: SourceRow)
    ensures Project(src, HistoricalRefunds, refund) == RefundFact(src, refund)
  {
    hide RefundFact;
  }

  lemma FactDerivesColumns(src: Snapshot, refund: SourceRow)
    ensures FactDerived(refund.columns, RefundFact(src, refund))
  {
    hide Lower, Parent;
  }

  lemma FactColumns(src: Snapshot, refund: SourceRow, order: SourceRow)
    requires Parent(src, refund) != [] && Parent(src, refund)[0] == order
    ensures FactOf(refund.columns, order.columns, Project(src, HistoricalRefunds, refund))
  {
    hide Lower, Parent, Col, FactKept, FactDerived, Project;
    RefundProjected(src, refund);
    FactKeepsColumns(src, refund, order);
    FactDerivesColumns(src, refund);
  }

  lemma DecidedIs(refund: SourceRow)
    ensures Final(refund) <==> Decided(refund.columns)
  {
    hide Lower;
  }

  /** Main result: every refund fact in the target is made of a decided refund and its product order. */
  lemma RefundFactFrom(x: Inputs, c: Columns) returns (refund: SourceRow, order: SourceRow)
    requires c in TableOf(After(x), RefundFacts)
    ensures refund in Rows(x.src, HistoricalRefunds) && Decided(refund.columns)
    ensures order in Rows(x.src, Orders) && Belongs(refund.columns, order.columns) && Col(order.columns, "product_id") != Null
    ensures FactOf(refund.columns, order.columns, c)
  {
    hide After, TableOf, Rows, Project, FactOf, Final, Decided, Col, FindById;
    refund := From(x, HistoricalRefunds, RefundFacts, c);
    order := Parent(x.src, refund)[0];
    ParentFound(Rows(x.src, Orders), Col(refund.columns, "order_id"));
    CopiedPlainly(x, HistoricalRefunds, refund);
    FactColumns(x.src, refund, order);
    DecidedIs(refund);
  }

  /** And every decided refund of a product order becomes one. */
  lemma RefundFactArrives(x: Inputs, refund: SourceRow) returns (order: SourceRow, c: Columns)
    requires Permitted(x) && refund in Rows(x.src, HistoricalRefunds) && Decided(refund.columns)
    requires exists o :: o in Rows(x.src, Orders) && Belongs(refund.columns, o.columns)
    requires forall o :: o in Rows(x.src, Orders) && Belongs(refund.columns, o.columns) ==> Col(o.columns, "product_id") != Null
    ensures order in Rows(x.src, Orders) && Belongs(refund.columns, order.columns)
    ensures c in TableOf(After(x), RefundFacts) && FactOf(refund.columns, order.columns, c)
  {
    hide After, TableOf, Rows, Project, FactOf, Final, Decided, Col, FindById, Permitted;
    ParentFound(Rows(x.src, Orders), Col(refund.columns, "order_id"));
    var o :| o in Rows(x.src, Orders) && Belongs(refund.columns, o.columns);
    assert Equal(Col(o.columns, "id"), Col(refund.columns, "order_id"));
    order := Parent(x.src, refund)[0];
    DecidedIs(refund);
    c := Arrives(x, HistoricalRefunds, RefundFacts, refund);
    CopiedPlainly(x, HistoricalRefunds, refund);
    FactColumns(x.src, refund, order);
  }
}
