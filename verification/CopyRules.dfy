/** The table-by-table copy rules (whitelistCopySpecs and the queries of
    recordSkippedRefunds, recordRejectedOrders and recordSkippedAudiences in
    cmd/aicrm-whitelist-import/importer.go). */
module CopyRules {
  import opened Snapshot

  datatype Domain = NoDomain | Identity | Channel | Product | Order | Membership | Questionnaire | Radar | Audience | Automation | Hxc

  datatype CopySpec = CopySpec(domain: Domain, source: Entity, target: Entity)

  const COPIED: seq<CopySpec> := [
    CopySpec(NoDomain, AdminUsers, AdminUsers),
    CopySpec(NoDomain, AdminSessions, AdminSessions),
    CopySpec(NoDomain, Settings, Settings),
    CopySpec(Channel, Channels, Channels),
    CopySpec(Product, Products, Products),
    CopySpec(Order, Orders, Orders),
    CopySpec(Order, HistoricalRefunds, RefundFacts),
    CopySpec(Membership, Entitlements, Entitlements),
    CopySpec(Questionnaire, Questionnaires, Questionnaires),
    CopySpec(Questionnaire, Questions, Questions),
    CopySpec(Questionnaire, Options, Options),
    CopySpec(Questionnaire, Submissions, Submissions),
    CopySpec(Questionnaire, Answers, Answers),
    CopySpec(Membership, MemberViews, MemberViews),
    CopySpec(Membership, Members, Members),
    CopySpec(Radar, RadarLinks, RadarLinks),
    CopySpec(Audience, PackageGroups, PackageGroups),
    CopySpec(Audience, Segments, Segments),
    CopySpec(Audience, PackageMetadata, PackageMetadata),
    CopySpec(Audience, PackageVersions, PackageVersions),
    CopySpec(Audience, SegmentMembers, SegmentMembers),
    CopySpec(Automation, AgentConfigurations, AgentConfigurations),
    CopySpec(Hxc, HxcUsers, HxcUsers),
    CopySpec(Hxc, HxcSyncRuns, HxcSyncRuns)
  ]

  const SETTING_KEYS := {"wecom.corp_id", "wecom.agent_id", "outbound.rate_per_second", "outbound.max_attempts"}
  const CHANNEL_KEYS := {"staff_id", "staff_ids", "employee_id", "employee_ids", "tag_id", "tag_ids", "welcome_material_id",
                         "welcome_material_ids", "welcome_message", "material_id", "material_ids"}
  const PRODUCT_KEYS := {"image_ids", "material_ids"}
  const COMPLETED := {"completed", "success", "succeeded", "refunded"}
  const FAILED := {"failed", "rejected", "cancelled"}

  // ----- Selection

  predicate HasProduct(row: SourceRow) {
    Col(row.columns, "product_id") != Null
  }

  function FindById(rows: seq<SourceRow>, id: Json): seq<SourceRow> {
    if rows == [] then []
    else if Equal(Col(rows[0].columns, "id"), id) then [rows[0]]
    else FindById(rows[1..], id)
  }

  /** The order a refund joins to: none, or the one with that primary key. */
  function Parent(src: Snapshot, refund: SourceRow): seq<SourceRow> {
    FindById(Rows(src, Orders), Col(refund.columns, "order_id"))
  }

  predicate Final(refund: SourceRow) {
    var status := Col(refund.columns, "status");
    status.Text? && Lower(status.s) in COMPLETED + FAILED
  }

  predicate NotFinal(refund: SourceRow) {
    var status := Col(refund.columns, "status");
    status.Text? && Lower(status.s) !in COMPLETED + FAILED
  }

  /** Every member of the segment is a customer that exists. */
  predicate Complete(src: Snapshot, segment: Json) {
    forall m :: m in Rows(src, SegmentMembers) && Equal(Col(m.columns, "segment_id"), segment)
                ==> Exists(Rows(src, Customers), "id", Col(m.columns, "customer_id"))
  }

  predicate HasPackage(src: Snapshot, segment: Json) {
    Exists(Rows(src, PackageMetadata), "segment_id", segment)
  }

  predicate Keep(src: Snapshot, e: Entity, row: SourceRow) {
    var c := row.columns;
    match e
    case Settings => Str(Col(c, "key")) in SETTING_KEYS
    case Orders => HasProduct(row)
    case HistoricalRefunds => Final(row) && Parent(src, row) != [] && HasProduct(Parent(src, row)[0])
    case PackageGroups =>
      exists m :: m in Rows(src, PackageMetadata) && Equal(Col(m.columns, "group_id"), Col(c, "id")) && Complete(src, Col(m.columns, "segment_id"))
    case Segments => HasPackage(src, Col(c, "id")) && Complete(src, Col(c, "id"))
    case PackageMetadata => Complete(src, Col(c, "segment_id"))
    case PackageVersions => Complete(src, Col(c, "package_id"))
    case SegmentMembers => HasPackage(src, Col(c, "segment_id")) && Complete(src, Col(c, "segment_id"))
    case AgentConfigurations => Col(c, "status").Text? && Col(c, "status").s != "archived"
    case _ => true
  }

  /** The primary-key columns, and the key text built from them. */
  function PrimaryKey(e: Entity, row: SourceRow): seq<Json> {
    var c := row.columns;
    match e
    case Settings => [Col(c, "key")]
    case HxcUsers => [Col(c, "hxc_user_id")]
    case PackageMetadata => [Col(c, "segment_id")]
    case PackageVersions => [Col(c, "package_id"), Col(c, "version")]
    case SegmentMembers => [Col(c, "segment_id"), Col(c, "customer_id")]
    case EditableProjections => [Col(c, "package_history_id")]
    case _ => [Col(c, "id")]
  }

  function Key(e: Entity, row: SourceRow): string {
    var pk := PrimaryKey(e, row);
    if |pk| == 2 then Cast(pk[0]) + ":" + Cast(pk[1]) else Cast(pk[0])
  }

  // ----- Projection

  const BLANK := Text("")

  function RefundFact(src: Snapshot, row: SourceRow): Columns {
    var c := row.columns;
    var provider := if Parent(src, row) == [] then Null else Col(Parent(src, row)[0].columns, "provider");
    var reference := Col(c, "provider_refund_id");
    map["id" := Col(c, "id"), "order_id" := Col(c, "order_id"), "provider" := provider,
        "provider_refund_reference" := if reference == BLANK || reference == Null then Col(c, "refund_number") else reference,
        "amount_minor" := Col(c, "amount_minor"), "currency" := Col(c, "currency"), "status" := Col(c, "status"),
        "reason" := Col(c, "reason"), "created_at" := Col(c, "created_at"),
        "completed_at" := if Lower(Str(Col(c, "status"))) in COMPLETED then Col(c, "updated_at") else Null]
  }

  /** The text of an agent's fixed content, with empty libraries. */
  function FixedContent(c: Columns): Json {
    Obj(map[
      "content_text" := Text(Cast(Field(Col(c, "fixed_content_package_json"), "content_text"))),
      "image_library_ids" := Arr([]), "miniprogram_library_ids" := Arr([]),
      "attachment_library_ids" := Arr([]), "group_invite_library_ids" := Arr([])])
  }

  function Project(src: Snapshot, e: Entity, row: SourceRow): Columns {
    var c := row.columns;
    match e
    case Channels => c["config" := Without(Col(c, "config"), CHANNEL_KEYS)]
    case Products =>
      c["legacy_admin_projection" :=
        Merged(Without(Col(c, "legacy_admin_projection"), PRODUCT_KEYS),
               map["lead_program_id" := Null, "lead_channel_id" := Null, "completion_target" := Null, "wecom_tagging" := Obj(map[])])]
    case Orders =>
      c + map["payer_name_snapshot" := BLANK, "mobile_snapshot" := BLANK, "identity_kind" := BLANK, "identity_value" := BLANK]
    case HistoricalRefunds => RefundFact(src, row)
    case Questionnaires => c["submission_count" := Num(0)]
    case Submissions =>
      c + map["respondent_key" := BLANK, "openid" := BLANK, "unionid" := BLANK, "external_userid" := BLANK, "customer_name" := BLANK,
              "follow_user_userid" := BLANK, "mobile" := BLANK, "campaign_id" := BLANK, "staff_id" := BLANK]
    case RadarLinks => c + map["cover_image_id" := Null, "attachment_id" := Null]
    case PackageMetadata => c["lifecycle" := Text("paused")]
    case AgentConfigurations =>
      c + map["status" := Text("paused"), "execution_enabled" := Bool(false), "fixed_content_package_json" := FixedContent(c)]
    case _ => c
  }

  /** Audience packages of the first version that were active and have no editable projection. */
  predicate SkippedPackage(src: Snapshot, row: SourceRow) {
    && Col(row.columns, "original_status") == Text("active")
    && !Exists(Rows(src, EditableProjections), "package_history_id", Col(row.columns, "id"))
  }

  predicate RejectedRefund(src: Snapshot, row: SourceRow) {
    Final(row) && Parent(src, row) != [] && !HasProduct(Parent(src, row)[0])
  }
}
