/** The frozen source database: ordered rows of JSON columns, and the SQL and jsonb
    operators the importer's queries apply to them. */
module Snapshot {
  import Decimal

  datatype Json =
    | Null
    | Bool(b: bool)
    | Num(n: int)
    | Text(s: string)
    | Arr(items: seq<Json>)
    | Obj(fields: map<string, Json>)

  type Columns = map<string, Json>

  /** A row: its columns, and its to_jsonb text as the database prints it. */
  datatype SourceRow = SourceRow(columns: Columns, text: string)

  /** Source tables and target tables, by the names the importer uses for them. */
  datatype Entity =
    | AdminUsers | AdminSessions | Settings
    | Channels | Products | Orders | HistoricalRefunds | RefundFacts | Entitlements
    | Questionnaires | Questions | Options | Submissions | Answers
    | MemberViews | Members | RadarLinks
    | PackageGroups | Segments | PackageMetadata | PackageVersions | SegmentMembers
    | AgentConfigurations | HxcUsers | HxcSyncRuns
    | Customers | QuestionnaireSubjects | Identities | V1Packages | EditableProjections

  function CatalogTable(e: Entity): string {
    match e
    case AdminUsers => "admin_users"
    case AdminSessions => "admin_sessions"
    case Settings => "settings"
    case Channels => "channels"
    case Products => "products"
    case RadarLinks => "radar_links"
    case _ => ""
  }

  function AgentTable(e: Entity): string {
    match e
    case AgentConfigurations => "automation_agent_configurations"
    case HxcUsers => "hxc_user_current"
    case HxcSyncRuns => "hxc_current_sync_runs"
    case _ => ""
  }

  function OrderTable(e: Entity): string {
    match e
    case Orders => "order_list_projections"
    case HistoricalRefunds => "order_historical_refunds"
    case RefundFacts => "order_refund_facts"
    case _ => ""
  }

  function MemberTable(e: Entity): string {
    match e
    case Entitlements => "product_local_entitlements"
    case MemberViews => "service_period_member_views"
    case Members => "service_period_members"
    case _ => ""
  }

  function QuestionnaireTable(e: Entity): string {
    match e
    case Questionnaires => "questionnaires"
    case Questions => "questionnaire_questions"
    case Options => "questionnaire_options"
    case QuestionnaireSubjects => "questionnaire_subjects"
    case _ => ""
  }

  function SubmissionTable(e: Entity): string {
    match e
    case Submissions => "questionnaire_submissions"
    case Answers => "questionnaire_submission_answers"
    case Customers => "customers"
    case Identities => "identities"
    case _ => ""
  }

  function PackageTable(e: Entity): string {
    match e
    case PackageGroups => "ai_audience_package_groups"
    case PackageMetadata => "ai_audience_package_metadata"
    case _ => ""
  }

  function SegmentTable(e: Entity): string {
    match e
    case Segments => "segments"
    case SegmentMembers => "segment_members"
    case V1Packages => "segment_v1_audience_packages"
    case _ => ""
  }

  function VersionTable(e: Entity): string {
    match e
    case PackageVersions => "ai_audience_package_configuration_versions"
    case _ => ""
  }

  function ProjectionTable(e: Entity): string {
    match e
    case EditableProjections => "ai_audience_v1_editable_package_projections"
    case _ => ""
  }

  /** The part of the schema a table belongs to. */
  datatype Area =
    | CatalogArea | AgentArea | OrderArea | MemberArea | QuestionnaireArea
    | SubmissionArea | PackageArea | SegmentArea | VersionArea | ProjectionArea

  function AreaOf(e: Entity): Area {
    match e
    case AdminUsers | AdminSessions | Settings | Channels | Products | RadarLinks => CatalogArea
    case AgentConfigurations | HxcUsers | HxcSyncRuns => AgentArea
    case Orders | HistoricalRefunds | RefundFacts => OrderArea
    case Entitlements | MemberViews | Members => MemberArea
    case Questionnaires | Questions | Options | QuestionnaireSubjects => QuestionnaireArea
    case Submissions | Answers | Customers | Identities => SubmissionArea
    case PackageGroups | PackageMetadata => PackageArea
    case Segments | SegmentMembers | V1Packages => SegmentArea
    case PackageVersions => VersionArea
    case _ => ProjectionArea
  }

  function Name(e: Entity): string {
    match AreaOf(e)
    case CatalogArea => CatalogTable(e)
    case AgentArea => AgentTable(e)
    case OrderArea => OrderTable(e)
    case MemberArea => MemberTable(e)
    case QuestionnaireArea => QuestionnaireTable(e)
    case SubmissionArea => SubmissionTable(e)
    case PackageArea => PackageTable(e)
    case SegmentArea => SegmentTable(e)
    case VersionArea => VersionTable(e)
    case ProjectionArea => ProjectionTable(e)
  }

  /** Each table in primary-key order, the order every query asks for. */
  datatype Snapshot = Snapshot(tables: map<Entity, seq<SourceRow>>)

  function Rows(src: Snapshot, e: Entity): seq<SourceRow> {
    if e in src.tables then src.tables[e] else []
  }

  function Col(c: Columns, name: string): Json {
    if name in c then c[name] else Null
  }

  function Int(j: Json): int {
    if j.Num? then j.n else 0
  }

  function Str(j: Json): string {
    if j.Text? then j.s else ""
  }

  /** column::text */
  function Cast(j: Json): string {
    if j.Num? then Decimal.FormatInt(j.n) else Str(j)
  }

  /** SQL equality: never true of NULL. */
  predicate Equal(a: Json, b: Json) {
    a == b && a != Null
  }

  /** EXISTS (SELECT 1 FROM rows WHERE column = value) */
  predicate Exists(rows: seq<SourceRow>, column: string, value: Json) {
    exists r :: r in rows && Equal(Col(r.columns, column), value)
  }

  // ----- jsonb operators

  /** object - text[] */
  function Without(j: Json, keys: set<string>): Json {
    if j.Obj? then Obj(j.fields - keys) else j
  }

  /** object || object */
  function Merged(j: Json, more: map<string, Json>): Json {
    if j.Obj? then Obj(j.fields + more) else Null
  }

  /** object ?| text[] */
  predicate HasAny(j: Json, keys: set<string>) {
    j.Obj? && exists k :: k in keys && k in j.fields
  }

  /** object -> key, NULL when absent */
  function Field(j: Json, key: string): Json {
    if j.Obj? && key in j.fields then j.fields[key] else Null
  }

  function Length(j: Json): nat {
    if j.Arr? then |j.items| else 0
  }

  /** lower(), on the ASCII letters the status words use. */
  function LowerChar(c: char): char {
    if 'A' <= c <= 'Z' then (c as int - 'A' as int + 'a' as int) as char else c
  }

  function Lower(s: string): string {
    seq(|s|, i requires 0 <= i < |s| => LowerChar(s[i]))
  }

  /** Letters differ by case only, and nothing else changes. */
  lemma LowerIs(s: string, i: nat)
    requires i < |s|
    ensures |Lower(s)| == |s|
    ensures 'A' <= s[i] <= 'Z' ==> Lower(s)[i] as int == s[i] as int + 32
    ensures !('A' <= s[i] <= 'Z') ==> Lower(s)[i] == s[i]
  {
  }
}
