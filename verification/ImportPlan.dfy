/** What one walk over the snapshot hashes, counts and writes, as a list of events
    (walkSource and its helpers in cmd/aicrm-whitelist-import/importer.go). */
module ImportPlan {
  import opened Wrappers
  import opened Snapshot
  import opened CopyRules
  import opened Target
  import opened Digest
  import opened ResolutionPass
  import Decimal
  import Hex
  import Reencoding
  import References
  import Resolution
  import Sets

  datatype CountKey = Migrated(domain: Domain) | OrderRejected | OrderSkipped | AudienceSkipped

  /** One source row: the record it adds to the digest, the counter it advances, its writes. */
  datatype Event = Event(record: Record, count: Option<CountKey>, writes: seq<Write>)

  /** The inputs of a walk: the snapshot, the resolved subjects, the archive binding, SHA-256 and the
      digits encoding/json prints. */
  datatype Inputs = Inputs(src: Snapshot, subjects: Subjects, binding: string, sha: string -> string, printer: Reencoding.Printer)

  function UpTo<A>(items: seq<A>, n: nat, f: A -> seq<Event>): seq<Event>
    requires n <= |items|
  {
    if n == 0 then [] else UpTo(items, n - 1, f) + f(items[n - 1])
  }

  function FlatMap<A>(items: seq<A>, f: A -> seq<Event>): seq<Event> {
    UpTo(items, |items|, f)
  }

  lemma {:induction false} UpToMember<A>(items: seq<A>, n: nat, f: A -> seq<Event>, e: Event)
    requires n <= |items|
    ensures e in UpTo(items, n, f) <==> exists i :: 0 <= i < n && e in f(items[i])
  {
    if n > 0 { UpToMember(items, n - 1, f, e); }
  }

  lemma FlatMapMember<A>(items: seq<A>, f: A -> seq<Event>, e: Event) returns (item: A)
    requires e in FlatMap(items, f)
    ensures item in items && e in f(item)
  {
    UpToMember(items, |items|, f, e);
    var i :| 0 <= i < |items| && e in f(items[i]);
    item := items[i];
  }

  lemma FlatMapHas<A>(items: seq<A>, f: A -> seq<Event>, item: A, e: Event)
    requires item in items && e in f(item)
    ensures e in FlatMap(items, f)
  {
    var i :| 0 <= i < |items| && items[i] == item;
    UpToMember(items, |items|, f, e);
  }

  // ----- Migrated rows

  function MigrateEvent(domain: Domain, source: Entity, target: Entity, key: string, text: string, writes: seq<Write>): Event {
    if domain == NoDomain then Event(Record(Name(source), key, text), None, writes)
    else
      Event(Record(Name(source), key, text), Some(Migrated(domain)),
            writes + [InsertReceipt(Receipt(domain, source, key, text, target, Some(key), Migrate, ""))])
  }

  const SYSTEM := "aicrm_v2_frozen"

  function ReferenceDigest(sha: string -> string, entity: string, value: string): string {
    sha(SYSTEM + [NUL] + entity + [NUL] + value)
  }

  function SubjectIDs(subjects: Subjects): set<int> {
    (set k | k in subjects.bySubmission :: subjects.bySubmission[k]) + (set k | k in subjects.byOrder :: subjects.byOrder[k])
  }

  function IdsIn(rows: seq<SourceRow>, column: string): set<int> {
    set r | r in rows && Col(r.columns, column) != Null :: Int(Col(r.columns, column))
  }

  /** The customers the walk must bring along. */
  function Wanted(x: Inputs): set<int> {
    IdsIn(Rows(x.src, Orders), "customer_id") + IdsIn(Rows(x.src, Entitlements), "customer_id")
    + IdsIn(Rows(x.src, Members), "customer_id") + IdsIn(Rows(x.src, HxcUsers), "customer_id")
    + (set m | m in Rows(x.src, SegmentMembers) && HasPackage(x.src, Col(m.columns, "segment_id")) :: Int(Col(m.columns, "customer_id")))
    + SubjectIDs(x.subjects)
  }

  predicate Selected(x: Inputs, row: SourceRow) {
    Int(Col(row.columns, "id")) in Wanted(x)
  }

  function CustomerWrites(x: Inputs, row: SourceRow): seq<Write> {
    var id, key := Int(Col(row.columns, "id")), Key(Customers, row);
    [InsertCustomer(Customer(id, Int(Col(row.columns, "created_at")), Int(Col(row.columns, "updated_at")))),
     InsertReference(SubjectRef(id, "customer", ReferenceDigest(x.sha, "customer", key)))]
  }

  function CustomerEvent(x: Inputs, row: SourceRow): Event {
    MigrateEvent(Identity, Customers, Customers, Key(Customers, row), row.text, CustomerWrites(x, row))
  }

  function CustomerStep(x: Inputs): SourceRow -> seq<Event> {
    (row: SourceRow) => if Selected(x, row) then [CustomerEvent(x, row)] else []
  }

  /** The JSON of an invented customer; instants are printed as numbers. */
  function SubjectText(y: Resolution.Synthetic): string {
    "{\"id\":" + Decimal.FormatInt(y.id) + ",\"created_at\":" + Decimal.FormatInt(y.createdAt)
    + ",\"updated_at\":" + Decimal.FormatInt(y.updatedAt) + "}"
  }

  function SubjectStep(): Resolution.Synthetic -> seq<Event> {
    (y: Resolution.Synthetic) =>
      [MigrateEvent(Identity, QuestionnaireSubjects, Customers, Decimal.FormatInt(y.id), SubjectText(y),
                    [InsertCustomer(Customer(y.id, y.createdAt, y.updatedAt))])]
  }

  /** Stands for hex.EncodeToString of a digest; digests are byte strings. */
  function HexText(digest: string): string {
    if Hex.IsBytes(digest) then Hex.Encode(digest) else []
  }

  function ReferenceEvent(x: Inputs, customer: int, r: References.Reference): Event {
    var digest := ReferenceDigest(x.sha, r.entity, r.value);
    Event(Record(SUBJECT_REFS, Decimal.FormatInt(customer) + ":" + r.entity + ":" + HexText(digest), digest), None,
          [InsertReference(SubjectRef(customer, r.entity, digest))])
  }

  function ReferenceStep(x: Inputs, customer: int): References.Reference -> seq<Event> {
    (r: References.Reference) => [ReferenceEvent(x, customer, r)]
  }

  function CustomerReferences(x: Inputs): int -> seq<Event> {
    (customer: int) => FlatMap(Resolution.Listed(x.subjects.references, customer), ReferenceStep(x, customer))
  }

  // ----- Copied tables

  /** The row as it is printed again, with its customer. */
  function Rewritten(x: Inputs, c: Columns, customer: int): Columns {
    (map k | k in c :: Reencoding.Recoded(x.printer, c[k]))["customer_id" := Num(customer)]
  }

  /** addOrderCustomer and addSubmissionCustomer: an order that has its customer is passed on as it came. */
  function Transform(x: Inputs, e: Entity, key: string, c: Columns): Option<Columns> {
    var id := Decimal.ParseInt(key);
    match e
    case Orders =>
      if id.None? || !Reencoding.ReadableRow(c) then None
      else if Col(c, "customer_id") != Null then Some(c)
      else if id.value in x.subjects.byOrder then Some(Rewritten(x, c, x.subjects.byOrder[id.value]))
      else None
    case Submissions =>
      if id.None? || id.value !in x.subjects.bySubmission || !Reencoding.ReadableRow(c) then None
      else Some(Rewritten(x, c, x.subjects.bySubmission[id.value]))
    case _ => Some(c)
  }

  function Copied(x: Inputs, e: Entity, row: SourceRow): Option<Columns> {
    Transform(x, e, Key(e, row), Project(x.src, e, row))
  }

  function CopiedEvent(x: Inputs, spec: CopySpec, row: SourceRow): Event {
    var c := Copied(x, spec.source, row);
    MigrateEvent(spec.domain, spec.source, spec.target, Key(spec.source, row), row.text, if c.Some? then [InsertRow(spec.target, c.value)] else [])
  }

  function CopyStep(x: Inputs, spec: CopySpec): SourceRow -> seq<Event> {
    (row: SourceRow) => if Keep(x.src, spec.source, row) then [CopiedEvent(x, spec, row)] else []
  }

  function CopyTable(x: Inputs): CopySpec -> seq<Event> {
    (spec: CopySpec) => FlatMap(Rows(x.src, spec.source), CopyStep(x, spec))
  }

  lemma CopyTableIs(x: Inputs, spec: CopySpec)
    ensures CopyTable(x)(spec) == FlatMap(Rows(x.src, spec.source), CopyStep(x, spec))
  {
  }

  // ----- Rows that stay behind

  function LeaveEvent(suffix: string, domain: Domain, source: Entity, target: Entity, disposition: Disposition, reason: string, count: CountKey, row: SourceRow): Event {
    var key := Key(source, row);
    Event(Record(Name(source) + suffix, key, row.text), Some(count),
          [InsertReceipt(Receipt(domain, source, key, row.text, target, None, disposition, reason))])
  }

  function SkippedRefundStep(): SourceRow -> seq<Event> {
    (row: SourceRow) =>
      if NotFinal(row)
      then [LeaveEvent(".skipped", Order, HistoricalRefunds, RefundFacts, ArchiveNotOnV2, "refund is not a final provider fact", OrderSkipped, row)]
      else []
  }

  function RejectedOrderStep(): SourceRow -> seq<Event> {
    (row: SourceRow) =>
      if !HasProduct(row)
      then [LeaveEvent(".rejected", Order, Orders, Orders, Reject, "order has no exact product relation", OrderRejected, row)]
      else []
  }

  function RejectedRefundStep(x: Inputs): SourceRow -> seq<Event> {
    (row: SourceRow) =>
      if RejectedRefund(x.src, row)
      then [LeaveEvent(".rejected", Order, HistoricalRefunds, RefundFacts, Reject, "parent order has no exact product relation", OrderRejected, row)]
      else []
  }

  function SkippedMetadataStep(x: Inputs): SourceRow -> seq<Event> {
    (row: SourceRow) =>
      if !Complete(x.src, Col(row.columns, "segment_id"))
      then [LeaveEvent(".skipped", Audience, PackageMetadata, Segments, ArchiveNotOnV2,
                       "package member mapping is incomplete; recreate with V2 audience logic", AudienceSkipped, row)]
      else []
  }

  function SkippedPackageStep(x: Inputs): SourceRow -> seq<Event> {
    (row: SourceRow) =>
      if SkippedPackage(x.src, row)
      then [LeaveEvent(".skipped", Audience, V1Packages, Segments, ArchiveNotOnV2,
                       "identity mapping or legacy rule requires redesign", AudienceSkipped, row)]
      else []
  }

  // ----- The whole walk

  ghost function IdentityEvents(x: Inputs): seq<Event> {
    FlatMap(Rows(x.src, Customers), CustomerStep(x))
    + FlatMap(x.subjects.synthetic, SubjectStep())
    + FlatMap(Sets.Ascend(x.subjects.references.Keys), CustomerReferences(x))
  }

  function SkippedRefunds(x: Inputs): seq<Event> {
    FlatMap(Rows(x.src, HistoricalRefunds), SkippedRefundStep())
  }

  function RejectedOrders(x: Inputs): seq<Event> {
    FlatMap(Rows(x.src, Orders), RejectedOrderStep()) + FlatMap(Rows(x.src, HistoricalRefunds), RejectedRefundStep(x))
  }

  function SkippedAudiences(x: Inputs): seq<Event> {
    FlatMap(Rows(x.src, PackageMetadata), SkippedMetadataStep(x)) + FlatMap(Rows(x.src, V1Packages), SkippedPackageStep(x))
  }

  function LeftBehind(x: Inputs): seq<Event> {
    SkippedRefunds(x) + RejectedOrders(x) + SkippedAudiences(x)
  }

  function BindingEvent(x: Inputs): Event {
    Event(Record("v1_archive_binding", x.binding, x.binding), None, [])
  }

  ghost function Plan(x: Inputs): seq<Event> {
    [BindingEvent(x)] + IdentityEvents(x) + FlatMap(COPIED, CopyTable(x)) + LeftBehind(x)
  }

  function CustomerIDs(x: Inputs): set<int> {
    (set r | r in Rows(x.src, Customers) && Selected(x, r) :: Int(Col(r.columns, "id"))) + (set y | y in x.subjects.synthetic :: y.id)
  }

  /** The customer an order will be copied with; 0 when it has none. */
  function OrderCustomer(x: Inputs, row: SourceRow): int {
    var id := Int(Col(row.columns, "id"));
    if Col(row.columns, "customer_id") != Null then Int(Col(row.columns, "customer_id"))
    else if id in x.subjects.byOrder then x.subjects.byOrder[id] else 0
  }

  /** verifyRequiredIdentities */
  predicate RequiredIdentities(x: Inputs, ids: set<int>) {
    && (forall r :: r in Rows(x.src, Entitlements) + Rows(x.src, Members) ==>
          Col(r.columns, "customer_id") != Null && Int(Col(r.columns, "customer_id")) in ids)
    && (forall r :: r in Rows(x.src, Orders) && HasProduct(r) ==> OrderCustomer(x, r) >= 1 && OrderCustomer(x, r) in ids)
  }

  /** Every row the rule keeps finds the customer its copy needs. */
  predicate Transformable(x: Inputs, spec: CopySpec) {
    var rows := Rows(x.src, spec.source);
    forall i :: 0 <= i < |rows| && Keep(x.src, spec.source, rows[i]) ==> Copied(x, spec.source, rows[i]).Some?
  }

  predicate AllTransformable(x: Inputs, specs: seq<CopySpec>) {
    forall i :: 0 <= i < |specs| ==> Transformable(x, specs[i])
  }

  predicate Permitted(x: Inputs) {
    RequiredIdentities(x, CustomerIDs(x)) && AllTransformable(x, COPIED)
  }

  // ----- Carrying events out

  /** The state of a walk: the bytes hashed, the counters, and the target when there is one. */
  datatype Progress = Progress(stream: string, counts: map<CountKey, nat>, target: Option<Database>)

  function Bump(counts: map<CountKey, nat>, key: Option<CountKey>): map<CountKey, nat> {
    if key.None? then counts
    else counts[key.value := (if key.value in counts then counts[key.value] else 0) + 1]
  }

  /** None when the target refuses a write. */
  function Advance(accepts: (Database, Write) -> bool, p: Progress, events: seq<Event>): Option<Progress>
    decreases |events|
  {
    if events == [] then Some(p)
    else
      var e := events[0];
      if p.target.Some? && !Accepted(accepts, p.target.value, e.writes) then None
      else
        var target := if p.target.Some? then Some(ApplyAll(p.target.value, e.writes)) else None;
        Advance(accepts, Progress(p.stream + Frame(e.record), Bump(p.counts, e.count), target), events[1..])
  }

  lemma {:induction false} AdvanceConcat(accepts: (Database, Write) -> bool, p: Progress, a: seq<Event>, b: seq<Event>)
    ensures Advance(accepts, p, a + b) ==
            var q := Advance(accepts, p, a);
            if q.None? then None else Advance(accepts, q.value, b)
    decreases |a|
  {
    hide Frame, Bump, ApplyAll, Accepted;
    if a == [] {
      assert a + b == b;
    } else {
      assert (a + b)[1..] == a[1..] + b;
      var e := a[0];
      if p.target.None? || Accepted(accepts, p.target.value, e.writes) {
        var target := if p.target.Some? then Some(ApplyAll(p.target.value, e.writes)) else None;
        AdvanceConcat(accepts, Progress(p.stream + Frame(e.record), Bump(p.counts, e.count), target), a[1..], b);
      }
    }
  }

  lemma {:induction false} UpToFails<A>(accepts: (Database, Write) -> bool, p: Progress, items: seq<A>, n: nat, m: nat, f: A -> seq<Event>)
    requires n <= m <= |items| && Advance(accepts, p, UpTo(items, n, f)).None?
    ensures Advance(accepts, p, UpTo(items, m, f)).None?
  {
    hide Advance;
    if n < m {
      UpToFails(accepts, p, items, n, m - 1, f);
      AdvanceConcat(accepts, p, UpTo(items, m - 1, f), f(items[m - 1]));
    }
  }
}
