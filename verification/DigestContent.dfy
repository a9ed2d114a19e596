/** What equal digests say about two snapshots: the records of a walk fall into parts, one for each query,
    and the byte stream determines every part. */
module DigestContent {
  import opened Snapshot
  import opened CopyRules
  import opened Digest
  import opened ImportPlan
  import opened ImportEffects
  import opened ImportDigest
  import ImportReceipts
  import Sets

  /** The parts of a walk: the archive binding, the invented customers, the references, the rows read of a
      table, and the rows that stay behind. */
  datatype Label =
    | Binding | Invented | SubjectReferences | Read(e: Entity)
    | SkippedRefund | RejectedOrder | RejectedRefund | SkippedMetadata | SkippedPackage

  function Table(l: Label): Entity {
    match l
    case Read(e) => e
    case SkippedRefund => HistoricalRefunds
    case RejectedRefund => HistoricalRefunds
    case RejectedOrder => Orders
    case SkippedMetadata => PackageMetadata
    case _ => V1Packages
  }

  /** The first field of the records of a part. */
  function Title(l: Label): string {
    match l
    case Binding => "v1_archive_binding"
    case Invented => Name(QuestionnaireSubjects)
    case SubjectReferences => SUBJECT_REFS
    case Read(e) => Name(e)
    case RejectedOrder => Name(Table(l)) + ".rejected"
    case RejectedRefund => Name(Table(l)) + ".rejected"
    case _ => Name(Table(l)) + ".skipped"
  }

  // ----- The title determines the part

  function ShortLabel(s: string): Label
    requires |s| > 2
  {
    var c := s[2];
    match |s|
    case 8 => Read(if c == 't' then Settings else if c == 'a' then Channels else if c == 'o' then Products else Segments)
    case 9 => Read(Customers)
    case 10 => Read(Identities)
    case 11 => Read(if c == 'm' then AdminUsers else RadarLinks)
    case 14 => Read(if c == 'm' then AdminSessions else Questionnaires)
    case 15 => Read(SegmentMembers)
    case 16 => Read(HxcUsers)
    case 18 => if c == 'd' then Read(RefundFacts) else Binding
    case 19 => SubjectReferences
    case 21 => Read(if c == 'c' then HxcSyncRuns else Options)
    case 22 => if c == 'd' then Read(Orders) else if c == 'r' then Read(Members) else Invented
    case _ => Read(Questions)
  }

  function LabelOf(s: string): Label
    requires |s| > 2
  {
    var c := s[2];
    match |s|
    case 24 => Read(HistoricalRefunds)
    case 25 => Read(Submissions)
    case 26 => Read(if c == 'o' then Entitlements else PackageGroups)
    case 27 => Read(MemberViews)
    case 28 => Read(if c == '_' then PackageMetadata else V1Packages)
    case 31 => if c == 't' then Read(AgentConfigurations) else RejectedOrder
    case 32 => if c == 'e' then Read(Answers) else SkippedRefund
    case 33 => RejectedRefund
    case 36 => if c == '_' then SkippedMetadata else SkippedPackage
    case 42 => Read(PackageVersions)
    case 43 => Read(EditableProjections)
    case _ => ShortLabel(s)
  }

  predicate Tells(s: string, e: Entity) {
    |s| > 2 && (e != QuestionnaireSubjects ==> LabelOf(s) == Read(e))
  }

  lemma CatalogTells(e: Entity)
    requires AreaOf(e) == CatalogArea
    ensures Tells(CatalogTable(e), e)
  {
  }

  lemma AgentTells(e: Entity)
    requires AreaOf(e) == AgentArea
    ensures Tells(AgentTable(e), e)
  {
  }

  lemma OrderTells(e: Entity)
    requires AreaOf(e) == OrderArea
    ensures Tells(OrderTable(e), e)
  {
  }

  lemma MemberTells(e: Entity)
    requires AreaOf(e) == MemberArea
    ensures Tells(MemberTable(e), e)
  {
  }

  lemma QuestionnaireTells(e: Entity)
    requires AreaOf(e) == QuestionnaireArea
    ensures Tells(QuestionnaireTable(e), e)
  {
  }

  lemma SubmissionTells(e: Entity)
    requires AreaOf(e) == SubmissionArea
    ensures Tells(SubmissionTable(e), e)
  {
  }

  lemma PackageTells(e: Entity)
    requires AreaOf(e) == PackageArea
    ensures Tells(PackageTable(e), e)
  {
  }

  lemma SegmentTells(e: Entity)
    requires AreaOf(e) == SegmentArea
    ensures Tells(SegmentTable(e), e)
  {
  }

  lemma VersionTells(e: Entity)
    requires AreaOf(e) == VersionArea
    ensures Tells(VersionTable(e), e)
  {
  }

  lemma ProjectionTells(e: Entity)
    requires AreaOf(e) == ProjectionArea
    ensures Tells(ProjectionTable(e), e)
  {
  }

  lemma NameTells(e: Entity)
    ensures Tells(Name(e), e)
  {
    hide CatalogTable, AgentTable, OrderTable, MemberTable, QuestionnaireTable, SubmissionTable,
      PackageTable, SegmentTable, VersionTable, ProjectionTable, AreaOf, Tells;
    match AreaOf(e) {
      case CatalogArea => CatalogTells(e);
      case AgentArea => AgentTells(e);
      case OrderArea => OrderTells(e);
      case MemberArea => MemberTells(e);
      case QuestionnaireArea => QuestionnaireTells(e);
      case SubmissionArea => SubmissionTells(e);
      case PackageArea => PackageTells(e);
      case SegmentArea => SegmentTells(e);
      case VersionArea => VersionTells(e);
      case ProjectionArea => ProjectionTells(e);
    }
  }

  lemma PlainTitles(l: Label)
    requires l in {Binding, Invented, SubjectReferences}
    ensures |Title(l)| > 2 && LabelOf(Title(l)) == l
  {
  }

  lemma RefundTitles(l: Label)
    requires l in {SkippedRefund, RejectedOrder, RejectedRefund}
    ensures |Title(l)| > 2 && LabelOf(Title(l)) == l
  {
  }

  lemma MetadataTitle()
    ensures |Title(SkippedMetadata)| > 2 && LabelOf(Title(SkippedMetadata)) == SkippedMetadata
  {
  }

  lemma PackageTitle()
    ensures |Title(SkippedPackage)| > 2 && LabelOf(Title(SkippedPackage)) == SkippedPackage
  {
  }

  /** Different parts have different titles. */
  lemma TitleTells(l: Label)
    requires l != Read(QuestionnaireSubjects)
    ensures |Title(l)| > 2 && LabelOf(Title(l)) == l
  {
    hide LabelOf, Name;
    match l
    case Read(e) => NameTells(e);
    case Binding | Invented | SubjectReferences => PlainTitles(l);
    case SkippedRefund | RejectedOrder | RejectedRefund => RefundTitles(l);
    case SkippedMetadata => MetadataTitle();
    case SkippedPackage => PackageTitle();
  }

  // ----- The parts of a walk

  /** Whether the query of a part selects the row. */
  predicate Picked(x: Inputs, l: Label, row: SourceRow) {
    match l
    case Read(e) => if e == Customers then Selected(x, row) else Keep(x.src, e, row)
    case SkippedRefund => NotFinal(row)
    case RejectedOrder => !HasProduct(row)
    case RejectedRefund => CopyRules.RejectedRefund(x.src, row)
    case SkippedMetadata => !Complete(x.src, Col(row.columns, "segment_id"))
    case _ => CopyRules.SkippedPackage(x.src, row)
  }

  function RowRecord(l: Label, row: SourceRow): Record {
    Record(Title(l), Key(Table(l), row), row.text)
  }

  /** Key and text of the selected ones among the first n rows. */
  function RowRecords(x: Inputs, l: Label, n: nat): seq<Record>
    requires n <= |Rows(x.src, Table(l))|
  {
    if n == 0 then []
    else
      var row := Rows(x.src, Table(l))[n - 1];
      RowRecords(x, l, n - 1) + if Picked(x, l, row) then [RowRecord(l, row)] else []
  }

  /** The records of a part: for a query over a table, key and text of the rows it selects, in order. */
  ghost function Content(x: Inputs, l: Label): seq<Record> {
    match l
    case Binding => Records([BindingEvent(x)])
    case Invented => Records(FlatMap(x.subjects.synthetic, SubjectStep()))
    case SubjectReferences => Records(FlatMap(Sets.Ascend(x.subjects.references.Keys), CustomerReferences(x)))
    case _ => RowRecords(x, l, |Rows(x.src, Table(l))|)
  }

  const FIRST := [Binding, Read(Customers), Invented, SubjectReferences]
  const LAST := [SkippedRefund, RejectedOrder, RejectedRefund, SkippedMetadata, SkippedPackage]

  function Sources(specs: seq<CopySpec>): seq<Label> {
    seq(|specs|, i requires 0 <= i < |specs| => Read(specs[i].source))
  }

  /** The parts in the order of the walk. */
  function Parts(): seq<Label> {
    FIRST + Sources(COPIED) + LAST
  }

  ghost function Joined(x: Inputs, parts: seq<Label>): seq<Record> {
    if parts == [] then [] else Joined(x, parts[..|parts| - 1]) + Content(x, parts[|parts| - 1])
  }

  lemma {:induction false} JoinedConcat(x: Inputs, a: seq<Label>, b: seq<Label>)
    ensures Joined(x, a + b) == Joined(x, a) + Joined(x, b)
  {
    hide Content;
    if b == [] {
      assert a + b == a;
    } else {
      var front := b[..|b| - 1];
      assert (a + b)[..|a + b| - 1] == a + front;
      JoinedConcat(x, a, front);
      ImportReceipts.Regroup(Joined(x, a), Joined(x, front), Content(x, b[|b| - 1]));
    }
  }

  lemma {:induction false} RecordsConcat(a: seq<Event>, b: seq<Event>)
    ensures Records(a + b) == Records(a) + Records(b)
  {
    if a == [] {
      assert a + b == b;
    } else {
      RecordsConcat(a[1..], b);
      assert (a + b)[1..] == a[1..] + b;
      ImportReceipts.Regroup([a[0].record], Records(a[1..]), Records(b));
    }
  }

  lemma RecordsOfOne(e: Event)
    ensures Records([e]) == [e.record] && Records([]) == []
  {
    assert [e][1..] == [];
  }

  /** The step emits the record of the part for every row it selects. */
  ghost predicate Emits(x: Inputs, l: Label, f: SourceRow -> seq<Event>) {
    forall row :: Records(f(row)) == if Picked(x, l, row) then [RowRecord(l, row)] else []
  }

  lemma {:induction false} StepRecords(x: Inputs, l: Label, f: SourceRow -> seq<Event>, n: nat)
    requires Emits(x, l, f) && n <= |Rows(x.src, Table(l))|
    ensures Records(UpTo(Rows(x.src, Table(l)), n, f)) == RowRecords(x, l, n)
  {
    hide Picked, RowRecord, Table, Rows, Records, Emits;
    var rows := Rows(x.src, Table(l));
    if n == 0 {
      NothingRecorded();
    } else {
      StepRecords(x, l, f, n - 1);
      RecordsConcat(UpTo(rows, n - 1, f), f(rows[n - 1]));
      EmitsAt(x, l, f, rows[n - 1]);
    }
  }

  lemma NothingRecorded()
    ensures Records([]) == []
  {
  }

  lemma EmitsAt(x: Inputs, l: Label, f: SourceRow -> seq<Event>, row: SourceRow)
    requires Emits(x, l, f)
    ensures Records(f(row)) == if Picked(x, l, row) then [RowRecord(l, row)] else []
  {
  }

  lemma CustomerRecords(x: Inputs)
    ensures Records(FlatMap(Rows(x.src, Customers), CustomerStep(x))) == Content(x, Read(Customers))
  {
    hide Selected, Key, Name, CustomerWrites;
    forall row ensures Records(CustomerStep(x)(row)) == if Picked(x, Read(Customers), row) then [RowRecord(Read(Customers), row)] else [] {
      RecordsOfOne(CustomerEvent(x, row));
    }
    StepRecords(x, Read(Customers), CustomerStep(x), |Rows(x.src, Customers)|);
  }

  lemma TableRecords(x: Inputs, spec: CopySpec)
    requires spec.source != Customers
    ensures Records(CopyTable(x)(spec)) == Content(x, Read(spec.source))
  {
    hide Keep, Key, Name, Copied;
    var l := Read(spec.source);
    forall row ensures Records(CopyStep(x, spec)(row)) == if Picked(x, l, row) then [RowRecord(l, row)] else [] {
      RecordsOfOne(CopiedEvent(x, spec, row));
    }
    CopyTableIs(x, spec);
    StepRecords(x, l, CopyStep(x, spec), |Rows(x.src, spec.source)|);
  }

  lemma {:induction false} TablesRecords(x: Inputs, specs: seq<CopySpec>, n: nat)
    requires n <= |specs| && forall i :: 0 <= i < |specs| ==> specs[i].source != Customers
    ensures Records(UpTo(specs, n, CopyTable(x))) == Joined(x, Sources(specs)[..n])
  {
    hide CopyTable, Content;
    if n > 0 {
      TablesRecords(x, specs, n - 1);
      RecordsConcat(UpTo(specs, n - 1, CopyTable(x)), CopyTable(x)(specs[n - 1]));
      TableRecords(x, specs[n - 1]);
      assert Sources(specs)[..n][..n - 1] == Sources(specs)[..n - 1];
    }
  }

  lemma CopiedRecords(x: Inputs)
    ensures Records(FlatMap(COPIED, CopyTable(x))) == Joined(x, Sources(COPIED))
  {
    hide CopyTable, Content, Joined, ImportReceipts.Position, ImportReceipts.Receipted;
    forall i | 0 <= i < |COPIED| { ImportReceipts.PositionOfSpec(i); }
    TablesRecords(x, COPIED, |COPIED|);
    assert Sources(COPIED)[..|COPIED|] == Sources(COPIED);
  }

  lemma SkippedRefundRecord(x: Inputs, row: SourceRow)
    ensures Records(SkippedRefundStep()(row)) == if Picked(x, SkippedRefund, row) then [RowRecord(SkippedRefund, row)] else []
  {
    hide NotFinal, Key, Name;
    if NotFinal(row) { RecordsOfOne(SkippedRefundStep()(row)[0]); }
  }

  lemma RejectedRefundRecord(x: Inputs, row: SourceRow)
    ensures Records(RejectedRefundStep(x)(row)) == if Picked(x, RejectedRefund, row) then [RowRecord(RejectedRefund, row)] else []
  {
    hide CopyRules.RejectedRefund, Key, Name;
    if CopyRules.RejectedRefund(x.src, row) { RecordsOfOne(RejectedRefundStep(x)(row)[0]); }
  }

  lemma RejectedOrderRecord(x: Inputs, row: SourceRow)
    ensures Records(RejectedOrderStep()(row)) == if Picked(x, RejectedOrder, row) then [RowRecord(RejectedOrder, row)] else []
  {
    hide HasProduct, Key, Name;
    if !HasProduct(row) { RecordsOfOne(RejectedOrderStep()(row)[0]); }
  }

  lemma SkippedMetadataRecord(x: Inputs, row: SourceRow)
    ensures Records(SkippedMetadataStep(x)(row)) == if Picked(x, SkippedMetadata, row) then [RowRecord(SkippedMetadata, row)] else []
  {
    hide Complete, Key, Name, Col;
    if !Complete(x.src, Col(row.columns, "segment_id")) { RecordsOfOne(SkippedMetadataStep(x)(row)[0]); }
  }

  lemma SkippedPackageRecord(x: Inputs, row: SourceRow)
    ensures Records(SkippedPackageStep(x)(row)) == if Picked(x, SkippedPackage, row) then [RowRecord(SkippedPackage, row)] else []
  {
    hide CopyRules.SkippedPackage, Key, Name;
    if CopyRules.SkippedPackage(x.src, row) { RecordsOfOne(SkippedPackageStep(x)(row)[0]); }
  }

  lemma RefundRecords(x: Inputs)
    ensures Records(SkippedRefunds(x)) == Content(x, SkippedRefund)
    ensures Records(FlatMap(Rows(x.src, HistoricalRefunds), RejectedRefundStep(x))) == Content(x, RejectedRefund)
    ensures Records(FlatMap(Rows(x.src, Orders), RejectedOrderStep())) == Content(x, RejectedOrder)
  {
    hide Picked, RowRecord, SkippedRefundStep, RejectedRefundStep, RejectedOrderStep, Records;
    var n := |Rows(x.src, HistoricalRefunds)|;
    forall row { SkippedRefundRecord(x, row); }
    StepRecords(x, SkippedRefund, SkippedRefundStep(), n);
    forall row { RejectedRefundRecord(x, row); }
    StepRecords(x, RejectedRefund, RejectedRefundStep(x), n);
    forall row { RejectedOrderRecord(x, row); }
    StepRecords(x, RejectedOrder, RejectedOrderStep(), |Rows(x.src, Orders)|);
  }

  lemma AudienceRecords(x: Inputs)
    ensures Records(FlatMap(Rows(x.src, PackageMetadata), SkippedMetadataStep(x))) == Content(x, SkippedMetadata)
    ensures Records(FlatMap(Rows(x.src, V1Packages), SkippedPackageStep(x))) == Content(x, SkippedPackage)
  {
    hide Picked, RowRecord, SkippedMetadataStep, SkippedPackageStep, Records;
    forall row { SkippedMetadataRecord(x, row); }
    StepRecords(x, SkippedMetadata, SkippedMetadataStep(x), |Rows(x.src, PackageMetadata)|);
    forall row { SkippedPackageRecord(x, row); }
    StepRecords(x, SkippedPackage, SkippedPackageStep(x), |Rows(x.src, V1Packages)|);
  }

  lemma FirstRecords(x: Inputs)
    ensures Records([BindingEvent(x)] + IdentityEvents(x)) == Joined(x, FIRST)
  {
    hide FlatMap, Content, Joined, Records, CustomerStep, CustomerReferences;
    var a, b, c := FlatMap(Rows(x.src, Customers), CustomerStep(x)), FlatMap(x.subjects.synthetic, SubjectStep()),
      FlatMap(Sets.Ascend(x.subjects.references.Keys), CustomerReferences(x));
    RecordsConcat([BindingEvent(x)], a + b + c);
    RecordsConcat(a + b, c);
    RecordsConcat(a, b);
    CustomerRecords(x);
    PlainContent(x);
    JoinedFour(x);
    assert IdentityEvents(x) == a + b + c;
  }

  lemma PlainContent(x: Inputs)
    ensures Content(x, Binding) == Records([BindingEvent(x)])
    ensures Content(x, Invented) == Records(FlatMap(x.subjects.synthetic, SubjectStep()))
    ensures Content(x, SubjectReferences) == Records(FlatMap(Sets.Ascend(x.subjects.references.Keys), CustomerReferences(x)))
  {
  }

  lemma JoinedOne(x: Inputs, l: Label)
    ensures Joined(x, [l]) == Content(x, l)
  {
    hide Content;
    assert Joined(x, []) == [] && [l][..0] == [];
    assert [] + Content(x, l) == Content(x, l);
  }

  lemma JoinedFour(x: Inputs)
    ensures Joined(x, FIRST) == Content(x, Binding) + ((Content(x, Read(Customers)) + Content(x, Invented)) + Content(x, SubjectReferences))
  {
    hide Content, Joined;
    assert FIRST == [Binding] + (([Read(Customers)] + [Invented]) + [SubjectReferences]);
    JoinedConcat(x, [Binding], ([Read(Customers)] + [Invented]) + [SubjectReferences]);
    JoinedConcat(x, [Read(Customers)] + [Invented], [SubjectReferences]);
    JoinedConcat(x, [Read(Customers)], [Invented]);
    forall l { JoinedOne(x, l); }
  }

  lemma JoinedFive(x: Inputs)
    ensures Joined(x, LAST) ==
            Content(x, SkippedRefund) + (Content(x, RejectedOrder) + Content(x, RejectedRefund)) + (Content(x, SkippedMetadata) + Content(x, SkippedPackage))
  {
    hide Content, Joined;
    var a, b := [RejectedOrder] + [RejectedRefund], [SkippedMetadata] + [SkippedPackage];
    assert LAST == ([SkippedRefund] + a) + b;
    JoinedConcat(x, [SkippedRefund] + a, b);
    JoinedConcat(x, [SkippedRefund], a);
    JoinedConcat(x, [RejectedOrder], [RejectedRefund]);
    JoinedConcat(x, [SkippedMetadata], [SkippedPackage]);
    forall l { JoinedOne(x, l); }
  }

  lemma LastRecords(x: Inputs)
    ensures Records(LeftBehind(x)) == Joined(x, LAST)
  {
    hide FlatMap, Content, Joined, Records, SkippedRefunds;
    var a, b := FlatMap(Rows(x.src, Orders), RejectedOrderStep()), FlatMap(Rows(x.src, HistoricalRefunds), RejectedRefundStep(x));
    var c, d := FlatMap(Rows(x.src, PackageMetadata), SkippedMetadataStep(x)), FlatMap(Rows(x.src, V1Packages), SkippedPackageStep(x));
    RecordsConcat(SkippedRefunds(x) + (a + b), c + d);
    RecordsConcat(SkippedRefunds(x), a + b);
    RecordsConcat(a, b);
    RecordsConcat(c, d);
    RefundRecords(x);
    AudienceRecords(x);
    JoinedFive(x);
  }

  /** The walk reads its parts one after the other. */
  lemma PlanRecords(x: Inputs)
    ensures Records(Plan(x)) == Joined(x, Parts())
  {
    hide Records, Joined, IdentityEvents, LeftBehind, FlatMap;
    var first, copied := [BindingEvent(x)] + IdentityEvents(x), FlatMap(COPIED, CopyTable(x));
    RecordsConcat(first + copied, LeftBehind(x));
    RecordsConcat(first, copied);
    FirstRecords(x);
    CopiedRecords(x);
    LastRecords(x);
    JoinedConcat(x, FIRST + Sources(COPIED), LAST);
    JoinedConcat(x, FIRST, Sources(COPIED));
  }

  // ----- Reading a part back

  function Titled(records: seq<Record>, title: string): seq<Record> {
    if records == [] then []
    else Titled(records[..|records| - 1], title) + if records[|records| - 1].entity == title then [records[|records| - 1]] else []
  }

  lemma {:induction false} TitledConcat(a: seq<Record>, b: seq<Record>, title: string)
    ensures Titled(a + b, title) == Titled(a, title) + Titled(b, title)
  {
    if b == [] {
      assert a + b == a;
    } else {
      var front := b[..|b| - 1];
      assert (a + b)[..|a + b| - 1] == a + front;
      TitledConcat(a, front, title);
      ImportReceipts.Regroup(Titled(a, title), Titled(front, title), if b[|b| - 1].entity == title then [b[|b| - 1]] else []);
    }
  }

  ghost predicate AllTitled(records: seq<Record>, title: string) {
    forall r :: r in records ==> r.entity == title
  }

  lemma {:induction false} TitledAlike(records: seq<Record>, own: string, title: string)
    requires AllTitled(records, own)
    ensures Titled(records, title) == if own == title then records else []
  {
    if records != [] {
      var front, last := records[..|records| - 1], records[|records| - 1];
      assert records == front + [last];
      TitledAlike(front, own, title);
    }
  }

  lemma {:induction false} RowsTitled(x: Inputs, l: Label, n: nat)
    requires n <= |Rows(x.src, Table(l))|
    ensures AllTitled(RowRecords(x, l, n), Title(l))
  {
    hide Picked, Title, Key;
    if n > 0 { RowsTitled(x, l, n - 1); }
  }

  lemma {:induction false} EventsTitled(events: seq<Event>, title: string)
    requires forall e :: e in events ==> e.record.entity == title
    ensures AllTitled(Records(events), title)
  {
    if events != [] { EventsTitled(events[1..], title); }
  }

  lemma InventedTitled(x: Inputs)
    ensures AllTitled(Content(x, Invented), Title(Invented))
  {
    hide AllTitled, Records, FlatMap, Name, SubjectText;
    var events := FlatMap(x.subjects.synthetic, SubjectStep());
    forall e | e in events ensures e.record.entity == Title(Invented) {
      var y := FlatMapMember(x.subjects.synthetic, SubjectStep(), e);
    }
    EventsTitled(events, Title(Invented));
  }

  lemma ReferencesTitled(x: Inputs)
    ensures AllTitled(Content(x, SubjectReferences), Title(SubjectReferences))
  {
    hide AllTitled, Records, FlatMap, CustomerReferences;
    var events := FlatMap(Sets.Ascend(x.subjects.references.Keys), CustomerReferences(x));
    forall e | e in events ensures e.record.entity == Title(SubjectReferences) { var customer, r := ReferenceEventOf(x, e); }
    EventsTitled(events, Title(SubjectReferences));
  }

  lemma BindingTitled(x: Inputs)
    ensures AllTitled(Content(x, Binding), Title(Binding))
  {
    hide AllTitled, Records;
    EventsTitled([BindingEvent(x)], Title(Binding));
  }

  lemma ContentTitled(x: Inputs, l: Label)
    ensures AllTitled(Content(x, l), Title(l))
  {
    hide AllTitled, RowRecords, Title, Records, FlatMap;
    match l
    case Binding => BindingTitled(x);
    case Invented => InventedTitled(x);
    case SubjectReferences => ReferencesTitled(x);
    case _ => RowsTitled(x, l, |Rows(x.src, Table(l))|);
  }

  ghost predicate Different(parts: seq<Label>) {
    && (forall i, j :: 0 <= i < j < |parts| ==> parts[i] != parts[j])
    && (forall i :: 0 <= i < |parts| ==> parts[i] != Read(QuestionnaireSubjects))
  }

  lemma OnePartRead(x: Inputs, part: Label, l: Label)
    requires part != Read(QuestionnaireSubjects) && l != Read(QuestionnaireSubjects)
    ensures Titled(Content(x, part), Title(l)) == if l == part then Content(x, l) else []
  {
    hide Content, Title, AllTitled, LabelOf, Titled;
    ContentTitled(x, part);
    TitledAlike(Content(x, part), Title(part), Title(l));
    TitleTells(l);
    TitleTells(part);
  }

  lemma NothingTitled(title: string)
    ensures Titled([], title) == []
  {
  }

  lemma {:induction false} PartRead(x: Inputs, parts: seq<Label>, l: Label)
    requires Different(parts) && l != Read(QuestionnaireSubjects)
    ensures Titled(Joined(x, parts), Title(l)) == if l in parts then Content(x, l) else []
  {
    hide Content, Title, Titled;
    if parts == [] {
      NothingTitled(Title(l));
    } else {
      var front, last := parts[..|parts| - 1], parts[|parts| - 1];
      assert parts == front + [last];
      assert last !in front;
      PartRead(x, front, l);
      TitledConcat(Joined(x, front), Content(x, last), Title(l));
      OnePartRead(x, last, l);
    }
  }

  function Rank(l: Label): int {
    match l
    case Binding => 0
    case Invented => 2
    case SubjectReferences => 3
    case Read(e) => if e == Customers then 1 else 4 + ImportReceipts.Position(e)
    case SkippedRefund => 28
    case RejectedOrder => 29
    case RejectedRefund => 30
    case SkippedMetadata => 31
    case SkippedPackage => 32
  }

  lemma RankAt(i: nat)
    requires i < |Parts()|
    ensures Rank(Parts()[i]) == i && Parts()[i] != Read(QuestionnaireSubjects)
  {
    hide ImportReceipts.Position, ImportReceipts.Receipted;
    SpecCount();
    if 4 <= i < 28 { ImportReceipts.PositionOfSpec(i - 4); }
  }

  lemma SpecCount()
    ensures |COPIED| == 24
  {
  }

  lemma PartsDifferent()
    ensures Different(Parts())
  {
    hide Parts, Rank;
    forall i | 0 <= i < |Parts()| { RankAt(i); }
  }

  /** Main result: two walks hash the same bytes exactly when they agree on every part: the archive
      binding, keys and texts of the selected customers and of the kept rows of every copied table, in
      order, those of the rows that stay behind, the invented customers and the references. */
  lemma SameDigestSameRows(x: Inputs, y: Inputs)
    requires CleanText(x) && CleanText(y)
    ensures Stream(Records(Plan(x))) == Stream(Records(Plan(y))) <==> forall l :: l in Parts() ==> Content(x, l) == Content(y, l)
  {
    hide Plan, Records, CleanText, Stream, Content, Joined, Parts, Different, Title;
    StreamDeterminesRecords(x, y);
    PlanRecords(x);
    PlanRecords(y);
    PartsDifferent();
    if Records(Plan(x)) == Records(Plan(y)) {
      forall l | l in Parts() ensures Content(x, l) == Content(y, l) {
        var i :| 0 <= i < |Parts()| && Parts()[i] == l;
        RankAt(i);
        PartRead(x, Parts(), l);
        PartRead(y, Parts(), l);
      }
    }
    if forall l :: l in Parts() ==> Content(x, l) == Content(y, l) { SameJoined(x, y, Parts()); }
  }

  lemma {:induction false} SameJoined(x: Inputs, y: Inputs, parts: seq<Label>)
    requires forall l :: l in parts ==> Content(x, l) == Content(y, l)
    ensures Joined(x, parts) == Joined(y, parts)
  {
    hide Content;
    if parts != [] { SameJoined(x, y, parts[..|parts| - 1]); }
  }

  lemma CopiedIsPart(spec: CopySpec)
    requires spec in COPIED
    ensures Read(spec.source) in Parts() && spec.source != Customers
  {
    hide ImportReceipts.Position, ImportReceipts.Receipted;
    var i :| 0 <= i < |COPIED| && COPIED[i] == spec;
    ImportReceipts.PositionOfSpec(i);
    assert Parts()[4 + i] == Read(spec.source);
  }

  /** In particular a row that either walk selects, a customer, a kept row or one that stays behind, is
      selected by the other, by key and text. */
  lemma PickedInBoth(x: Inputs, y: Inputs, l: Label, row: SourceRow) returns (other: SourceRow)
    requires CleanText(x) && CleanText(y) && Stream(Records(Plan(x))) == Stream(Records(Plan(y)))
    requires l in Parts() && l !in {Binding, Invented, SubjectReferences}
    requires row in Rows(x.src, Table(l)) && Picked(x, l, row)
    ensures other in Rows(y.src, Table(l)) && Picked(y, l, other)
    ensures Key(Table(l), other) == Key(Table(l), row) && other.text == row.text
  {
    hide Plan, Records, CleanText, Stream, Key, Picked, Title, RowRecords, Rows, Parts;
    SameDigestSameRows(x, y);
    RowIsRead(x, l, |Rows(x.src, Table(l))|, row);
    other := ReadIsRow(y, l, |Rows(y.src, Table(l))|, RowRecord(l, row));
  }

  /** The kept rows of every copied table. */
  lemma KeptInBoth(x: Inputs, y: Inputs, spec: CopySpec, row: SourceRow) returns (other: SourceRow)
    requires CleanText(x) && CleanText(y) && Stream(Records(Plan(x))) == Stream(Records(Plan(y)))
    requires spec in COPIED && row in Rows(x.src, spec.source) && Keep(x.src, spec.source, row)
    ensures other in Rows(y.src, spec.source) && Keep(y.src, spec.source, other)
    ensures Key(spec.source, other) == Key(spec.source, row) && other.text == row.text
  {
    hide Plan, Records, CleanText, Stream, Key, Keep, Rows, Parts;
    CopiedIsPart(spec);
    other := PickedInBoth(x, y, Read(spec.source), row);
  }

  lemma {:induction false} RowIsRead(x: Inputs, l: Label, n: nat, row: SourceRow)
    requires n <= |Rows(x.src, Table(l))| && row in Rows(x.src, Table(l))[..n] && Picked(x, l, row)
    ensures RowRecord(l, row) in RowRecords(x, l, n)
  {
    hide Picked, RowRecord, Rows;
    if n > 0 && row != Rows(x.src, Table(l))[n - 1] { RowIsRead(x, l, n - 1, row); }
  }

  lemma {:induction false} ReadIsRow(x: Inputs, l: Label, n: nat, r: Record) returns (row: SourceRow)
    requires n <= |Rows(x.src, Table(l))| && r in RowRecords(x, l, n)
    ensures row in Rows(x.src, Table(l)) && Picked(x, l, row) && RowRecord(l, row) == r
  {
    hide Picked, RowRecord, Rows;
    row := Rows(x.src, Table(l))[n - 1];
    if !(Picked(x, l, row) && RowRecord(l, row) == r) { row := ReadIsRow(x, l, n - 1, r); }
  }
}
