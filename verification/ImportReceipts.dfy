/** Conservation: which receipts a walk writes for each source row, and that the counters it
    returns are the numbers of those receipts. */
module ImportReceipts {
  import opened Wrappers
  import opened Snapshot
  import opened CopyRules
  import opened Target
  import opened ImportPlan
  import opened ImportEffects
  import Decimal
  import Resolution
  import Sets

  function ReceiptsOf(ws: seq<Write>): seq<Receipt> {
    if ws == [] then []
    else (if ws[0].InsertReceipt? then [ws[0].receipt] else []) + ReceiptsOf(ws[1..])
  }

  function CountOf(receipts: seq<Receipt>, s: Entity, k: string, d: Disposition): nat {
    if receipts == [] then 0
    else
      var r := receipts[0];
      (if r.source == s && r.key == k && r.disposition == d then 1 else 0) + CountOf(receipts[1..], s, k, d)
  }

  /** Receipts with this source, key and disposition among the writes of some events. */
  function Tally(events: seq<Event>, s: Entity, k: string, d: Disposition): nat {
    CountOf(ReceiptsOf(Writes(events)), s, k, d)
  }

  lemma {:induction false} ReceiptsConcat(a: seq<Write>, b: seq<Write>)
    ensures ReceiptsOf(a + b) == ReceiptsOf(a) + ReceiptsOf(b)
  {
    if a == [] {
      assert a + b == b;
    } else {
      ReceiptsConcat(a[1..], b);
      assert (a + b)[1..] == a[1..] + b && (a + b)[0] == a[0];
      var first := if a[0].InsertReceipt? then [a[0].receipt] else [];
      Regroup(first, ReceiptsOf(a[1..]), ReceiptsOf(b));
    }
  }

  lemma {:induction false} CountConcat(a: seq<Receipt>, b: seq<Receipt>, s: Entity, k: string, d: Disposition)
    ensures CountOf(a + b, s, k, d) == CountOf(a, s, k, d) + CountOf(b, s, k, d)
  {
    if a == [] {
      assert a + b == b;
    } else {
      CountConcat(a[1..], b, s, k, d);
      assert (a + b)[1..] == a[1..] + b;
    }
  }

  lemma {:induction false} WritesConcat(a: seq<Event>, b: seq<Event>)
    ensures Writes(a + b) == Writes(a) + Writes(b)
  {
    if a == [] {
      assert a + b == b;
    } else {
      WritesConcat(a[1..], b);
      assert (a + b)[1..] == a[1..] + b;
      Regroup(a[0].writes, Writes(a[1..]), Writes(b));
    }
  }

  lemma Regroup<T>(a: seq<T>, b: seq<T>, c: seq<T>)
    ensures a + (b + c) == (a + b) + c
  {
  }

  lemma TallyConcat(a: seq<Event>, b: seq<Event>, s: Entity, k: string, d: Disposition)
    ensures Tally(a + b, s, k, d) == Tally(a, s, k, d) + Tally(b, s, k, d)
  {
    WritesConcat(a, b);
    ReceiptsConcat(Writes(a), Writes(b));
    CountConcat(ReceiptsOf(Writes(a)), ReceiptsOf(Writes(b)), s, k, d);
  }

  lemma {:induction false} ReceiptsAfter(db: Database, ws: seq<Write>)
    ensures ApplyAll(db, ws).receipts == db.receipts + ReceiptsOf(ws)
    decreases |ws|
  {
    if ws != [] {
      ReceiptsAfter(Apply(db, ws[0]), ws[1..]);
    }
  }

  // ----- What is decided about each source row

  function Position(e: Entity): nat {
    match e
    case AdminUsers => 0
    case AdminSessions => 1
    case Settings => 2
    case Channels => 3
    case Products => 4
    case Orders => 5
    case HistoricalRefunds => 6
    case Entitlements => 7
    case Questionnaires => 8
    case Questions => 9
    case Options => 10
    case Submissions => 11
    case Answers => 12
    case MemberViews => 13
    case Members => 14
    case RadarLinks => 15
    case PackageGroups => 16
    case Segments => 17
    case PackageMetadata => 18
    case PackageVersions => 19
    case SegmentMembers => 20
    case AgentConfigurations => 21
    case HxcUsers => 22
    case HxcSyncRuns => 23
    case _ => 24
  }

  /** Administrators and settings are copied without receipts. */
  predicate Receipted(e: Entity) {
    3 <= Position(e) < 24
  }

  /** The disposition the rules give a row, stated per source table. */
  predicate Decided(x: Inputs, s: Entity, d: Disposition, row: SourceRow) {
    match (s, d)
    case (Customers, Migrate) => Selected(x, row)
    case (Orders, Reject) => !HasProduct(row)
    case (HistoricalRefunds, Reject) => RejectedRefund(x.src, row)
    case (HistoricalRefunds, ArchiveNotOnV2) => NotFinal(row)
    case (PackageMetadata, ArchiveNotOnV2) => !Complete(x.src, Col(row.columns, "segment_id"))
    case (V1Packages, ArchiveNotOnV2) => SkippedPackage(x.src, row)
    case (_, Migrate) => Receipted(s) && Keep(x.src, s, row)
    case _ => false
  }

  /** Among the first n rows, those with the key about which the disposition was decided. */
  function DecidedRows(x: Inputs, s: Entity, k: string, d: Disposition, rows: seq<SourceRow>, n: nat): nat
    requires n <= |rows|
  {
    if n == 0 then 0
    else DecidedRows(x, s, k, d, rows, n - 1) + if Key(s, rows[n - 1]) == k && Decided(x, s, d, rows[n - 1]) then 1 else 0
  }

  function TableExpected(x: Inputs, s: Entity, k: string, d: Disposition): nat {
    DecidedRows(x, s, k, d, Rows(x.src, s), |Rows(x.src, s)|)
  }

  function SubjectsWithKey(synthetic: seq<Resolution.Synthetic>, n: nat, k: string): nat
    requires n <= |synthetic|
  {
    if n == 0 then 0 else SubjectsWithKey(synthetic, n - 1, k) + if Decimal.FormatInt(synthetic[n - 1].id) == k then 1 else 0
  }

  /** The receipts a source row, or an invented customer, should have. */
  function Expected(x: Inputs, s: Entity, k: string, d: Disposition): nat {
    TableExpected(x, s, k, d)
    + if s == QuestionnaireSubjects && d == Migrate then SubjectsWithKey(x.subjects.synthetic, |x.subjects.synthetic|, k) else 0
  }

  /** A step that writes the receipt (e, key of the row, d0) exactly for the rows decided so. */
  ghost predicate Emits(x: Inputs, step: SourceRow -> seq<Event>, e: Entity, d0: Disposition, row: SourceRow, s: Entity, k: string, d: Disposition) {
    Tally(step(row), s, k, d) == if s == e && d == d0 && Key(e, row) == k && Decided(x, e, d0, row) then 1 else 0
  }

  lemma {:induction false} TableTally(x: Inputs, step: SourceRow -> seq<Event>, e: Entity, d0: Disposition, rows: seq<SourceRow>, n: nat, s: Entity, k: string, d: Disposition)
    requires n <= |rows| && forall row :: row in rows ==> Emits(x, step, e, d0, row, s, k, d)
    ensures Tally(UpTo(rows, n, step), s, k, d) == if s == e && d == d0 then DecidedRows(x, e, k, d0, rows, n) else 0
  {
    hide Decided, Key, Tally;
    if n > 0 {
      TableTally(x, step, e, d0, rows, n - 1, s, k, d);
      TallyConcat(UpTo(rows, n - 1, step), step(rows[n - 1]), s, k, d);
      assert Emits(x, step, e, d0, rows[n - 1], s, k, d);
    } else {
      assert Tally([], s, k, d) == 0 by { NoTally(s, k, d); }
    }
  }

  lemma NoTally(s: Entity, k: string, d: Disposition)
    ensures Tally([], s, k, d) == 0
  {
  }

  lemma WritesOfOne(e: Event)
    ensures Writes([e]) == e.writes
  {
    assert [e][1..] == [] && e.writes + [] == e.writes;
  }

  lemma ReceiptsOfOne(r: Receipt)
    ensures ReceiptsOf([InsertReceipt(r)]) == [r]
  {
    assert [InsertReceipt(r)][1..] == [] && [r] + [] == [r];
  }

  lemma CountOfOne(r: Receipt, s: Entity, k: string, d: Disposition)
    ensures CountOf([r], s, k, d) == if r.source == s && r.key == k && r.disposition == d then 1 else 0
  {
    assert [r][1..] == [];
  }

  lemma OneEvent(e: Event, others: seq<Write>, r: Receipt, s: Entity, k: string, d: Disposition)
    requires e.writes == others + [InsertReceipt(r)] && forall w :: w in others ==> !w.InsertReceipt?
    ensures Tally([e], s, k, d) == if r.source == s && r.key == k && r.disposition == d then 1 else 0
  {
    hide Writes, ReceiptsOf, CountOf;
    WritesOfOne(e);
    ReceiptsConcat(others, [InsertReceipt(r)]);
    NoReceipts(others);
    ReceiptsOfOne(r);
    assert [] + [r] == [r];
    CountOfOne(r, s, k, d);
  }

  lemma {:induction false} NoReceipts(ws: seq<Write>)
    requires forall w :: w in ws ==> !w.InsertReceipt?
    ensures ReceiptsOf(ws) == []
  {
    if ws != [] { NoReceipts(ws[1..]); }
  }

  // ----- Each part of the plan

  lemma CopyDecided(x: Inputs, s: Entity, row: SourceRow)
    requires s !in {Customers, QuestionnaireSubjects} && Receipted(s)
    ensures Decided(x, s, Migrate, row) <==> Keep(x.src, s, row)
  {
    hide Keep, Receipted;
  }

  lemma CopyEmits(x: Inputs, spec: CopySpec, row: SourceRow, s: Entity, k: string, d: Disposition)
    requires spec.domain != NoDomain && spec.source !in {Customers, QuestionnaireSubjects} && Receipted(spec.source)
    ensures Emits(x, CopyStep(x, spec), spec.source, Migrate, row, s, k, d)
  {
    hide Keep, Key, Copied, Tally, Receipted, Decided;
    CopyDecided(x, spec.source, row);
    var c, e := Copied(x, spec.source, row), CopiedEvent(x, spec, row);
    if Keep(x.src, spec.source, row) {
      var rowWrites := if c.Some? then [InsertRow(spec.target, c.value)] else [];
      var r := Receipt(spec.domain, spec.source, Key(spec.source, row), row.text, spec.target, Some(Key(spec.source, row)), Migrate, "");
      assert e.writes == rowWrites + [InsertReceipt(r)];
      OneEvent(e, rowWrites, r, s, k, d);
    } else {
      NoTally(s, k, d);
    }
  }

  lemma SilentCopy(x: Inputs, spec: CopySpec, row: SourceRow, s: Entity, k: string, d: Disposition)
    requires spec.domain == NoDomain
    ensures Tally(CopyStep(x, spec)(row), s, k, d) == 0
  {
    hide Keep, Key, Copied;
    var events := CopyStep(x, spec)(row);
    if events != [] {
      assert events[1..] == [] && Writes(events) == events[0].writes + [];
      assert events[0].writes + [] == events[0].writes;
      NoReceipts(events[0].writes);
    }
  }

  lemma LeaveEmits(e: Event, suffix: string, domain: Domain, source: Entity, target: Entity, d0: Disposition, reason: string, count: CountKey,
                   row: SourceRow, s: Entity, k: string, d: Disposition)
    requires e == LeaveEvent(suffix, domain, source, target, d0, reason, count, row)
    ensures Tally([e], s, k, d) == if s == source && k == Key(source, row) && d == d0 then 1 else 0
  {
    hide Key;
    var r := Receipt(domain, source, Key(source, row), row.text, target, None, d0, reason);
    assert e.writes == [] + [InsertReceipt(r)];
    OneEvent(e, [], r, s, k, d);
  }

  lemma CustomerEmits(x: Inputs, row: SourceRow, s: Entity, k: string, d: Disposition)
    ensures Emits(x, CustomerStep(x), Customers, Migrate, row, s, k, d)
  {
    hide Selected, Key, Tally, ReferenceDigest;
    if Selected(x, row) {
      var e := MigrateEvent(Identity, Customers, Customers, Key(Customers, row), row.text, CustomerWrites(x, row));
      OneEvent(e, CustomerWrites(x, row), Receipt(Identity, Customers, Key(Customers, row), row.text, Customers, Some(Key(Customers, row)), Migrate, ""), s, k, d);
    } else {
      NoTally(s, k, d);
    }
  }

  /** The receipts of one disposition that one table is decided to get. */
  function Share(x: Inputs, source: Entity, d0: Disposition, s: Entity, k: string, d: Disposition): nat {
    if s == source && d == d0 then TableExpected(x, s, k, d) else 0
  }

  lemma ShareTally(x: Inputs, step: SourceRow -> seq<Event>, source: Entity, d0: Disposition, s: Entity, k: string, d: Disposition)
    requires forall row :: Emits(x, step, source, d0, row, s, k, d)
    ensures Tally(FlatMap(Rows(x.src, source), step), s, k, d) == Share(x, source, d0, s, k, d)
  {
    hide Tally, Emits, DecidedRows, UpTo;
    TableTally(x, step, source, d0, Rows(x.src, source), |Rows(x.src, source)|, s, k, d);
  }

  lemma SkippedRefundsTally(x: Inputs, s: Entity, k: string, d: Disposition)
    ensures Tally(SkippedRefunds(x), s, k, d) == Share(x, HistoricalRefunds, ArchiveNotOnV2, s, k, d)
  {
    hide Tally, Emits, Share, FlatMap, SkippedRefundStep;
    forall row { SkippedRefundEmits(x, row, s, k, d); }
    ShareTally(x, SkippedRefundStep(), HistoricalRefunds, ArchiveNotOnV2, s, k, d);
  }

  lemma RejectedOrdersTally(x: Inputs, s: Entity, k: string, d: Disposition)
    ensures Tally(RejectedOrders(x), s, k, d) == Share(x, Orders, Reject, s, k, d) + Share(x, HistoricalRefunds, Reject, s, k, d)
  {
    hide Tally, Emits, Share, FlatMap, RejectedOrderStep, RejectedRefundStep;
    forall row { RejectedOrderEmits(x, row, s, k, d); }
    forall row { RejectedRefundEmits(x, row, s, k, d); }
    ShareTally(x, RejectedOrderStep(), Orders, Reject, s, k, d);
    ShareTally(x, RejectedRefundStep(x), HistoricalRefunds, Reject, s, k, d);
    TallyConcat(FlatMap(Rows(x.src, Orders), RejectedOrderStep()), FlatMap(Rows(x.src, HistoricalRefunds), RejectedRefundStep(x)), s, k, d);
  }

  lemma SkippedAudiencesTally(x: Inputs, s: Entity, k: string, d: Disposition)
    ensures Tally(SkippedAudiences(x), s, k, d) == Share(x, PackageMetadata, ArchiveNotOnV2, s, k, d) + Share(x, V1Packages, ArchiveNotOnV2, s, k, d)
  {
    hide Tally, Emits, Share, FlatMap, SkippedMetadataStep, SkippedPackageStep;
    forall row { SkippedMetadataEmits(x, row, s, k, d); }
    forall row { SkippedPackageEmits(x, row, s, k, d); }
    ShareTally(x, SkippedMetadataStep(x), PackageMetadata, ArchiveNotOnV2, s, k, d);
    ShareTally(x, SkippedPackageStep(x), V1Packages, ArchiveNotOnV2, s, k, d);
    TallyConcat(FlatMap(Rows(x.src, PackageMetadata), SkippedMetadataStep(x)), FlatMap(Rows(x.src, V1Packages), SkippedPackageStep(x)), s, k, d);
  }

  lemma LeftBehindTally(x: Inputs, s: Entity, k: string, d: Disposition)
    ensures Tally(LeftBehind(x), s, k, d) ==
            Share(x, HistoricalRefunds, ArchiveNotOnV2, s, k, d) + Share(x, Orders, Reject, s, k, d) + Share(x, HistoricalRefunds, Reject, s, k, d)
            + Share(x, PackageMetadata, ArchiveNotOnV2, s, k, d) + Share(x, V1Packages, ArchiveNotOnV2, s, k, d)
  {
    hide Tally, Share, SkippedRefunds, RejectedOrders, SkippedAudiences;
    SkippedRefundsTally(x, s, k, d);
    RejectedOrdersTally(x, s, k, d);
    SkippedAudiencesTally(x, s, k, d);
    TallyConcat(SkippedRefunds(x), RejectedOrders(x), s, k, d);
    TallyConcat(SkippedRefunds(x) + RejectedOrders(x), SkippedAudiences(x), s, k, d);
  }

  lemma LeaveTally(suffix: string, domain: Domain, source: Entity, target: Entity, d0: Disposition, reason: string, count: CountKey,
                   row: SourceRow, s: Entity, k: string, d: Disposition)
    ensures Tally([LeaveEvent(suffix, domain, source, target, d0, reason, count, row)], s, k, d) ==
            if s == source && k == Key(source, row) && d == d0 then 1 else 0
  {
    LeaveEmits(LeaveEvent(suffix, domain, source, target, d0, reason, count, row), suffix, domain, source, target, d0, reason, count, row, s, k, d);
  }

  lemma SkippedRefundEmits(x: Inputs, row: SourceRow, s: Entity, k: string, d: Disposition)
    ensures Emits(x, SkippedRefundStep(), HistoricalRefunds, ArchiveNotOnV2, row, s, k, d)
  {
    hide Tally, Key, LeaveEvent, NotFinal, HasProduct, RejectedRefund, Complete, SkippedPackage;
    NoTally(s, k, d);
    LeaveTally(".skipped", Order, HistoricalRefunds, RefundFacts, ArchiveNotOnV2, "refund is not a final provider fact", OrderSkipped, row, s, k, d);
  }

  lemma RejectedOrderEmits(x: Inputs, row: SourceRow, s: Entity, k: string, d: Disposition)
    ensures Emits(x, RejectedOrderStep(), Orders, Reject, row, s, k, d)
  {
    hide Tally, Key, LeaveEvent, NotFinal, HasProduct, RejectedRefund, Complete, SkippedPackage;
    NoTally(s, k, d);
    LeaveTally(".rejected", Order, Orders, Orders, Reject, "order has no exact product relation", OrderRejected, row, s, k, d);
  }

  lemma RejectedRefundEmits(x: Inputs, row: SourceRow, s: Entity, k: string, d: Disposition)
    ensures Emits(x, RejectedRefundStep(x), HistoricalRefunds, Reject, row, s, k, d)
  {
    hide Tally, Key, LeaveEvent, NotFinal, HasProduct, RejectedRefund, Complete, SkippedPackage;
    NoTally(s, k, d);
    LeaveTally(".rejected", Order, HistoricalRefunds, RefundFacts, Reject, "parent order has no exact product relation", OrderRejected, row, s, k, d);
  }

  lemma SkippedMetadataEmits(x: Inputs, row: SourceRow, s: Entity, k: string, d: Disposition)
    ensures Emits(x, SkippedMetadataStep(x), PackageMetadata, ArchiveNotOnV2, row, s, k, d)
  {
    hide Tally, Key, LeaveEvent, NotFinal, HasProduct, RejectedRefund, Complete, SkippedPackage;
    NoTally(s, k, d);
    LeaveTally(".skipped", Audience, PackageMetadata, Segments, ArchiveNotOnV2,
               "package member mapping is incomplete; recreate with V2 audience logic", AudienceSkipped, row, s, k, d);
  }

  lemma SkippedPackageEmits(x: Inputs, row: SourceRow, s: Entity, k: string, d: Disposition)
    ensures Emits(x, SkippedPackageStep(x), V1Packages, ArchiveNotOnV2, row, s, k, d)
  {
    hide Tally, Key, LeaveEvent, NotFinal, HasProduct, RejectedRefund, Complete, SkippedPackage;
    NoTally(s, k, d);
    LeaveTally(".skipped", Audience, V1Packages, Segments, ArchiveNotOnV2,
               "identity mapping or legacy rule requires redesign", AudienceSkipped, row, s, k, d);
  }

  lemma SubjectEmits(y: Resolution.Synthetic, s: Entity, k: string, d: Disposition)
    ensures Tally(SubjectStep()(y), s, k, d) == if s == QuestionnaireSubjects && d == Migrate && k == Decimal.FormatInt(y.id) then 1 else 0
  {
    hide Tally, SubjectText, Decimal.FormatInt;
    var key, w := Decimal.FormatInt(y.id), InsertCustomer(Customer(y.id, y.createdAt, y.updatedAt));
    var e := MigrateEvent(Identity, QuestionnaireSubjects, Customers, key, SubjectText(y), [w]);
    assert SubjectStep()(y) == [e];
    OneEvent(e, [w], Receipt(Identity, QuestionnaireSubjects, key, SubjectText(y), Customers, Some(key), Migrate, ""), s, k, d);
  }

  lemma {:induction false} SubjectTally(synthetic: seq<Resolution.Synthetic>, n: nat, s: Entity, k: string, d: Disposition)
    requires n <= |synthetic|
    ensures Tally(UpTo(synthetic, n, SubjectStep()), s, k, d) ==
            if s == QuestionnaireSubjects && d == Migrate then SubjectsWithKey(synthetic, n, k) else 0
  {
    hide Tally, SubjectStep, Decimal.FormatInt;
    if n > 0 {
      var y := synthetic[n - 1];
      SubjectTally(synthetic, n - 1, s, k, d);
      TallyConcat(UpTo(synthetic, n - 1, SubjectStep()), SubjectStep()(y), s, k, d);
      SubjectEmits(y, s, k, d);
    } else {
      NoTally(s, k, d);
    }
  }

  lemma {:induction false} SilentTally(events: seq<Event>, s: Entity, k: string, d: Disposition)
    requires forall e, w :: e in events && w in e.writes ==> !w.InsertReceipt?
    ensures Tally(events, s, k, d) == 0
  {
    if events == [] {
      NoTally(s, k, d);
    } else {
      hide Tally;
      assert events == [events[0]] + events[1..];
      SilentTally(events[1..], s, k, d);
      TallyConcat([events[0]], events[1..], s, k, d);
      SilentEvent(events[0], s, k, d);
    }
  }

  lemma SilentEvent(e: Event, s: Entity, k: string, d: Disposition)
    requires forall w :: w in e.writes ==> !w.InsertReceipt?
    ensures Tally([e], s, k, d) == 0
  {
    assert [e][1..] == [] && Writes([e]) == e.writes + [];
    assert e.writes + [] == e.writes;
    NoReceipts(e.writes);
  }

  lemma ReferencesTally(x: Inputs, s: Entity, k: string, d: Disposition)
    ensures Tally(FlatMap(Sets.Ascend(x.subjects.references.Keys), CustomerReferences(x)), s, k, d) == 0
  {
    hide Tally, FlatMap;
    var events := FlatMap(Sets.Ascend(x.subjects.references.Keys), CustomerReferences(x));
    forall e, w | e in events && w in e.writes ensures !w.InsertReceipt? {
      var customer, r := ReferenceEventOf(x, e);
    }
    SilentTally(events, s, k, d);
  }

  lemma PositionOfSpec(i: nat)
    requires i < |COPIED|
    ensures Position(COPIED[i].source) == i && COPIED[i].source !in {Customers, QuestionnaireSubjects}
    ensures COPIED[i].domain != NoDomain <==> Receipted(COPIED[i].source)
  {
  }

  lemma {:induction false} CopiedTally(x: Inputs, n: nat, s: Entity, k: string, d: Disposition)
    requires n <= |COPIED|
    ensures Tally(UpTo(COPIED, n, CopyTable(x)), s, k, d) ==
            if Receipted(s) && Position(s) < n && d == Migrate then TableExpected(x, s, k, d) else 0
  {
    hide Tally, Emits, TableExpected, Position, Receipted, CopyTable, CopyStep, Decided;
    if n == 0 {
      NoTally(s, k, d);
      PositionNotNegative(s);
    } else {
      var spec := COPIED[n - 1];
      CopiedTally(x, n - 1, s, k, d);
      TallyConcat(UpTo(COPIED, n - 1, CopyTable(x)), CopyTable(x)(spec), s, k, d);
      OneTableTally(x, n - 1, s, k, d);
      SamePosition(s, n - 1);
    }
  }

  lemma PositionNotNegative(s: Entity)
    ensures 0 <= Position(s)
  {
  }

  lemma OnlyOneThere(s: Entity, t: Entity)
    requires Receipted(s) && Position(s) == Position(t)
    ensures s == t
  {
  }

  lemma SamePosition(s: Entity, i: nat)
    requires i < |COPIED|
    ensures Receipted(s) && Position(s) == i <==> s == COPIED[i].source && COPIED[i].domain != NoDomain
  {
    hide Position, Receipted;
    PositionOfSpec(i);
    if Receipted(s) && Position(s) == i { OnlyOneThere(s, COPIED[i].source); }
  }

  lemma OneTableTally(x: Inputs, i: nat, s: Entity, k: string, d: Disposition)
    requires i < |COPIED|
    ensures Tally(CopyTable(x)(COPIED[i]), s, k, d) ==
            if COPIED[i].domain != NoDomain && s == COPIED[i].source && d == Migrate then TableExpected(x, s, k, d) else 0
  {
    hide Tally, Emits, Position, CopyStep, CopyTable, Decided;
    var spec := COPIED[i];
    var rows := Rows(x.src, spec.source);
    PositionOfSpec(i);
    CopyTableIs(x, spec);
    if spec.domain == NoDomain {
      SilentTable(x, spec, rows, |rows|, s, k, d);
    } else {
      forall row { CopyEmits(x, spec, row, s, k, d); }
      TableTally(x, CopyStep(x, spec), spec.source, Migrate, rows, |rows|, s, k, d);
    }
  }

  lemma {:induction false} SilentTable(x: Inputs, spec: CopySpec, rows: seq<SourceRow>, n: nat, s: Entity, k: string, d: Disposition)
    requires spec.domain == NoDomain && n <= |rows|
    ensures Tally(UpTo(rows, n, CopyStep(x, spec)), s, k, d) == 0
  {
    hide Tally, CopyStep;
    if n == 0 {
      NoTally(s, k, d);
    } else {
      SilentTable(x, spec, rows, n - 1, s, k, d);
      TallyConcat(UpTo(rows, n - 1, CopyStep(x, spec)), CopyStep(x, spec)(rows[n - 1]), s, k, d);
      SilentCopy(x, spec, rows[n - 1], s, k, d);
    }
  }

  lemma {:induction false} NeverDecided(x: Inputs, s: Entity, k: string, d: Disposition, rows: seq<SourceRow>, n: nat)
    requires n <= |rows| && forall row :: row in rows ==> !Decided(x, s, d, row)
    ensures DecidedRows(x, s, k, d, rows, n) == 0
  {
    hide Decided, Key;
    if n > 0 { NeverDecided(x, s, k, d, rows, n - 1); }
  }

  predicate CanDecide(s: Entity, d: Disposition) {
    match (s, d)
    case (Customers, Migrate) => true
    case (Orders, Reject) => true
    case (HistoricalRefunds, Reject) => true
    case (HistoricalRefunds, ArchiveNotOnV2) => true
    case (PackageMetadata, ArchiveNotOnV2) => true
    case (V1Packages, ArchiveNotOnV2) => true
    case (_, Migrate) => Receipted(s)
    case _ => false
  }

  lemma IdentityTally(x: Inputs, s: Entity, k: string, d: Disposition)
    ensures Tally(IdentityEvents(x), s, k, d) ==
            Share(x, Customers, Migrate, s, k, d)
            + if s == QuestionnaireSubjects && d == Migrate then SubjectsWithKey(x.subjects.synthetic, |x.subjects.synthetic|, k) else 0
  {
    hide Tally, Share, Emits, CustomerStep, SubjectStep, CustomerReferences, SubjectsWithKey;
    var a, b := FlatMap(Rows(x.src, Customers), CustomerStep(x)), FlatMap(x.subjects.synthetic, SubjectStep());
    var c := FlatMap(Sets.Ascend(x.subjects.references.Keys), CustomerReferences(x));
    TallyConcat(a, b, s, k, d);
    TallyConcat(a + b, c, s, k, d);
    forall row { CustomerEmits(x, row, s, k, d); }
    ShareTally(x, CustomerStep(x), Customers, Migrate, s, k, d);
    SubjectTally(x.subjects.synthetic, |x.subjects.synthetic|, s, k, d);
    ReferencesTally(x, s, k, d);
  }

  /** Main result: the walk writes, for every source row and disposition, exactly the receipts the
      rules decide. */
  lemma PlanTally(x: Inputs, s: Entity, k: string, d: Disposition)
    ensures Tally(Plan(x), s, k, d) == Expected(x, s, k, d)
  {
    hide Tally, UpTo, SubjectsWithKey, Position, TableExpected, LeftBehind, IdentityEvents, CopyTable, Receipted;
    var first, e := [BindingEvent(x)], FlatMap(COPIED, CopyTable(x));
    TallyConcat(first, IdentityEvents(x), s, k, d);
    TallyConcat(first + IdentityEvents(x), e, s, k, d);
    TallyConcat(first + IdentityEvents(x) + e, LeftBehind(x), s, k, d);
    SilentEvent(BindingEvent(x), s, k, d);
    IdentityTally(x, s, k, d);
    CopiedTally(x, |COPIED|, s, k, d);
    LeftBehindTally(x, s, k, d);
    OnlyDecidable(x, s, k, d);
    Positions(s);
  }

  lemma OnlyDecidable(x: Inputs, s: Entity, k: string, d: Disposition)
    ensures !CanDecide(s, d) ==> TableExpected(x, s, k, d) == 0
  {
    hide Position, Keep, Selected, RejectedRefund, Complete, SkippedPackage;
    if !CanDecide(s, d) {
      NeverDecided(x, s, k, d, Rows(x.src, s), |Rows(x.src, s)|);
    }
  }

  lemma Positions(s: Entity)
    ensures Receipted(s) ==> Position(s) < |COPIED|
    ensures Receipted(Orders) && Receipted(HistoricalRefunds) && Receipted(PackageMetadata)
    ensures !Receipted(Customers) && !Receipted(V1Packages) && !Receipted(QuestionnaireSubjects)
  {
  }
}
