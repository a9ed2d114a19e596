/** A source that meets every assumption the import results make, and imports unless the amounts of its
    orders are too large: one customer with two orders of the same amount, one questionnaire submission by
    someone new, one audience package, and two packages of the first version of which one has been
    projected. */
module ImportExample {
  import opened Wrappers
  import opened Snapshot
  import opened CopyRules
  import opened Target
  import opened ImportPlan
  import opened SubjectRows
  import opened ImportGates
  import opened ImportEffects
  import opened ImportReceipts
  import Conservation
  import Decimal
  import Digest
  import ImportRun
  import ImportTables
  import Reconcile
  import Reencoding
  import References
  import Resolution
  import ResolutionPass

  function TheCustomerRow(): SourceRow { SourceRow(map["id" := Num(1), "created_at" := Num(10), "updated_at" := Num(10)], "{1}") }
  function TheOrderRow(a: int): SourceRow {
    SourceRow(map["id" := Num(3), "product_id" := Num(5), "customer_id" := Num(1), "amount_minor" := Num(a)], "{3}")
  }
  function TheOtherOrderRow(a: int): SourceRow {
    SourceRow(map["id" := Num(4), "product_id" := Num(5), "customer_id" := Num(1), "amount_minor" := Num(a)], "{4}")
  }
  function TheSubmissionRow(): SourceRow { SourceRow(map["id" := Num(7), "mobile" := Text("p"), "created_at" := Num(20)], "{7}") }

  function TheSegmentRow(): SourceRow { SourceRow(map["id" := Num(9)], "{9}") }
  function TheMetadataRow(): SourceRow { SourceRow(map["segment_id" := Num(9), "lifecycle" := Text("active")], "{9}") }
  function TheProjectedRow(): SourceRow { SourceRow(map["id" := Num(11), "original_status" := Text("active")], "{11}") }
  function TheUnprojectedRow(): SourceRow { SourceRow(map["id" := Num(12), "original_status" := Text("active")], "{12}") }
  function TheProjectionRow(): SourceRow { SourceRow(map["package_history_id" := Num(11), "segment_id" := Num(9)], "{11}") }

  function Source(a: int): Snapshot {
    Snapshot(map[
      Customers := [TheCustomerRow()], Orders := [TheOrderRow(a), TheOtherOrderRow(a)], Submissions := [TheSubmissionRow()],
      Segments := [TheSegmentRow()], PackageMetadata := [TheMetadataRow()],
      V1Packages := [TheProjectedRow(), TheUnprojectedRow()], EditableProjections := [TheProjectionRow()]])
  }

  const SUBJECT := References.Row("questionnaire", 7, 0, 0, "", "", "", "p", 20)

  lemma RowsAre(a: int, e: Entity)
    ensures Rows(Source(a), e) ==
            match e
            case Customers => [TheCustomerRow()]
            case Orders => [TheOrderRow(a), TheOtherOrderRow(a)]
            case Submissions => [TheSubmissionRow()]
            case Segments => [TheSegmentRow()]
            case PackageMetadata => [TheMetadataRow()]
            case V1Packages => [TheProjectedRow(), TheUnprojectedRow()]
            case EditableProjections => [TheProjectionRow()]
            case _ => []
  {
  }

  lemma KeyValues(a: int)
    ensures Col(TheCustomerRow().columns, "id") == Num(1) && Col(TheSubmissionRow().columns, "id") == Num(7)
    ensures Col(TheOrderRow(a).columns, "id") == Num(3) && Col(TheOrderRow(a).columns, "customer_id") == Num(1)
    ensures Col(TheOtherOrderRow(a).columns, "id") == Num(4) && Col(TheOtherOrderRow(a).columns, "customer_id") == Num(1)
  {
  }

  lemma SourceTyped(a: int)
    ensures Typed(Source(a))
  {
    hide Rows, Source, Col, TheCustomerRow, TheOrderRow, TheOtherOrderRow, TheSubmissionRow;
    KeyValues(a);
    forall e, r | e in {Orders, Entitlements, Members, SegmentMembers, HxcUsers, Identities} && r in Rows(Source(a), e)
      ensures Col(r.columns, "customer_id").Num? || Col(r.columns, "customer_id").Null?
    {
      RowsAre(a, e);
    }
    IdsPositive(a);
  }

  lemma IdsPositive(a: int)
    ensures PositiveIDs(Rows(Source(a), Orders)) && PositiveIDs(Rows(Source(a), Submissions)) && PositiveIDs(Rows(Source(a), Customers))
    ensures PositiveIDs(Rows(Source(a), Identities))
  {
    hide Rows, Source, Col, TheCustomerRow, TheOrderRow, TheOtherOrderRow, TheSubmissionRow;
    KeyValues(a);
    RowsAre(a, Orders);
    RowsAre(a, Submissions);
    RowsAre(a, Customers);
    RowsAre(a, Identities);
  }

  lemma NoIdentities(a: int)
    ensures IdentitiesReal(Source(a))
  {
    hide Source;
    RowsAre(a, Identities);
  }

  lemma SubjectKeys(a: int)
    ensures PrimaryKey(Customers, TheCustomerRow()) == [Num(1)] && PrimaryKey(Orders, TheOrderRow(a)) == [Num(3)]
    ensures PrimaryKey(Orders, TheOtherOrderRow(a)) == [Num(4)]
    ensures PrimaryKey(Submissions, TheSubmissionRow()) == [Num(7)]
  {
  }

  lemma AudienceKeys()
    ensures PrimaryKey(Segments, TheSegmentRow()) == [Num(9)] && PrimaryKey(PackageMetadata, TheMetadataRow()) == [Num(9)]
  {
  }

  lemma PackageKeys()
    ensures PrimaryKey(V1Packages, TheProjectedRow()) == [Num(11)] && PrimaryKey(V1Packages, TheUnprojectedRow()) == [Num(12)]
  {
  }

  lemma ProjectionsGetNoReceipt()
    ensures !Conservation.Accounted(EditableProjections)
  {
  }

  lemma SourceKeyColumns(a: int, e: Entity, r: SourceRow)
    requires Conservation.Accounted(e) && r in Rows(Source(a), e)
    ensures Conservation.KeyColumns(PrimaryKey(e, r))
  {
    hide Rows, Source, Conservation.Accounted, PrimaryKey, TheCustomerRow, TheOrderRow, TheOtherOrderRow, TheSubmissionRow, TheSegmentRow, TheMetadataRow,
      TheProjectedRow, TheUnprojectedRow, TheProjectionRow;
    SubjectKeys(a);
    AudienceKeys();
    PackageKeys();
    ProjectionsGetNoReceipt();
    RowsAre(a, e);
  }

  lemma SourceKeyed(a: int)
    ensures Conservation.KeysDistinct(Source(a))
  {
    hide Rows, Source, Conservation.Accounted, Conservation.KeyColumns, PrimaryKey, TheCustomerRow, TheOrderRow, TheOtherOrderRow, TheSubmissionRow, TheSegmentRow,
      TheMetadataRow, TheProjectedRow, TheUnprojectedRow, TheProjectionRow;
    forall e, r | Conservation.Accounted(e) && r in Rows(Source(a), e) { SourceKeyColumns(a, e, r); }
    forall e ensures e != V1Packages && e != Orders ==> |Rows(Source(a), e)| <= 1 { RowsAre(a, e); }
    RowsAre(a, V1Packages);
    PackageKeys();
    RowsAre(a, Orders);
    SubjectKeys(a);
  }

  lemma SubmissionRowIs(a: int)
    ensures SubmissionRow(Source(a), TheSubmissionRow().columns) == SUBJECT
  {
    hide Rows, Source;
    RowsAre(a, Identities);
    assert SubmissionCustomers(Source(a), TheSubmissionRow().columns) == {};
  }

  lemma OrderAssigned(a: int)
    ensures !Unassigned(TheOrderRow(a)) && !Unassigned(TheOtherOrderRow(a))
  {
  }

  lemma SubjectRowsAre(a: int)
    ensures SubjectRowsOf(Source(a)) == [SUBJECT] && MaxCustomerID(Rows(Source(a), Customers)) == 1
  {
    hide Rows, Source, SubmissionRow, Unassigned, Col, TheCustomerRow, TheOrderRow, TheOtherOrderRow, TheSubmissionRow;
    RowsAre(a, Submissions);
    RowsAre(a, Orders);
    RowsAre(a, Customers);
    KeyValues(a);
    SubmissionRowIs(a);
    OrderAssigned(a);
    var submissions, orders := [TheSubmissionRow()], [TheOrderRow(a), TheOtherOrderRow(a)];
    assert submissions[..0] == [] && orders[..1] == [TheOrderRow(a)] && orders[..1][..0] == [];
    assert SubmissionRows(Source(a), submissions) == [SUBJECT];
    assert OrderRows(Source(a), orders[..1]) == [];
    assert OrderRows(Source(a), orders) == [];
  }

  lemma SubjectResolves()
    ensures Resolution.Resolves([SUBJECT], 1) && Resolution.Outcome([SUBJECT], 1).chosen == [2]
    ensures Resolution.Outcome([SUBJECT], 1).synthetic == [Resolution.Synthetic(2, 20, 20)]
  {
    hide References.Of;
    assert Resolution.Resolve([SUBJECT], 0, 1) == Some(Resolution.EMPTY);
    assert Resolution.CandidateCustomers(map[], SUBJECT) == {};
    assert Resolution.Step(Resolution.EMPTY, SUBJECT, 1).Some?;
  }

  /** The inputs of the walk over this source. */
  ghost function Walked(a: int): Inputs {
    SubjectResolves();
    Inputs(Source(a), ResolutionPass.SubjectsOf([SUBJECT], 1), "archive", (s: string) => s, (v: int) => v)
  }

  lemma WalkedSource(a: int)
    ensures Walked(a).src == Source(a)
  {
  }

  lemma SubmissionPlaced(a: int)
    ensures Walked(a).subjects.bySubmission == map[7 := 2] && Walked(a).subjects.byOrder == map[]
    ensures Walked(a).subjects.synthetic == [Resolution.Synthetic(2, 20, 20)]
  {
    hide Resolution.Resolve, References.Of;
    SubjectResolves();
    assert "questionnaire" != "order" by { assert |"questionnaire"| != |"order"|; }
    assert ResolutionPass.Keyed([SUBJECT], [2], 0, false) == map[] && ResolutionPass.Keyed([SUBJECT], [2], 0, true) == map[];
    assert ResolutionPass.Keyed([SUBJECT], [2], 1, false) == map[7 := 2];
    assert ResolutionPass.Keyed([SUBJECT], [2], 1, true) == map[];
  }

  lemma CustomersBrought(a: int)
    ensures 1 in CustomerIDs(Walked(a)) && 2 in CustomerIDs(Walked(a))
  {
    hide Resolution.Resolve, References.Of, SubjectIDs, Rows, Source;
    SubmissionPlaced(a);
    RowsAre(a, Orders);
    RowsAre(a, Customers);
    var x := Walked(a);
    assert TheOrderRow(a) in Rows(x.src, Orders) && 1 in IdsIn(Rows(x.src, Orders), "customer_id");
    assert Selected(x, TheCustomerRow()) && TheCustomerRow() in Rows(x.src, Customers);
    assert x.subjects.synthetic[0] in x.subjects.synthetic;
  }

  lemma IdentitiesPresent(a: int)
    ensures RequiredIdentities(Walked(a), CustomerIDs(Walked(a)))
  {
    hide Resolution.Resolve, References.Of, CustomerIDs, Rows, Source;
    RowsAre(a, Orders);
    RowsAre(a, Entitlements);
    RowsAre(a, Members);
    CustomersBrought(a);
  }

  /** Amounts are bigint. */
  predicate Amount(a: int) {
    0 <= a <= Decimal.MAX_INT64
  }

  lemma OrderColumns(a: int, src: Snapshot, row: SourceRow)
    requires Amount(a) && row in {TheOrderRow(a), TheOtherOrderRow(a)}
    ensures Col(Project(src, Orders, row), "customer_id") == Num(1) && Reencoding.ReadableRow(Project(src, Orders, row))
  {
    hide Reencoding.ReadableRow;
    Reencoding.WordsReadable(Project(src, Orders, row));
  }

  lemma SubmissionColumns(a: int)
    ensures Reencoding.ReadableRow(Project(Source(a), Submissions, TheSubmissionRow()))
  {
    hide Source, Reencoding.ReadableRow;
    Reencoding.WordsReadable(Project(Source(a), Submissions, TheSubmissionRow()));
  }

  lemma OrdersCopied(a: int)
    requires Amount(a)
    ensures Copied(Walked(a), Orders, TheOrderRow(a)) == Some(Project(Source(a), Orders, TheOrderRow(a)))
    ensures Copied(Walked(a), Orders, TheOtherOrderRow(a)) == Some(Project(Source(a), Orders, TheOtherOrderRow(a)))
  {
    hide Resolution.Resolve, References.Of, Decimal.FormatInt, Decimal.ParseInt, Project, Source, Reencoding.ReadableRow, PrimaryKey, TheOrderRow, TheOtherOrderRow;
    SubjectKeys(a);
    WalkedSource(a);
    OrderColumns(a, Source(a), TheOrderRow(a));
    OrderColumns(a, Source(a), TheOtherOrderRow(a));
    Decimal.ParseOfFormat(3);
    Decimal.ParseOfFormat(4);
  }

  lemma SubmissionCopied(a: int)
    ensures Copied(Walked(a), Submissions, TheSubmissionRow()).Some?
  {
    hide Resolution.Resolve, References.Of, Decimal.FormatInt, Decimal.ParseInt, Project, Source, Reencoding.ReadableRow, PrimaryKey, TheSubmissionRow, Rewritten;
    SubjectKeys(a);
    WalkedSource(a);
    SubmissionPlaced(a);
    SubmissionColumns(a);
    Decimal.ParseOfFormat(7);
  }

  lemma OthersCopied(x: Inputs, e: Entity, row: SourceRow)
    requires e != Orders && e != Submissions
    ensures Copied(x, e, row).Some?
  {
    hide Project, Key;
  }

  lemma RowsCopied(a: int, i: nat)
    requires Amount(a) && i < |COPIED|
    ensures Transformable(Walked(a), COPIED[i])
  {
    hide Copied, Keep, Rows, Source, Walked, TheOrderRow, TheOtherOrderRow, TheSubmissionRow;
    WalkedSource(a);
    OrdersCopied(a);
    SubmissionCopied(a);
    var x, spec := Walked(a), COPIED[i];
    RowsAre(a, Orders);
    RowsAre(a, Submissions);
    if spec.source != Orders && spec.source != Submissions {
      forall j | 0 <= j < |Rows(x.src, spec.source)| { OthersCopied(x, spec.source, Rows(x.src, spec.source)[j]); }
    }
  }

  /** The assumptions of the import results hold together. */
  lemma AssumptionsHold(a: int)
    requires Amount(a)
    ensures Typed(Walked(a).src) && IdentitiesReal(Walked(a).src) && Conservation.KeysDistinct(Walked(a).src)
    ensures ResolvedFrom(Walked(a)) && CollisionFree(Walked(a)) && Permitted(Walked(a))
  {
    hide Source, Rows, Typed, IdentitiesReal, Conservation.KeysDistinct, Resolution.Resolve, RequiredIdentities, Transformable, CustomerIDs, Preimage,
      SubjectRowsOf, MaxCustomerID, ResolutionPass.SubjectsOf, Resolution.Outcome;
    SourceTyped(a);
    NoIdentities(a);
    SourceKeyed(a);
    SubjectRowsAre(a);
    SubjectResolves();
    IdentitiesPresent(a);
    forall i | 0 <= i < |COPIED| { RowsCopied(a, i); }
  }

  lemma PackageDecisions(a: int)
    ensures SkippedPackage(Source(a), TheUnprojectedRow()) && !SkippedPackage(Source(a), TheProjectedRow())
  {
    hide Rows, Source;
    RowsAre(a, EditableProjections);
    assert Equal(Col(TheProjectionRow().columns, "package_history_id"), Col(TheProjectedRow().columns, "id"));
  }

  /** And the results say something about it: of the two active packages exactly the one without a
      projection is archived. */
  lemma OnlyUnprojectedArchived(a: int)
    requires Amount(a)
    ensures Tally(Plan(Walked(a)), V1Packages, Key(V1Packages, TheUnprojectedRow()), ArchiveNotOnV2) == 1
    ensures Tally(Plan(Walked(a)), V1Packages, Key(V1Packages, TheProjectedRow()), ArchiveNotOnV2) == 0
  {
    hide Plan, Tally, Key, Conservation.KeysDistinct, Rows, Source, Typed, IdentitiesReal, ResolvedFrom, CollisionFree, Permitted, Walked,
      SkippedPackage, TheProjectedRow, TheUnprojectedRow;
    AssumptionsHold(a);
    WalkedSource(a);
    RowsAre(a, V1Packages);
    PackageDecisions(a);
    Conservation.RowReceipts(Walked(a), V1Packages, TheUnprojectedRow(), ArchiveNotOnV2);
    Conservation.RowReceipts(Walked(a), V1Packages, TheProjectedRow(), ArchiveNotOnV2);
  }

  // ----- An order total beyond bigint

  lemma OrderHasProduct(a: int)
    ensures HasProduct(TheOrderRow(a)) && HasProduct(TheOtherOrderRow(a))
    ensures ImportTables.OrderAmount(Walked(a), TheOrderRow(a)) == a == ImportTables.OrderAmount(Walked(a), TheOtherOrderRow(a))
  {
    hide Resolution.Resolve, References.Of, Source, Reencoding.Recoded;
  }

  lemma SourceTotalIs(a: int)
    ensures ImportTables.SourceTotal(Walked(a)) == 2 * a
  {
    hide HasProduct, ImportTables.OrderAmount, TheOrderRow, TheOtherOrderRow, Walked, Source, Rows;
    WalkedSource(a);
    RowsAre(a, Orders);
    OrderHasProduct(a);
    var x := Walked(a);
    assert ImportTables.AmountsUpTo(x, 0) == 0;
    assert ImportTables.AmountsUpTo(x, 1) == a;
  }

  /** Two orders of the same amount, every write accepted and the digest of the dry run: the import commits
      exactly while the two amounts add up to a bigint. */
  lemma TotalDecides(a: int, anything: (Database, Write) -> bool)
    requires Amount(a)
    ensures var dry := Advance(anything, Progress([], map[], None), Plan(Walked(a)));
            dry.Some? && (ImportRun.Commits(Walked(a), (db, w) => true, EMPTY_TARGET, Walked(a).sha(dry.value.stream)) <==> 2 * a <= Decimal.MAX_INT64)
  {
    hide Plan, Advance, Walked, Permitted, Typed, IdentitiesReal, ResolvedFrom, CollisionFree, Conservation.KeysDistinct, ImportRun.Commits, ImportTables.SourceTotal;
    var x := Walked(a);
    AssumptionsHold(a);
    DryRunAdvances(anything, Progress([], map[], None), Plan(x));
    EverythingAccepted((db, w) => true, Progress([], map[], Some(EMPTY_TARGET)), Plan(x));
    ImportRun.CommitsIff(x, (db, w) => true, anything, x.sha(Advance(anything, Progress([], map[], None), Plan(x)).value.stream));
    SourceTotalIs(a);
  }

  lemma {:induction false} EverythingAccepted(accepts: (Database, Write) -> bool, p: Progress, events: seq<Event>)
    requires p.target.Some? && forall db, w :: accepts(db, w)
    ensures Advance(accepts, p, events).Some?
    decreases |events|
  {
    hide Digest.Frame, Bump, ApplyAll;
    if events != [] {
      var e := events[0];
      AllAccepted(accepts, p.target.value, e.writes);
      EverythingAccepted(accepts, Progress(p.stream + Digest.Frame(e.record), Bump(p.counts, e.count), Some(ApplyAll(p.target.value, e.writes))), events[1..]);
    }
  }

  lemma {:induction false} AllAccepted(accepts: (Database, Write) -> bool, db: Database, ws: seq<Write>)
    requires forall d, w :: accepts(d, w)
    ensures Accepted(accepts, db, ws)
    decreases |ws|
  {
    if ws != [] { AllAccepted(accepts, Apply(db, ws[0]), ws[1..]); }
  }

  /** The input that is refused although everything else is in order: two orders of 2^62. */
  lemma OverflowStopsImport(anything: (Database, Write) -> bool)
    ensures var x := Walked(0x4000_0000_0000_0000);
            var dry := Advance(anything, Progress([], map[], None), Plan(x));
            && Permitted(x) && Advance((db, w) => true, Progress([], map[], Some(EMPTY_TARGET)), Plan(x)).Some? && Reconcile.GatesClosed(After(x))
            && dry.Some? && !ImportRun.Commits(x, (db, w) => true, EMPTY_TARGET, x.sha(dry.value.stream))
  {
    hide Plan, Advance, Walked, Permitted, Typed, IdentitiesReal, ResolvedFrom, CollisionFree, Conservation.KeysDistinct, ImportRun.Commits, Reconcile.GatesClosed, After;
    var a := 0x4000_0000_0000_0000;
    AssumptionsHold(a);
    TotalDecides(a, anything);
    EverythingAccepted((db, w) => true, Progress([], map[], Some(EMPTY_TARGET)), Plan(Walked(a)));
    SuccessfulWalkClosesGates(Walked(a), (db, w) => true);
  }
}
