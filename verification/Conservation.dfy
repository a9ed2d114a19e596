/** Conservation over a whole run: each source row gets at most one receipt, the rows that must be
    accounted for get exactly one, and every counter is a number of receipts. */
module Conservation {
  import opened Wrappers
  import opened Snapshot
  import opened CopyRules
  import opened Target
  import opened ImportPlan
  import opened ImportEffects
  import opened ImportReceipts
  import opened SubjectRows
  import opened ImportGates
  import Decimal
  import Resolution
  import Sets
  import SubjectFacts
  import Text

  // ----- Primary keys and their text

  /** A key column is numeric, or the single text column of its table. */
  predicate KeyColumns(pk: seq<Json>) {
    forall j :: j in pk ==> j.Num? || (|pk| == 1 && j.Text?)
  }

  /** The tables whose rows can get a receipt. */
  predicate Accounted(e: Entity) {
    e == Customers || e == V1Packages || Receipted(e)
  }

  /** Primary keys of those tables: typed alike in a table, never NULL, never repeated. */
  predicate KeysDistinct(src: Snapshot) {
    && (forall e, r :: Accounted(e) && r in Rows(src, e) ==> KeyColumns(PrimaryKey(e, r)))
    && (forall e, i, j :: Accounted(e) && 0 <= i < j < |Rows(src, e)| ==>
          var a, b := PrimaryKey(e, Rows(src, e)[i]), PrimaryKey(e, Rows(src, e)[j]);
          a != b && (a[0].Num? <==> b[0].Num?))
  }

  lemma NoColon(i: int)
    ensures ':' !in Decimal.FormatInt(i)
  {
    var digits := Decimal.FormatNat(if i < 0 then -i else i);
    assert !Decimal.IsDigit(':');
    assert forall j :: 0 <= j < |digits| ==> digits[j] != ':';
  }

  lemma CastInjective(a: Json, b: Json)
    requires (a.Num? && b.Num?) || (a.Text? && b.Text?)
    requires Cast(a) == Cast(b)
    ensures a == b
  {
    hide Decimal.FormatInt;
    if a.Num? { Decimal.FormatIntInjective(a.n, b.n); }
  }

  /** Within a table the key text determines the primary key. */
  lemma KeyTextInjective(e: Entity, a: SourceRow, b: SourceRow)
    requires KeyColumns(PrimaryKey(e, a)) && KeyColumns(PrimaryKey(e, b))
    requires PrimaryKey(e, a)[0].Num? <==> PrimaryKey(e, b)[0].Num?
    requires Key(e, a) == Key(e, b)
    ensures PrimaryKey(e, a) == PrimaryKey(e, b)
  {
    hide Decimal.FormatInt;
    var p, q := PrimaryKey(e, a), PrimaryKey(e, b);
    assert |p| == |q| && (|p| == 1 || |p| == 2);
    assert p[0] in p && q[0] in q;
    if |p| == 2 {
      assert p[1] in p && q[1] in q;
      NoColon(p[0].n);
      NoColon(q[0].n);
      Text.SplitAt(Cast(p[0]), Cast(p[1]), Cast(q[0]), Cast(q[1]), ':');
      CastInjective(p[1], q[1]);
    }
    CastInjective(p[0], q[0]);
    assert p == q;
  }

  lemma KeysDiffer(src: Snapshot, e: Entity, i: nat, j: nat)
    requires KeysDistinct(src) && Accounted(e) && i < |Rows(src, e)| && j < |Rows(src, e)|
    requires Key(e, Rows(src, e)[i]) == Key(e, Rows(src, e)[j])
    ensures i == j
  {
    hide Key;
    var rows := Rows(src, e);
    assert rows[i] in rows && rows[j] in rows;
    if i < j {
      KeyTextInjective(e, rows[i], rows[j]);
    } else if j < i {
      KeyTextInjective(e, rows[j], rows[i]);
    }
  }

  // ----- One receipt per row

  lemma {:induction false} DecidedOnce(x: Inputs, s: Entity, d: Disposition, i: nat, n: nat)
    requires KeysDistinct(x.src) && i < |Rows(x.src, s)| && n <= |Rows(x.src, s)|
    ensures DecidedRows(x, s, Key(s, Rows(x.src, s)[i]), d, Rows(x.src, s), n) ==
            if i < n && Decided(x, s, d, Rows(x.src, s)[i]) then 1 else 0
  {
    hide Decided, Key, KeysDistinct, Accounted;
    if n > 0 {
      DecidedOnce(x, s, d, i, n - 1);
      OnlyAccountedDecided(x, s, d, Rows(x.src, s)[n - 1]);
      OnlyAccountedDecided(x, s, d, Rows(x.src, s)[i]);
      if Accounted(s) && Key(s, Rows(x.src, s)[n - 1]) == Key(s, Rows(x.src, s)[i]) { KeysDiffer(x.src, s, n - 1, i); }
    }
  }

  lemma OnlyAccountedDecided(x: Inputs, s: Entity, d: Disposition, row: SourceRow)
    ensures Decided(x, s, d, row) ==> Accounted(s)
  {
    hide Selected, RejectedRefund, Complete, SkippedPackage, Keep, Position;
    Positions(s);
  }

  lemma {:induction false} KeyAbsent(x: Inputs, s: Entity, k: string, d: Disposition, n: nat)
    requires n <= |Rows(x.src, s)| && forall row :: row in Rows(x.src, s) ==> Key(s, row) != k
    ensures DecidedRows(x, s, k, d, Rows(x.src, s), n) == 0
  {
    hide Decided, Key;
    if n > 0 { KeyAbsent(x, s, k, d, n - 1); }
  }

  /** The receipts of one source row are those its rule decides, and no others. */
  lemma RowReceipts(x: Inputs, s: Entity, row: SourceRow, d: Disposition)
    requires KeysDistinct(x.src) && row in Rows(x.src, s) && s != QuestionnaireSubjects
    ensures Tally(Plan(x), s, Key(s, row), d) == if Decided(x, s, d, row) then 1 else 0
  {
    hide Plan, Tally, Decided, Key, KeysDistinct, DecidedRows;
    PlanTally(x, s, Key(s, row), d);
    var i :| 0 <= i < |Rows(x.src, s)| && Rows(x.src, s)[i] == row;
    DecidedOnce(x, s, d, i, |Rows(x.src, s)|);
  }

  lemma OneDecision(x: Inputs, s: Entity, row: SourceRow, d: Disposition, e: Disposition)
    requires Decided(x, s, d, row) && Decided(x, s, e, row)
    ensures d == e
  {
    hide Complete, HasPackage, Selected, Lower, Parent;
  }

  lemma {:induction false} SubjectOnce(synthetic: seq<Resolution.Synthetic>, n: nat, k: string)
    requires n <= |synthetic| && forall i, j :: 0 <= i < j < |synthetic| ==> synthetic[i].id != synthetic[j].id
    ensures SubjectsWithKey(synthetic, n, k) <= 1
    ensures SubjectsWithKey(synthetic, n, k) == 1 ==> exists i :: 0 <= i < n && Decimal.FormatInt(synthetic[i].id) == k
  {
    hide Decimal.FormatInt;
    if n > 0 {
      SubjectOnce(synthetic, n - 1, k);
      if i :| 0 <= i < n - 1 && Decimal.FormatInt(synthetic[i].id) == k {
        if Decimal.FormatInt(synthetic[n - 1].id) == k { Decimal.FormatIntInjective(synthetic[i].id, synthetic[n - 1].id); }
      }
    }
  }

  /** The receipts of one key, whatever their disposition. */
  ghost function ReceiptTotal(x: Inputs, s: Entity, k: string): nat {
    Tally(Plan(x), s, k, Migrate) + Tally(Plan(x), s, k, Reject) + Tally(Plan(x), s, k, ArchiveNotOnV2)
  }

  lemma SubjectReceiptOnce(x: Inputs, k: string)
    requires Typed(x.src) && IdentitiesReal(x.src) && ResolvedFrom(x)
    ensures ReceiptTotal(x, QuestionnaireSubjects, k) <= 1
  {
    hide Plan, Tally, Decided, Key, Typed, IdentitiesReal, ResolvedFrom, SubjectsWithKey;
    PlanTally(x, QuestionnaireSubjects, k, Migrate);
    PlanTally(x, QuestionnaireSubjects, k, Reject);
    PlanTally(x, QuestionnaireSubjects, k, ArchiveNotOnV2);
    forall d { SubjectsHaveNoRows(x, k, d); }
    SubjectIdsDiffer(x);
    SubjectOnce(x.subjects.synthetic, |x.subjects.synthetic|, k);
  }

  lemma RowReceiptOnce(x: Inputs, s: Entity, row: SourceRow)
    requires KeysDistinct(x.src) && row in Rows(x.src, s) && s != QuestionnaireSubjects
    ensures ReceiptTotal(x, s, Key(s, row)) <= 1
  {
    hide Plan, Tally, Decided, Key, KeysDistinct;
    RowReceipts(x, s, row, Migrate);
    RowReceipts(x, s, row, Reject);
    RowReceipts(x, s, row, ArchiveNotOnV2);
    forall d, e | Decided(x, s, d, row) && Decided(x, s, e, row) { OneDecision(x, s, row, d, e); }
  }

  lemma NoRowNoReceipt(x: Inputs, s: Entity, k: string)
    requires s != QuestionnaireSubjects && forall row :: row in Rows(x.src, s) ==> Key(s, row) != k
    ensures ReceiptTotal(x, s, k) == 0
  {
    hide Plan, Tally, Decided, Key;
    PlanTally(x, s, k, Migrate);
    PlanTally(x, s, k, Reject);
    PlanTally(x, s, k, ArchiveNotOnV2);
    forall d { KeyAbsent(x, s, k, d, |Rows(x.src, s)|); }
  }

  /** Main result: no source row, and no invented customer, gets two receipts. */
  lemma AtMostOneReceipt(x: Inputs, s: Entity, k: string)
    requires KeysDistinct(x.src) && Typed(x.src) && IdentitiesReal(x.src) && ResolvedFrom(x)
    ensures Tally(Plan(x), s, k, Migrate) + Tally(Plan(x), s, k, Reject) + Tally(Plan(x), s, k, ArchiveNotOnV2) <= 1
  {
    hide Plan, Tally, Key, KeysDistinct, Typed, IdentitiesReal, ResolvedFrom;
    if s == QuestionnaireSubjects {
      SubjectReceiptOnce(x, k);
    } else if row :| row in Rows(x.src, s) && Key(s, row) == k {
      RowReceiptOnce(x, s, row);
    } else {
      NoRowNoReceipt(x, s, k);
    }
  }

  lemma SubjectsHaveNoRows(x: Inputs, k: string, d: Disposition)
    ensures TableExpected(x, QuestionnaireSubjects, k, d) == 0
  {
    NeverDecided(x, QuestionnaireSubjects, k, d, Rows(x.src, QuestionnaireSubjects), |Rows(x.src, QuestionnaireSubjects)|);
  }

  /** Invented customers take consecutive ids above every existing one. */
  lemma SubjectIds(x: Inputs, k: nat)
    requires Typed(x.src) && IdentitiesReal(x.src) && ResolvedFrom(x) && k < |x.subjects.synthetic|
    ensures x.subjects.synthetic[k].id == MaxCustomerID(Rows(x.src, Customers)) + 1 + k
  {
    hide MaxCustomerID, SubjectRowsOf, Resolution.Resolve, IdentitiesReal;
    var rows, maximum := SubjectRowsOf(x.src), MaxCustomerID(Rows(x.src, Customers));
    RowsInRange(x.src);
    SubjectFacts.InventedCustomers(rows, |rows|, maximum, k);
  }

  lemma SubjectIdsDiffer(x: Inputs)
    requires Typed(x.src) && IdentitiesReal(x.src) && ResolvedFrom(x)
    ensures forall i, j :: 0 <= i < j < |x.subjects.synthetic| ==> x.subjects.synthetic[i].id != x.subjects.synthetic[j].id
  {
    hide Typed, IdentitiesReal, ResolvedFrom;
    forall i, j | 0 <= i < j < |x.subjects.synthetic| ensures x.subjects.synthetic[i].id != x.subjects.synthetic[j].id {
      SubjectIds(x, i);
      SubjectIds(x, j);
    }
  }

  // ----- The rows that must be accounted for

  /** Every order is migrated or rejected: migrated exactly when it names a product. */
  lemma OrderReceipts(x: Inputs, order: SourceRow)
    requires KeysDistinct(x.src) && order in Rows(x.src, Orders)
    ensures Tally(Plan(x), Orders, Key(Orders, order), Migrate) == (if HasProduct(order) then 1 else 0)
    ensures Tally(Plan(x), Orders, Key(Orders, order), Reject) == (if HasProduct(order) then 0 else 1)
    ensures Tally(Plan(x), Orders, Key(Orders, order), ArchiveNotOnV2) == 0
  {
    hide Plan, Tally, Key, KeysDistinct;
    RowReceipts(x, Orders, order, Migrate);
    RowReceipts(x, Orders, order, Reject);
    RowReceipts(x, Orders, order, ArchiveNotOnV2);
  }

  /** A refund gets exactly one receipt when it is not final, or is final and its order is there;
      otherwise it gets none. Its disposition follows its status and its order. */
  lemma RefundReceipts(x: Inputs, refund: SourceRow)
    requires KeysDistinct(x.src) && refund in Rows(x.src, HistoricalRefunds)
    ensures
      var key, parent := Key(HistoricalRefunds, refund), Parent(x.src, refund);
      && Tally(Plan(x), HistoricalRefunds, key, Migrate) == (if Final(refund) && parent != [] && HasProduct(parent[0]) then 1 else 0)
      && Tally(Plan(x), HistoricalRefunds, key, Reject) == (if Final(refund) && parent != [] && !HasProduct(parent[0]) then 1 else 0)
      && Tally(Plan(x), HistoricalRefunds, key, ArchiveNotOnV2) == (if NotFinal(refund) then 1 else 0)
  {
    hide Plan, Tally, Key, KeysDistinct, Parent;
    RowReceipts(x, HistoricalRefunds, refund, Migrate);
    RowReceipts(x, HistoricalRefunds, refund, Reject);
    RowReceipts(x, HistoricalRefunds, refund, ArchiveNotOnV2);
  }

  /** In particular a refund with an order and a status is accounted for exactly once. */
  lemma RefundAccounted(x: Inputs, refund: SourceRow)
    requires KeysDistinct(x.src) && refund in Rows(x.src, HistoricalRefunds)
    ensures
      var key, status := Key(HistoricalRefunds, refund), Col(refund.columns, "status");
      Tally(Plan(x), HistoricalRefunds, key, Migrate) + Tally(Plan(x), HistoricalRefunds, key, Reject)
      + Tally(Plan(x), HistoricalRefunds, key, ArchiveNotOnV2)
      == if status.Text? && (Parent(x.src, refund) != [] || NotFinal(refund)) then 1 else 0
  {
    hide Plan, Tally, Key, KeysDistinct, Parent;
    RefundReceipts(x, refund);
  }

  /** Every metadata row is migrated or archived: migrated exactly when its members all exist. */
  lemma MetadataReceipts(x: Inputs, m: SourceRow)
    requires KeysDistinct(x.src) && m in Rows(x.src, PackageMetadata)
    ensures
      var key, complete := Key(PackageMetadata, m), Complete(x.src, Col(m.columns, "segment_id"));
      && Tally(Plan(x), PackageMetadata, key, Migrate) == (if complete then 1 else 0)
      && Tally(Plan(x), PackageMetadata, key, ArchiveNotOnV2) == (if complete then 0 else 1)
      && Tally(Plan(x), PackageMetadata, key, Reject) == 0
  {
    hide Plan, Tally, Key, KeysDistinct, Complete;
    RowReceipts(x, PackageMetadata, m, Migrate);
    RowReceipts(x, PackageMetadata, m, ArchiveNotOnV2);
    RowReceipts(x, PackageMetadata, m, Reject);
  }

  lemma {:induction false} FoundOrder(rows: seq<SourceRow>, id: Json)
    requires FindById(rows, id) != []
    ensures FindById(rows, id)[0] in rows && Col(FindById(rows, id)[0].columns, "id") == id
  {
    if !Equal(Col(rows[0].columns, "id"), id) { FoundOrder(rows[1..], id); }
  }

  /** A refund is migrated only together with the order it refers to. */
  lemma MigratedRefundHasMigratedOrder(x: Inputs, refund: SourceRow) returns (order: SourceRow)
    requires KeysDistinct(x.src) && refund in Rows(x.src, HistoricalRefunds)
    requires Tally(Plan(x), HistoricalRefunds, Key(HistoricalRefunds, refund), Migrate) > 0
    ensures order in Rows(x.src, Orders) && Col(order.columns, "id") == Col(refund.columns, "order_id")
    ensures Tally(Plan(x), Orders, Key(Orders, order), Migrate) == 1
  {
    hide Plan, Tally, Key, KeysDistinct, HasProduct;
    RefundReceipts(x, refund);
    order := Parent(x.src, refund)[0];
    FoundOrder(Rows(x.src, Orders), Col(refund.columns, "order_id"));
    OrderReceipts(x, order);
  }

  // ----- Counters

  /** The counter a receipt stands behind. */
  function CounterOf(r: Receipt): CountKey {
    match r.disposition
    case Migrate => Migrated(r.domain)
    case Reject => OrderRejected
    case ArchiveNotOnV2 => if r.domain == Order then OrderSkipped else AudienceSkipped
  }

  function Counted(receipts: seq<Receipt>, key: CountKey): nat {
    if receipts == [] then 0 else (if CounterOf(receipts[0]) == key then 1 else 0) + Counted(receipts[1..], key)
  }

  function CountAt(counts: map<CountKey, nat>, key: CountKey): nat {
    if key in counts then counts[key] else 0
  }

  /** An event that counts writes one receipt, behind the same counter; any other writes none. */
  ghost predicate Balanced(e: Event) {
    if e.count.None? then ReceiptsOf(e.writes) == []
    else exists r :: ReceiptsOf(e.writes) == [r] && CounterOf(r) == e.count.value
  }

  lemma CountedOne(r: Receipt, key: CountKey)
    ensures Counted([r], key) == if CounterOf(r) == key then 1 else 0
  {
    assert [r][1..] == [];
  }

  lemma {:induction false} CountedConcat(a: seq<Receipt>, b: seq<Receipt>, key: CountKey)
    ensures Counted(a + b, key) == Counted(a, key) + Counted(b, key)
  {
    if a == [] {
      assert a + b == b;
    } else {
      CountedConcat(a[1..], b, key);
      assert (a + b)[1..] == a[1..] + b;
    }
  }

  lemma {:induction false} CountersAreReceipts(counts: map<CountKey, nat>, events: seq<Event>, key: CountKey)
    requires forall e :: e in events ==> Balanced(e)
    ensures CountAt(CountAll(counts, events), key) == CountAt(counts, key) + Counted(ReceiptsOf(Writes(events)), key)
    decreases |events|
  {
    hide Balanced, CounterOf;
    if events != [] {
      var e := events[0];
      CountersAreReceipts(Bump(counts, e.count), events[1..], key);
      ReceiptsConcat(e.writes, Writes(events[1..]));
      CountedConcat(ReceiptsOf(e.writes), ReceiptsOf(Writes(events[1..])), key);
      BalancedBump(counts, e, key);
    }
  }

  lemma BalancedBump(counts: map<CountKey, nat>, e: Event, key: CountKey)
    requires Balanced(e)
    ensures CountAt(Bump(counts, e.count), key) == CountAt(counts, key) + Counted(ReceiptsOf(e.writes), key)
  {
    hide CounterOf;
    if e.count.Some? {
      var r :| ReceiptsOf(e.writes) == [r] && CounterOf(r) == e.count.value;
      CountedOne(r, key);
    }
  }

  lemma LastReceipt(others: seq<Write>, r: Receipt)
    requires forall w :: w in others ==> !w.InsertReceipt?
    ensures ReceiptsOf(others + [InsertReceipt(r)]) == [r]
  {
    ReceiptsConcat(others, [InsertReceipt(r)]);
    NoReceipts(others);
    var last := [InsertReceipt(r)];
    assert last[1..] == [] && ReceiptsOf(last) == [r] + ReceiptsOf([]);
  }

  lemma MigrateBalanced(domain: Domain, source: Entity, target: Entity, key: string, text: string, writes: seq<Write>)
    requires forall w :: w in writes ==> !w.InsertReceipt?
    ensures Balanced(MigrateEvent(domain, source, target, key, text, writes))
  {
    var r := Receipt(domain, source, key, text, target, Some(key), Migrate, "");
    LastReceipt(writes, r);
    NoReceipts(writes);
    assert CounterOf(r) == Migrated(domain);
  }

  lemma LeaveBalanced(suffix: string, domain: Domain, source: Entity, target: Entity, d: Disposition, reason: string, count: CountKey, row: SourceRow)
    requires
      || (d == Reject && count == OrderRejected)
      || (d == ArchiveNotOnV2 && domain == Order && count == OrderSkipped)
      || (d == ArchiveNotOnV2 && domain == Audience && count == AudienceSkipped)
    ensures Balanced(LeaveEvent(suffix, domain, source, target, d, reason, count, row))
  {
    hide Key, ReceiptsOf;
    var r := Receipt(domain, source, Key(source, row), row.text, target, None, d, reason);
    ReceiptsOfOne(r);
    assert CounterOf(r) == count;
  }

  lemma LeftBehindBalanced(x: Inputs, e: Event)
    requires e in LeftBehind(x)
    ensures Balanced(e)
  {
    hide LeftBehind, Balanced, LeaveEvent;
    var row, suffix, domain, source, table, d, reason, count := LeaveEventOf(x, e);
    LeaveBalanced(suffix, domain, source, table, d, reason, count, row);
  }

  lemma EventBalanced(x: Inputs, e: Event)
    requires e in Plan(x)
    ensures Balanced(e)
  {
    hide Plan, FlatMap, LeftBehind, CustomerStep, SubjectStep, CopyTable, CustomerReferences, Balanced, MigrateEvent, Key, Copied, Keep;
    PlanMember(x, e);
    if e in LeftBehind(x) {
      LeftBehindBalanced(x, e);
    } else if e in FlatMap(COPIED, CopyTable(x)) {
      var spec, row := CopyEvent(x, e);
      var c := Copied(x, spec.source, row);
      MigrateBalanced(spec.domain, spec.source, spec.target, Key(spec.source, row), row.text, if c.Some? then [InsertRow(spec.target, c.value)] else []);
    } else if e in FlatMap(x.subjects.synthetic, SubjectStep()) {
      SubjectBalanced(x, e);
    } else if e in FlatMap(Rows(x.src, Customers), CustomerStep(x)) {
      CustomerBalanced(x, e);
    } else {
      SilentBalanced(x, e);
    }
  }

  lemma SubjectBalanced(x: Inputs, e: Event)
    requires e in FlatMap(x.subjects.synthetic, SubjectStep())
    ensures Balanced(e)
  {
    hide FlatMap, Balanced, MigrateEvent, SubjectText, Decimal.FormatInt;
    var y := FlatMapMember(x.subjects.synthetic, SubjectStep(), e);
    MigrateBalanced(Identity, QuestionnaireSubjects, Customers, Decimal.FormatInt(y.id), SubjectText(y),
                    [InsertCustomer(Customer(y.id, y.createdAt, y.updatedAt))]);
  }

  lemma CustomerBalanced(x: Inputs, e: Event)
    requires e in FlatMap(Rows(x.src, Customers), CustomerStep(x))
    ensures Balanced(e)
  {
    hide FlatMap, Balanced, MigrateEvent, Selected, Key;
    var row := FlatMapMember(Rows(x.src, Customers), CustomerStep(x), e);
    MigrateBalanced(Identity, Customers, Customers, Key(Customers, row), row.text, CustomerWrites(x, row));
  }

  lemma SilentBalanced(x: Inputs, e: Event)
    requires e == BindingEvent(x) || e in FlatMap(Sets.Ascend(x.subjects.references.Keys), CustomerReferences(x))
    ensures Balanced(e)
  {
    hide FlatMap;
    if e != BindingEvent(x) {
      var customer, r := ReferenceEventOf(x, e);
    }
    NoReceipts(e.writes);
  }

  /** Main result: after a successful import every counter is the number of receipts behind it. */
  lemma CountsAreReceipts(x: Inputs, accepts: (Database, Write) -> bool, key: CountKey)
    requires Advance(accepts, Progress([], map[], Some(EMPTY_TARGET)), Plan(x)).Some?
    ensures
      var end := Advance(accepts, Progress([], map[], Some(EMPTY_TARGET)), Plan(x)).value;
      end.target.Some? && CountAt(end.counts, key) == Counted(end.target.value.receipts, key)
  {
    hide Plan, Advance, Balanced, CountAll, Counted, Writes, ReceiptsOf;
    AdvanceEffects(accepts, Progress([], map[], Some(EMPTY_TARGET)), Plan(x));
    forall e | e in Plan(x) { EventBalanced(x, e); }
    CountersAreReceipts(map[], Plan(x), key);
    ReceiptsAfter(EMPTY_TARGET, Writes(Plan(x)));
    assert EMPTY_TARGET.receipts + ReceiptsOf(Writes(Plan(x))) == ReceiptsOf(Writes(Plan(x)));
  }

  // ----- Inserted customers

  function IdsInserted(ws: seq<Write>): seq<int> {
    if ws == [] then [] else (if ws[0].InsertCustomer? then [ws[0].customer.id] else []) + IdsInserted(ws[1..])
  }

  lemma {:induction false} IdsConcat(a: seq<Write>, b: seq<Write>)
    ensures IdsInserted(a + b) == IdsInserted(a) + IdsInserted(b)
  {
    if a == [] {
      assert a + b == b;
    } else {
      IdsConcat(a[1..], b);
      assert (a + b)[1..] == a[1..] + b && (a + b)[0] == a[0];
      var first := if a[0].InsertCustomer? then [a[0].customer.id] else [];
      assert first + (IdsInserted(a[1..]) + IdsInserted(b)) == (first + IdsInserted(a[1..])) + IdsInserted(b);
    }
  }

  lemma EventsConcatIds(a: seq<Event>, b: seq<Event>)
    ensures IdsInserted(Writes(a + b)) == IdsInserted(Writes(a)) + IdsInserted(Writes(b))
  {
    WritesConcat(a, b);
    IdsConcat(Writes(a), Writes(b));
  }

  function SelectedIds(x: Inputs, rows: seq<SourceRow>, n: nat): seq<int>
    requires n <= |rows|
  {
    if n == 0 then []
    else SelectedIds(x, rows, n - 1) + if Selected(x, rows[n - 1]) then [Int(Col(rows[n - 1].columns, "id"))] else []
  }

  function SubjectIdList(synthetic: seq<Resolution.Synthetic>, n: nat): (ids: seq<int>)
    requires n <= |synthetic|
    ensures |ids| == n && forall i :: 0 <= i < n ==> ids[i] == synthetic[i].id
  {
    if n == 0 then [] else SubjectIdList(synthetic, n - 1) + [synthetic[n - 1].id]
  }

  lemma OneEventIds(e: Event, first: Write, others: seq<Write>)
    requires e.writes == [first] + others && first.InsertCustomer? && forall w :: w in others ==> !w.InsertCustomer?
    ensures IdsInserted(Writes([e])) == [first.customer.id]
  {
    assert [e][1..] == [] && Writes([e]) == e.writes + [] == e.writes;
    assert e.writes[1..] == others;
    NoIds(others);
  }

  lemma {:induction false} NoIds(ws: seq<Write>)
    requires forall w :: w in ws ==> !w.InsertCustomer?
    ensures IdsInserted(ws) == []
  {
    if ws != [] { NoIds(ws[1..]); }
  }

  lemma {:induction false} CustomerIdsOf(x: Inputs, rows: seq<SourceRow>, n: nat)
    requires n <= |rows|
    ensures IdsInserted(Writes(UpTo(rows, n, CustomerStep(x)))) == SelectedIds(x, rows, n)
  {
    hide Selected, Key, IdsInserted, Writes, ReferenceDigest;
    if n > 0 {
      var row := rows[n - 1];
      CustomerIdsOf(x, rows, n - 1);
      EventsConcatIds(UpTo(rows, n - 1, CustomerStep(x)), CustomerStep(x)(row));
      if Selected(x, row) {
        var e := MigrateEvent(Identity, Customers, Customers, Key(Customers, row), row.text, CustomerWrites(x, row));
        OneEventIds(e, e.writes[0], e.writes[1..]);
      } else {
        NoEventIds();
      }
    } else {
      NoEventIds();
    }
  }

  lemma NoEventIds()
    ensures IdsInserted(Writes([])) == []
  {
  }

  lemma {:induction false} SubjectIdsOf(synthetic: seq<Resolution.Synthetic>, n: nat)
    requires n <= |synthetic|
    ensures IdsInserted(Writes(UpTo(synthetic, n, SubjectStep()))) == SubjectIdList(synthetic, n)
  {
    hide IdsInserted, Writes, SubjectText, Decimal.FormatInt;
    if n > 0 {
      var y := synthetic[n - 1];
      SubjectIdsOf(synthetic, n - 1);
      EventsConcatIds(UpTo(synthetic, n - 1, SubjectStep()), SubjectStep()(y));
      var e := MigrateEvent(Identity, QuestionnaireSubjects, Customers, Decimal.FormatInt(y.id), SubjectText(y),
                            [InsertCustomer(Customer(y.id, y.createdAt, y.updatedAt))]);
      OneEventIds(e, e.writes[0], e.writes[1..]);
    } else {
      NoEventIds();
    }
  }

  lemma {:induction false} SilentIds(events: seq<Event>)
    requires forall e, w :: e in events && w in e.writes ==> !w.InsertCustomer?
    ensures IdsInserted(Writes(events)) == []
  {
    if events != [] {
      IdsConcat(events[0].writes, Writes(events[1..]));
      NoIds(events[0].writes);
      SilentIds(events[1..]);
    }
  }

  lemma PlanIds(x: Inputs)
    ensures IdsInserted(Writes(Plan(x))) ==
            SelectedIds(x, Rows(x.src, Customers), |Rows(x.src, Customers)|) + SubjectIdList(x.subjects.synthetic, |x.subjects.synthetic|)
  {
    hide Writes, IdsInserted, UpTo, LeftBehind, CustomerStep, SubjectStep, CopyTable, CustomerReferences, SelectedIds, SubjectIdList;
    var customers, synthetic := Rows(x.src, Customers), x.subjects.synthetic;
    var a, b := FlatMap(customers, CustomerStep(x)), FlatMap(synthetic, SubjectStep());
    var c, copied := FlatMap(Sets.Ascend(x.subjects.references.Keys), CustomerReferences(x)), FlatMap(COPIED, CopyTable(x));
    var first := [BindingEvent(x)];
    EventsConcatIds(a, b);
    EventsConcatIds(a + b, c);
    EventsConcatIds(first, a + b + c);
    EventsConcatIds(first + (a + b + c), copied);
    EventsConcatIds(first + (a + b + c) + copied, LeftBehind(x));
    CustomerIdsOf(x, customers, |customers|);
    SubjectIdsOf(synthetic, |synthetic|);
    SilentIds(first);
    QuietParts(x);
    SilentIds(c);
    SilentIds(copied);
    SilentIds(LeftBehind(x));
  }

  lemma QuietParts(x: Inputs)
    ensures forall e, w :: e in FlatMap(Sets.Ascend(x.subjects.references.Keys), CustomerReferences(x)) && w in e.writes ==> !w.InsertCustomer?
    ensures forall e, w :: e in FlatMap(COPIED, CopyTable(x)) && w in e.writes ==> !w.InsertCustomer?
    ensures forall e, w :: e in LeftBehind(x) && w in e.writes ==> !w.InsertCustomer?
  {
    hide FlatMap, LeftBehind, CopyTable, CustomerReferences;
    forall e, w | e in FlatMap(Sets.Ascend(x.subjects.references.Keys), CustomerReferences(x)) && w in e.writes ensures !w.InsertCustomer? {
      var customer, r := ReferenceEventOf(x, e);
    }
    forall e, w | e in FlatMap(COPIED, CopyTable(x)) && w in e.writes ensures !w.InsertCustomer? {
      CopyEventWrites(x, e);
    }
    forall e, w | e in LeftBehind(x) && w in e.writes ensures !w.InsertCustomer? {
      LeftBehindWrites(x, e);
    }
  }

  /** The row that an id of the list was taken from. */
  lemma {:induction false} RowOfId(x: Inputs, rows: seq<SourceRow>, n: nat, i: nat) returns (k: nat)
    requires n <= |rows| && i < |SelectedIds(x, rows, n)|
    ensures k < n && Int(Col(rows[k].columns, "id")) == SelectedIds(x, rows, n)[i]
  {
    hide Selected;
    if i < |SelectedIds(x, rows, n - 1)| {
      k := RowOfId(x, rows, n - 1, i);
    } else {
      k := n - 1;
    }
  }

  lemma RowIdsDiffer(src: Snapshot, i: nat, j: nat)
    requires Typed(src) && KeysDistinct(src) && i < j < |Rows(src, Customers)|
    ensures Int(Col(Rows(src, Customers)[i].columns, "id")) != Int(Col(Rows(src, Customers)[j].columns, "id"))
  {
    var rows := Rows(src, Customers);
    assert rows[i] in rows && rows[j] in rows;
    assert Accounted(Customers) && PrimaryKey(Customers, rows[i]) != PrimaryKey(Customers, rows[j]);
  }

  lemma {:induction false} SelectedIdsDistinct(x: Inputs, n: nat)
    requires Typed(x.src) && KeysDistinct(x.src) && n <= |Rows(x.src, Customers)|
    ensures Sets.Distinct(SelectedIds(x, Rows(x.src, Customers), n))
  {
    hide Selected, Typed, KeysDistinct;
    if n > 0 {
      var rows := Rows(x.src, Customers);
      var front, list := SelectedIds(x, rows, n - 1), SelectedIds(x, rows, n);
      SelectedIdsDistinct(x, n - 1);
      forall i, j | 0 <= i < j < |list| ensures list[i] != list[j] {
        var k := RowOfId(x, rows, n - 1, i);
        RowIdsDiffer(x.src, k, n - 1);
        assert list[i] == front[i];
      }
    }
  }

  /** The customers a walk inserts have pairwise distinct ids: invented ids never meet existing ones. */
  lemma InsertedIdsDistinct(x: Inputs)
    requires Typed(x.src) && KeysDistinct(x.src) && IdentitiesReal(x.src) && ResolvedFrom(x)
    ensures Sets.Distinct(IdsInserted(Writes(Plan(x))))
  {
    hide Plan, Writes, IdsInserted, SelectedIds, IdentitiesReal, ResolvedFrom, KeysDistinct, MaxCustomerID, Typed;
    var rows, synthetic := Rows(x.src, Customers), x.subjects.synthetic;
    PlanIds(x);
    SelectedIdsDistinct(x, |rows|);
    var existing, invented := SelectedIds(x, rows, |rows|), SubjectIdList(synthetic, |synthetic|);
    SubjectIdsDiffer(x);
    forall i, j | 0 <= i < |existing| && 0 <= j < |invented| ensures existing[i] != invented[j] {
      var k := RowOfId(x, rows, |rows|, i);
      MaximumBounds(rows, rows[k]);
      SubjectIds(x, j);
    }
  }
}
