/** The exact contents an import leaves in each copied table, and the order total that the reconciliation
    casts to bigint. */
module ImportTables {
  import opened Wrappers
  import opened Snapshot
  import opened CopyRules
  import opened Target
  import opened ImportPlan
  import opened ImportEffects
  import opened Reconcile
  import opened ImportGates
  import ImportReceipts
  import Reencoding

  // ----- The rows of one table among some writes, in order

  function RowsOf(ws: seq<Write>, table: Entity): seq<Columns> {
    if ws == [] then []
    else (if ws[0].InsertRow? && ws[0].table == table then [ws[0].columns] else []) + RowsOf(ws[1..], table)
  }

  function EventRows(events: seq<Event>, table: Entity): seq<Columns> {
    RowsOf(Writes(events), table)
  }

  lemma {:induction false} RowsConcat(a: seq<Write>, b: seq<Write>, table: Entity)
    ensures RowsOf(a + b, table) == RowsOf(a, table) + RowsOf(b, table)
  {
    if a == [] {
      assert a + b == b;
    } else {
      RowsConcat(a[1..], b, table);
      assert (a + b)[1..] == a[1..] + b && (a + b)[0] == a[0];
      var first := if a[0].InsertRow? && a[0].table == table then [a[0].columns] else [];
      ImportReceipts.Regroup(first, RowsOf(a[1..], table), RowsOf(b, table));
    }
  }

  lemma EventRowsConcat(a: seq<Event>, b: seq<Event>, table: Entity)
    ensures EventRows(a + b, table) == EventRows(a, table) + EventRows(b, table)
  {
    hide Writes, RowsOf;
    ImportReceipts.WritesConcat(a, b);
    RowsConcat(Writes(a), Writes(b), table);
  }

  lemma OneApplied(db: Database, w: Write, table: Entity)
    ensures TableOf(Apply(db, w), table) == TableOf(db, table) + if w.InsertRow? && w.table == table then [w.columns] else []
  {
  }

  lemma {:induction false} TableAfter(db: Database, ws: seq<Write>, table: Entity)
    ensures TableOf(ApplyAll(db, ws), table) == TableOf(db, table) + RowsOf(ws, table)
    decreases |ws|
  {
    hide Apply, TableOf;
    if ws != [] {
      TableAfter(Apply(db, ws[0]), ws[1..], table);
      OneApplied(db, ws[0], table);
      var first := if ws[0].InsertRow? && ws[0].table == table then [ws[0].columns] else [];
      ImportReceipts.Regroup(TableOf(db, table), first, RowsOf(ws[1..], table));
    }
  }

  lemma {:induction false} NoRows(ws: seq<Write>, table: Entity)
    requires forall w :: w in ws ==> !(w.InsertRow? && w.table == table)
    ensures RowsOf(ws, table) == []
  {
    if ws != [] { NoRows(ws[1..], table); }
  }

  lemma QuietEvents(events: seq<Event>, table: Entity)
    requires forall e, w :: e in events && w in e.writes ==> !(w.InsertRow? && w.table == table)
    ensures EventRows(events, table) == []
  {
    hide Writes, RowsOf;
    forall w | w in Writes(events) ensures !(w.InsertRow? && w.table == table) { var e := WriteHasEvent(events, w); }
    NoRows(Writes(events), table);
  }

  // ----- The copies of a table

  /** The copies of the kept ones among the first n source rows. */
  function Copies(x: Inputs, spec: CopySpec, n: nat): seq<Columns>
    requires n <= |Rows(x.src, spec.source)|
  {
    if n == 0 then []
    else
      var row := Rows(x.src, spec.source)[n - 1];
      var c := Copied(x, spec.source, row);
      Copies(x, spec, n - 1) + if Keep(x.src, spec.source, row) && c.Some? then [c.value] else []
  }

  function AllCopies(x: Inputs, spec: CopySpec): seq<Columns> {
    Copies(x, spec, |Rows(x.src, spec.source)|)
  }

  lemma StepRows(x: Inputs, spec: CopySpec, row: SourceRow, table: Entity)
    ensures EventRows(CopyStep(x, spec)(row), table) ==
            if spec.target == table && Keep(x.src, spec.source, row) && Copied(x, spec.source, row).Some? then [Copied(x, spec.source, row).value] else []
  {
    hide Keep, Copied, Key, RowsOf, Writes;
    var c, events := Copied(x, spec.source, row), CopyStep(x, spec)(row);
    if Keep(x.src, spec.source, row) {
      var e := CopiedEvent(x, spec, row);
      assert events == [e];
      ImportReceipts.WritesOfOne(e);
      var insert := if c.Some? then [InsertRow(spec.target, c.value)] else [];
      assert e.writes == insert + e.writes[|insert|..];
      RowsConcat(insert, e.writes[|insert|..], table);
      NoRows(e.writes[|insert|..], table);
      RowsOfInsert(spec.target, c, table);
    } else {
      QuietEvents([], table);
    }
  }

  lemma RowsOfInsert(target: Entity, c: Option<Columns>, table: Entity)
    ensures RowsOf(if c.Some? then [InsertRow(target, c.value)] else [], table) == if target == table && c.Some? then [c.value] else []
  {
    if c.Some? { assert [InsertRow(target, c.value)][1..] == []; }
  }

  lemma {:induction false} TableRows(x: Inputs, spec: CopySpec, n: nat, table: Entity)
    requires n <= |Rows(x.src, spec.source)|
    ensures EventRows(UpTo(Rows(x.src, spec.source), n, CopyStep(x, spec)), table) == if spec.target == table then Copies(x, spec, n) else []
  {
    hide EventRows, CopyStep, Copied, Keep;
    if n == 0 {
      QuietEvents([], table);
    } else {
      var row := Rows(x.src, spec.source)[n - 1];
      TableRows(x, spec, n - 1, table);
      EventRowsConcat(UpTo(Rows(x.src, spec.source), n - 1, CopyStep(x, spec)), CopyStep(x, spec)(row), table);
      StepRows(x, spec, row, table);
    }
  }

  lemma OneTarget(i: nat, j: nat)
    requires i < |COPIED| && j < |COPIED| && COPIED[i].target == COPIED[j].target
    ensures i == j
  {
    TargetPosition(i);
    TargetPosition(j);
  }

  /** Each target table is filled by one rule. */
  function Filled(e: Entity): int {
    ImportReceipts.Position(if e == RefundFacts then HistoricalRefunds else e)
  }

  lemma TargetNamed(i: nat)
    requires i < |COPIED|
    ensures COPIED[i].target == if COPIED[i].source == HistoricalRefunds then RefundFacts else COPIED[i].source
  {
  }

  lemma FactsHaveNoRule(i: nat)
    requires i < |COPIED|
    ensures COPIED[i].source != RefundFacts
  {
  }

  lemma TargetPosition(i: nat)
    requires i < |COPIED|
    ensures Filled(COPIED[i].target) == i
  {
    hide ImportReceipts.Position, ImportReceipts.Receipted;
    TargetNamed(i);
    FactsHaveNoRule(i);
    ImportReceipts.PositionOfSpec(i);
  }

  lemma {:induction false} CopiedRows(x: Inputs, specs: seq<CopySpec>, n: nat, i: nat)
    requires n <= |specs| && i < |specs| && forall j :: 0 <= j < |specs| && specs[j].target == specs[i].target ==> j == i
    ensures EventRows(UpTo(specs, n, CopyTable(x)), specs[i].target) == if i < n then AllCopies(x, specs[i]) else []
  {
    hide EventRows, CopyTable, CopyStep, AllCopies;
    var table := specs[i].target;
    if n == 0 {
      QuietEvents([], table);
    } else {
      var spec := specs[n - 1];
      CopiedRows(x, specs, n - 1, i);
      EventRowsConcat(UpTo(specs, n - 1, CopyTable(x)), CopyTable(x)(spec), table);
      WholeTable(x, spec, table);
    }
  }

  lemma WholeTable(x: Inputs, spec: CopySpec, table: Entity)
    ensures EventRows(CopyTable(x)(spec), table) == if spec.target == table then AllCopies(x, spec) else []
  {
    hide EventRows, CopyStep, Copies;
    CopyTableIs(x, spec);
    TableRows(x, spec, |Rows(x.src, spec.source)|, table);
  }

  lemma IdentityWritesNoRows(x: Inputs, e: Event, w: Write)
    requires e in IdentityEvents(x) && w in e.writes
    ensures !w.InsertRow?
  {
    hide FlatMap, CustomerStep, SubjectStep, CustomerReferences;
    if e in FlatMap(Rows(x.src, Customers), CustomerStep(x)) {
      CustomerEventWrites(x, e);
    } else if e in FlatMap(x.subjects.synthetic, SubjectStep()) {
      var y, receipt := SubjectEventOf(x, e);
    } else {
      var customer, r := ReferenceEventOf(x, e);
    }
  }

  lemma PlanRows(x: Inputs, i: nat)
    requires i < |COPIED|
    ensures EventRows(Plan(x), COPIED[i].target) == AllCopies(x, COPIED[i])
  {
    hide EventRows, UpTo, LeftBehind, IdentityEvents, CopyTable, AllCopies, Filled;
    var table, first, copied := COPIED[i].target, [BindingEvent(x)], FlatMap(COPIED, CopyTable(x));
    EventRowsConcat(first, IdentityEvents(x), table);
    EventRowsConcat(first + IdentityEvents(x), copied, table);
    EventRowsConcat(first + IdentityEvents(x) + copied, LeftBehind(x), table);
    QuietEvents(first, table);
    forall e, w | e in IdentityEvents(x) && w in e.writes ensures !(w.InsertRow? && w.table == table) { IdentityWritesNoRows(x, e, w); }
    QuietEvents(IdentityEvents(x), table);
    forall e, w | e in LeftBehind(x) && w in e.writes ensures !(w.InsertRow? && w.table == table) { LeftBehindWrites(x, e); }
    QuietEvents(LeftBehind(x), table);
    forall j | 0 <= j < |COPIED| && COPIED[j].target == COPIED[i].target ensures j == i { OneTarget(i, j); }
    CopiedRows(x, COPIED, |COPIED|, i);
  }

  /** Main result: an import into an empty target leaves in each table exactly the copies of the kept
      source rows, in the order of the source and as often. */
  lemma TableIsCopied(x: Inputs, spec: CopySpec)
    requires spec in COPIED
    ensures TableOf(After(x), spec.target) == AllCopies(x, spec)
  {
    hide Plan, RowsOf, Writes, AllCopies;
    var i :| 0 <= i < |COPIED| && COPIED[i] == spec;
    PlanRows(x, i);
    TableAfter(EMPTY_TARGET, Writes(Plan(x)), spec.target);
    NothingThere(spec.target);
    assert [] + RowsOf(Writes(Plan(x)), spec.target) == RowsOf(Writes(Plan(x)), spec.target);
  }

  lemma NothingThere(table: Entity)
    ensures TableOf(EMPTY_TARGET, table) == []
  {
  }

  // ----- The order total

  const ORDERS := CopySpec(Order, Orders, Orders)

  /** What an order adds to the total: its amount, printed again when the order is given its customer. */
  function OrderAmount(x: Inputs, row: SourceRow): int {
    var amount := Col(row.columns, "amount_minor");
    Int(if Col(row.columns, "customer_id") != Null then amount else Reencoding.Recoded(x.printer, amount))
  }

  function AmountsUpTo(x: Inputs, n: nat): int
    requires n <= |Rows(x.src, Orders)|
  {
    if n == 0 then 0
    else AmountsUpTo(x, n - 1) + if HasProduct(Rows(x.src, Orders)[n - 1]) then OrderAmount(x, Rows(x.src, Orders)[n - 1]) else 0
  }

  /** The total of the product orders of the source. */
  function SourceTotal(x: Inputs): int {
    AmountsUpTo(x, |Rows(x.src, Orders)|)
  }

  lemma AmountProjected(src: Snapshot, row: SourceRow)
    ensures Col(Project(src, Orders, row), "amount_minor") == Col(row.columns, "amount_minor")
    ensures Col(Project(src, Orders, row), "customer_id") == Col(row.columns, "customer_id")
  {
  }

  lemma RewrittenColumn(x: Inputs, c: Columns, customer: int, k: string)
    requires k != "customer_id"
    ensures Col(Rewritten(x, c, customer), k) == Reencoding.Recoded(x.printer, Col(c, k))
  {
  }

  lemma CopiedAmount(x: Inputs, row: SourceRow)
    requires Copied(x, Orders, row).Some?
    ensures Int(Col(Copied(x, Orders, row).value, "amount_minor")) == OrderAmount(x, row)
  {
    hide Project, Key, Reencoding.ReadableRow, Rewritten, Reencoding.Recoded;
    var c := Project(x.src, Orders, row);
    AmountProjected(x.src, row);
    AmountName();
    forall customer { RewrittenColumn(x, c, customer, "amount_minor"); }
  }

  lemma AmountName()
    ensures "amount_minor" != "customer_id"
  {
    assert "amount_minor"[0] != "customer_id"[0];
  }

  lemma AmountsMore(rows: seq<Columns>, c: Columns)
    ensures Amounts(rows + [c]) == Amounts(rows) + Int(Col(c, "amount_minor"))
  {
    assert (rows + [c])[..|rows|] == rows;
  }

  lemma {:induction false} AmountsOfCopies(x: Inputs, n: nat)
    requires n <= |Rows(x.src, Orders)| && Transformable(x, ORDERS)
    ensures Amounts(Copies(x, ORDERS, n)) == AmountsUpTo(x, n)
  {
    hide Copied, OrderAmount, Amounts;
    if n == 0 {
      NothingSummed();
    } else {
      var row := Rows(x.src, Orders)[n - 1];
      AmountsOfCopies(x, n - 1);
      if HasProduct(row) {
        CopiedAmount(x, row);
        AmountsMore(Copies(x, ORDERS, n - 1), Copied(x, Orders, row).value);
      } else {
        assert Copies(x, ORDERS, n - 1) + [] == Copies(x, ORDERS, n - 1);
      }
    }
  }

  lemma NothingSummed()
    ensures Amounts([]) == 0
  {
  }

  /** The total that is reconciled is the total of the source's product orders. */
  lemma TotalAfter(x: Inputs)
    requires Permitted(x)
    ensures Amounts(TableOf(After(x), Orders)) == SourceTotal(x)
  {
    hide Copied, Amounts, Copies, AmountsUpTo, After, RequiredIdentities, CustomerIDs, Transformable;
    assert COPIED[5] == ORDERS && Transformable(x, COPIED[5]);
    TableIsCopied(x, ORDERS);
    AmountsOfCopies(x, |Rows(x.src, Orders)|);
  }

  // ----- The lists whose lengths are taken

  lemma ContentReadable(c: Columns)
    ensures ListsReadable(FixedContent(c))
  {
  }

  /** Whatever the source's agents hold, the copies can be measured. */
  lemma AgentsReadable(x: Inputs)
    ensures forall c :: c in TableOf(After(x), AgentConfigurations) ==> AgentReadable(c)
  {
    hide Plan, Writes, Project, Keep, FixedContent, ListsReadable;
    forall c | c in TableOf(After(x), AgentConfigurations) ensures AgentReadable(c) {
      RowsAfter(x, AgentConfigurations, c);
      var spec, row := InsertedRow(x, AgentConfigurations, c);
      SpecOf(spec, AgentConfigurations);
      AgentColumns(x.src, row);
      ContentReadable(row.columns);
    }
  }

  /** The target of a permitted walk passes the reconciliation exactly when the order total is a bigint. */
  lemma ReconcilableIff(x: Inputs)
    requires Permitted(x) && GatesClosed(After(x))
    ensures Reconcilable(After(x)) <==> Bigint(SourceTotal(x))
  {
    hide GatesClosed, Permitted, After, SourceTotal, AgentReadable, Amounts, Bigint;
    TotalAfter(x);
    AgentsReadable(x);
  }
}
