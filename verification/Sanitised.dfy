/** What copied orders and submissions keep of their source rows: no identity of the buyer or the
    respondent, the customer they were given, and everything else as it was except numbers that do not
    survive being read into a Go map and printed again
    (whitelistCopySpecs, addOrderCustomer and addSubmissionCustomer in cmd/aicrm-whitelist-import/importer.go). */
module Sanitised {
  import opened Wrappers
  import opened Snapshot
  import opened CopyRules
  import opened Target
  import opened ImportPlan
  import opened ImportEffects
  import opened ImportGates
  import Decimal
  import ImportTables
  import Reencoding

  const ORDER_IDENTITY := {"payer_name_snapshot", "mobile_snapshot", "identity_kind", "identity_value"}

  const RESPONDENT_IDENTITY :=
    {"respondent_key", "openid", "unionid", "external_userid", "customer_name", "follow_user_userid", "mobile", "campaign_id", "staff_id"}

  /** A column that is neither blanked nor the customer. */
  predicate Content(identity: set<string>, k: string) {
    k !in identity && k != "customer_id"
  }

  /** The columns named are blank and the customer is the one given. */
  ghost predicate Stripped(identity: set<string>, customer: int, copy: Columns) {
    (forall k :: k in identity ==> Col(copy, k) == BLANK) && Col(copy, "customer_id") == Num(customer)
  }

  /** All other columns are as in the source. */
  ghost predicate Unchanged(identity: set<string>, source: Columns, copy: Columns) {
    forall k :: Content(identity, k) ==> Col(copy, k) == Col(source, k)
  }

  /** All other columns are what encoding/json makes of those in the source. */
  ghost predicate Reread(printer: Reencoding.Printer, identity: set<string>, source: Columns, copy: Columns) {
    forall k :: Content(identity, k) ==> Col(copy, k) == Reencoding.Recoded(printer, Col(source, k))
  }

  /** Every number in the other columns of the source is printed as it was. */
  ghost predicate KeepsNumbers(printer: Reencoding.Printer, identity: set<string>, source: Columns) {
    forall k :: Content(identity, k) ==> Reencoding.Kept(printer, Col(source, k))
  }

  /** The database had given the order its customer. */
  predicate HasCustomer(row: SourceRow) {
    Col(row.columns, "customer_id") != Null
  }

  lemma RereadUnchanged(printer: Reencoding.Printer, identity: set<string>, source: Columns, copy: Columns)
    requires Reread(printer, identity, source, copy)
    ensures Unchanged(identity, source, copy) <==> KeepsNumbers(printer, identity, source)
  {
    hide Reencoding.Recoded, Reencoding.Kept, Col, Content;
    forall k { Reencoding.RecodedIff(printer, Col(source, k)); }
  }

  lemma OrderProjection(src: Snapshot, row: SourceRow)
    ensures forall k :: k in ORDER_IDENTITY ==> Col(Project(src, Orders, row), k) == BLANK
    ensures forall k :: k !in ORDER_IDENTITY ==> Col(Project(src, Orders, row), k) == Col(row.columns, k)
  {
  }

  lemma SubmissionProjection(src: Snapshot, row: SourceRow)
    ensures forall k :: k in RESPONDENT_IDENTITY ==> Col(Project(src, Submissions, row), k) == BLANK
    ensures forall k :: k !in RESPONDENT_IDENTITY ==> Col(Project(src, Submissions, row), k) == Col(row.columns, k)
  {
  }

  lemma Rewriting(x: Inputs, p: Columns, customer: int)
    ensures forall k :: k != "customer_id" ==> Col(Rewritten(x, p, customer), k) == Reencoding.Recoded(x.printer, Col(p, k))
  {
    hide Rewritten, Col, Reencoding.Recoded;
    forall k | k != "customer_id" { ImportTables.RewrittenColumn(x, p, customer, k); }
  }

  lemma BlankAgain(printer: Reencoding.Printer)
    ensures Reencoding.Recoded(printer, BLANK) == BLANK
  {
  }

  /** An order that has its customer is passed on as it came; every other one is rewritten. */
  lemma OrderTransform(x: Inputs, row: SourceRow, p: Columns, c: Columns)
    requires Transform(x, Orders, Key(Orders, row), p) == Some(c)
    ensures if Col(p, "customer_id") != Null then c == p else exists customer :: c == Rewritten(x, p, customer)
  {
    hide Reencoding.ReadableRow, Rewritten, Key;
  }

  lemma SubmissionTransform(x: Inputs, row: SourceRow, p: Columns, c: Columns)
    requires Transform(x, Submissions, Key(Submissions, row), p) == Some(c)
    ensures exists customer :: c == Rewritten(x, p, customer)
  {
    hide Reencoding.ReadableRow, Rewritten, Key;
  }

  lemma NotCustomer()
    ensures "customer_id" !in ORDER_IDENTITY && "customer_id" !in RESPONDENT_IDENTITY
  {
  }

  /** Every order in the target is a product order stripped of the buyer's identity. Its other columns are
      unchanged exactly when it had its customer, or every number in them is printed as it was. */
  lemma OrdersAnonymous(x: Inputs, c: Columns) returns (row: SourceRow)
    requires Typed(x.src) && InsertRow(Orders, c) in Writes(Plan(x))
    ensures row in Rows(x.src, Orders) && HasProduct(row)
    ensures Stripped(ORDER_IDENTITY, OrderCustomer(x, row), c)
    ensures if HasCustomer(row) then Unchanged(ORDER_IDENTITY, row.columns, c) else Reread(x.printer, ORDER_IDENTITY, row.columns, c)
    ensures Unchanged(ORDER_IDENTITY, row.columns, c) <==> HasCustomer(row) || KeepsNumbers(x.printer, ORDER_IDENTITY, row.columns)
  {
    hide Plan, Writes, Project, Transform, Key, OrderCustomer, HasProduct, Rewritten, Unchanged, KeepsNumbers, Col, Reencoding.Recoded;
    var spec;
    spec, row := InsertedRow(x, Orders, c);
    SpecOf(spec, Orders);
    OrderCustomerCopied(x, row, c);
    NotCustomer();
    OrderColumns(x, row, c);
    if !HasCustomer(row) { RereadUnchanged(x.printer, ORDER_IDENTITY, row.columns, c); }
  }

  lemma OrderColumns(x: Inputs, row: SourceRow, c: Columns)
    requires Copied(x, Orders, row) == Some(c)
    ensures forall k :: k in ORDER_IDENTITY ==> Col(c, k) == BLANK
    ensures if HasCustomer(row) then Unchanged(ORDER_IDENTITY, row.columns, c) else Reread(x.printer, ORDER_IDENTITY, row.columns, c)
  {
    hide Project, Transform, Key, Rewritten, Col, Reencoding.Recoded;
    var p := Project(x.src, Orders, row);
    OrderProjection(x.src, row);
    OrderTransform(x, row, p, c);
    NotCustomer();
    BlankAgain(x.printer);
    forall customer { Rewriting(x, p, customer); }
  }

  /** Every submission in the target is stripped of the respondent's identity. Its other columns are
      unchanged exactly when every number in them is printed as it was. */
  lemma SubmissionsAnonymous(x: Inputs, c: Columns) returns (row: SourceRow)
    requires Typed(x.src) && InsertRow(Submissions, c) in Writes(Plan(x))
    ensures row in Rows(x.src, Submissions) && Int(Col(row.columns, "id")) in x.subjects.bySubmission
    ensures Stripped(RESPONDENT_IDENTITY, x.subjects.bySubmission[Int(Col(row.columns, "id"))], c)
    ensures Reread(x.printer, RESPONDENT_IDENTITY, row.columns, c)
    ensures Unchanged(RESPONDENT_IDENTITY, row.columns, c) <==> KeepsNumbers(x.printer, RESPONDENT_IDENTITY, row.columns)
  {
    hide Plan, Writes, Project, Transform, Key, Rewritten, Unchanged, KeepsNumbers, Col, Reencoding.Recoded;
    var spec;
    spec, row := InsertedRow(x, Submissions, c);
    SpecOf(spec, Submissions);
    SubmissionCustomerCopied(x, row, c);
    NotCustomer();
    SubmissionColumns(x, row, c);
    RereadUnchanged(x.printer, RESPONDENT_IDENTITY, row.columns, c);
  }

  lemma SubmissionColumns(x: Inputs, row: SourceRow, c: Columns)
    requires Copied(x, Submissions, row) == Some(c)
    ensures forall k :: k in RESPONDENT_IDENTITY ==> Col(c, k) == BLANK
    ensures Reread(x.printer, RESPONDENT_IDENTITY, row.columns, c)
  {
    hide Project, Transform, Key, Rewritten, Col, Reencoding.Recoded;
    var p := Project(x.src, Submissions, row);
    SubmissionProjection(x.src, row);
    SubmissionTransform(x, row, p, c);
    NotCustomer();
    BlankAgain(x.printer);
    forall customer { Rewriting(x, p, customer); }
  }

  // ----- A condition on the source alone, and the first amount that is lost

  /** Numbers up to 2^53 are always kept. */
  lemma SmallNumbersKept(printer: Reencoding.Printer, identity: set<string>, source: Columns)
    requires Reencoding.PrintsExactly(printer) && forall k :: Content(identity, k) ==> Reencoding.Small(Col(source, k))
    ensures KeepsNumbers(printer, identity, source)
  {
    hide Content, Col, Reencoding.PrintsExactly, Reencoding.Kept, Reencoding.Small;
    forall k | Content(identity, k) { Reencoding.SmallKept(printer, Col(source, k)); }
  }

  const LOST_AMOUNT := 9007199254740993

  function TheOrder(): SourceRow {
    SourceRow(map["id" := Num(3), "product_id" := Num(5), "amount_minor" := Num(LOST_AMOUNT)], "{3}")
  }

  lemma TheColumns(src: Snapshot)
    ensures var p := Project(src, Orders, TheOrder());
            Col(p, "amount_minor") == Num(LOST_AMOUNT) && Col(p, "customer_id") == Null && Reencoding.ReadableRow(p)
    ensures HasProduct(TheOrder()) && PrimaryKey(Orders, TheOrder()) == [Num(3)] && Col(TheOrder().columns, "amount_minor") == Num(LOST_AMOUNT)
  {
    hide Reencoding.ReadableRow;
    Reencoding.WordsReadable(Project(src, Orders, TheOrder()));
  }

  /** An order without a customer arrives with an amount that is one smaller. */
  lemma AmountLost(x: Inputs) returns (c: Columns)
    requires Reencoding.PrintsExactly(x.printer) && 3 in x.subjects.byOrder && TheOrder() in Rows(x.src, Orders)
    ensures InsertRow(Orders, c) in Writes(Plan(x)) && Col(TheOrder().columns, "amount_minor") == Num(LOST_AMOUNT)
    ensures Col(c, "amount_minor") == Num(LOST_AMOUNT - 1)
  {
    hide Plan, Writes, Project, PrimaryKey, TheOrder, HasProduct, Rows, Reencoding.ReadableRow, Rewritten, Col, Decimal.ParseInt, Decimal.FormatInt,
      Reencoding.PrintsExactly, Reencoding.Nearest;
    var p := Project(x.src, Orders, TheOrder());
    TheColumns(x.src);
    Decimal.ParseOfFormat(3);
    c := Rewritten(x, p, x.subjects.byOrder[3]);
    assert Copied(x, Orders, TheOrder()) == Some(c);
    assert COPIED[5] == ImportTables.ORDERS;
    KeptRowInserted(x, ImportTables.ORDERS, TheOrder());
    ImportTables.AmountName();
    ImportTables.RewrittenColumn(x, p, x.subjects.byOrder[3], "amount_minor");
    Reencoding.FirstLoss(x.printer);
  }
}
