/** The rows handed to the pass: every submission, then every product order without a customer,
    each with the existing customers its identities match
    (resolveQuestionnaireCustomers in cmd/aicrm-whitelist-import/importer.go). */
module SubjectRows {
  import opened Wrappers
  import opened Snapshot
  import opened CopyRules
  import opened References
  import Decimal
  import Sets

  /** A text column that is never NULL. */
  function Word(c: Columns, column: string): string {
    Str(Col(c, column))
  }

  predicate SubmissionMatches(submission: Columns, identity: Columns) {
    var kind, value := Word(identity, "kind"), Word(identity, "normalized_value");
    && Col(identity, "customer_id") != Null
    && ((Word(submission, "unionid") != "" && kind == "unionid" && value == Word(submission, "unionid"))
        || (Word(submission, "external_userid") != "" && kind == "wecom_external_userid" && value == Word(submission, "external_userid"))
        || (Word(submission, "openid") != "" && kind in {"mp_openid", "oa_openid"} && value == Word(submission, "openid"))
        || (Word(submission, "mobile") != "" && kind == "phone" && value == Word(submission, "mobile")))
  }

  predicate OrderMatches(order: Columns, identity: Columns) {
    var kind, value := Word(identity, "kind"), Word(identity, "normalized_value");
    && Col(identity, "customer_id") != Null && value == Word(order, "identity_value")
    && ((Word(order, "identity_kind") == "unionid" && kind == "unionid")
        || (Word(order, "identity_kind") in {"external_userid", "userid"} && kind == "wecom_external_userid"))
  }

  function SubmissionCustomers(src: Snapshot, submission: Columns): set<int> {
    set i | i in Rows(src, Identities) && SubmissionMatches(submission, i.columns) :: Int(Col(i.columns, "customer_id"))
  }

  function OrderCustomers(src: Snapshot, order: Columns): set<int> {
    set i | i in Rows(src, Identities) && OrderMatches(order, i.columns) :: Int(Col(i.columns, "customer_id"))
  }

  /** min(customer_id), left at zero when there is none. */
  ghost function Minimum(ids: set<int>): int {
    if ids == {} then 0 else Sets.Least(ids)
  }

  ghost function SubmissionRow(src: Snapshot, c: Columns): Row {
    var ids := SubmissionCustomers(src, c);
    Row("questionnaire", Int(Col(c, "id")), |ids|, Minimum(ids), Word(c, "unionid"), Word(c, "external_userid"), Word(c, "openid"),
        Word(c, "mobile"), Int(Col(c, "created_at")))
  }

  ghost function OrderRow(src: Snapshot, c: Columns): Row {
    var ids, kind, value := OrderCustomers(src, c), Word(c, "identity_kind"), Word(c, "identity_value");
    Row("order", Int(Col(c, "id")), |ids|, Minimum(ids), if kind == "unionid" then value else "",
        if kind in {"external_userid", "userid"} then value else "", "", "", Int(Col(c, "created_at")))
  }

  predicate Unassigned(order: SourceRow) {
    HasProduct(order) && Col(order.columns, "customer_id") == Null
  }

  predicate SupportedKind(order: Columns) {
    Word(order, "identity_kind") in {"unionid", "external_userid", "userid"} || Word(order, "identity_value") == ""
  }

  ghost function SubmissionRows(src: Snapshot, rows: seq<SourceRow>): seq<Row> {
    if rows == [] then [] else SubmissionRows(src, rows[..|rows| - 1]) + [SubmissionRow(src, rows[|rows| - 1].columns)]
  }

  ghost function OrderRows(src: Snapshot, rows: seq<SourceRow>): seq<Row> {
    if rows == [] then []
    else
      var front := OrderRows(src, rows[..|rows| - 1]);
      if Unassigned(rows[|rows| - 1]) then front + [OrderRow(src, rows[|rows| - 1].columns)] else front
  }

  ghost function SubjectRowsOf(src: Snapshot): seq<Row> {
    SubmissionRows(src, Rows(src, Submissions)) + OrderRows(src, Rows(src, Orders))
  }

  predicate AllKindsSupported(src: Snapshot) {
    forall o :: o in Rows(src, Orders) && Unassigned(o) ==> SupportedKind(o.columns)
  }

  /** COALESCE(max(id), 0) over the source customers. */
  function MaxCustomerID(rows: seq<SourceRow>): int {
    if rows == [] then 0
    else
      var last := Int(Col(rows[|rows| - 1].columns, "id"));
      if |rows| == 1 then last
      else
        var rest := MaxCustomerID(rows[..|rows| - 1]);
        if last > rest then last else rest
  }

  /** Foreign keys of the source: a bound identity names a customer row. */
  predicate IdentitiesReal(src: Snapshot) {
    forall i :: i in Rows(src, Identities) && Col(i.columns, "customer_id") != Null
                ==> Exists(Rows(src, Customers), "id", Col(i.columns, "customer_id"))
  }

  /** Generated identity columns: ids are positive 64-bit integers. */
  predicate PositiveIDs(rows: seq<SourceRow>) {
    forall r :: r in rows ==> Col(r.columns, "id").Num? && 1 <= Col(r.columns, "id").n <= Decimal.MAX_INT64
  }

  lemma {:induction false} MaximumBounds(rows: seq<SourceRow>, r: SourceRow)
    requires r in rows
    ensures Int(Col(r.columns, "id")) <= MaxCustomerID(rows)
  {
    var front := rows[..|rows| - 1];
    if r != rows[|rows| - 1] {
      assert rows == front + [rows[|rows| - 1]];
      MaximumBounds(front, r);
    }
  }

  lemma {:induction false} MaximumNotNegative(rows: seq<SourceRow>)
    requires PositiveIDs(rows)
    ensures MaxCustomerID(rows) >= 0
  {
    if rows != [] { MaximumBounds(rows, rows[0]); }
  }

  lemma MinimumMember(ids: set<int>)
    requires |ids| == 1
    ensures Minimum(ids) in ids
  {
    assert ids != {};
  }

  lemma {:induction false} SubmissionRowOf(src: Snapshot, rows: seq<SourceRow>, r: Row) returns (s: SourceRow)
    requires r in SubmissionRows(src, rows)
    ensures s in rows && r == SubmissionRow(src, s.columns)
  {
    hide SubmissionRow;
    s := rows[|rows| - 1];
    if r != SubmissionRow(src, s.columns) {
      s := SubmissionRowOf(src, rows[..|rows| - 1], r);
    }
  }

  lemma {:induction false} OrderRowOf(src: Snapshot, rows: seq<SourceRow>, r: Row) returns (s: SourceRow)
    requires r in OrderRows(src, rows)
    ensures s in rows && Unassigned(s) && r == OrderRow(src, s.columns)
  {
    hide OrderRow, Unassigned;
    s := rows[|rows| - 1];
    if !Unassigned(s) || r != OrderRow(src, s.columns) {
      s := OrderRowOf(src, rows[..|rows| - 1], r);
    }
  }

  /** Under the foreign keys, a row's single match names a customer row. */
  lemma MatchIsReal(src: Snapshot, r: Row)
    requires IdentitiesReal(src) && PositiveIDs(Rows(src, Customers)) && PositiveIDs(Rows(src, Identities))
    requires forall i :: i in Rows(src, Identities) ==> Col(i.columns, "customer_id").Num? || Col(i.columns, "customer_id").Null?
    requires r in SubjectRowsOf(src) && Matched(r)
    ensures Exists(Rows(src, Customers), "id", Num(r.existingCustomer))
    ensures 1 <= r.existingCustomer <= MaxCustomerID(Rows(src, Customers))
  {
    hide SubmissionMatches, OrderMatches, Of, Unassigned, MaxCustomerID, Minimum;
    if r in SubmissionRows(src, Rows(src, Submissions)) {
      var s := SubmissionRowOf(src, Rows(src, Submissions), r);
      MinimumMember(SubmissionCustomers(src, s.columns));
      MatchesAreBound(src, s.columns, r.existingCustomer);
    } else {
      var s := OrderRowOf(src, Rows(src, Orders), r);
      MinimumMember(OrderCustomers(src, s.columns));
      MatchesAreBound(src, s.columns, r.existingCustomer);
    }
    MatchIdentity(src, r.existingCustomer);
    var c :| c in Rows(src, Customers) && Equal(Col(c.columns, "id"), Num(r.existingCustomer));
    MaximumBounds(Rows(src, Customers), c);
  }

  ghost predicate Bound(src: Snapshot, id: int) {
    exists i :: i in Rows(src, Identities) && Col(i.columns, "customer_id") != Null && Int(Col(i.columns, "customer_id")) == id
  }

  lemma MatchesAreBound(src: Snapshot, c: Columns, id: int)
    ensures id in SubmissionCustomers(src, c) || id in OrderCustomers(src, c) ==> Bound(src, id)
  {
    if id in SubmissionCustomers(src, c) {
      var i :| i in Rows(src, Identities) && SubmissionMatches(c, i.columns) && Int(Col(i.columns, "customer_id")) == id;
    } else if id in OrderCustomers(src, c) {
      var i :| i in Rows(src, Identities) && OrderMatches(c, i.columns) && Int(Col(i.columns, "customer_id")) == id;
    }
  }

  lemma MatchIdentity(src: Snapshot, id: int)
    requires IdentitiesReal(src) && Bound(src, id)
    requires forall i :: i in Rows(src, Identities) ==> Col(i.columns, "customer_id").Num? || Col(i.columns, "customer_id").Null?
    ensures Exists(Rows(src, Customers), "id", Num(id))
  {
    var i :| i in Rows(src, Identities) && Col(i.columns, "customer_id") != Null && Int(Col(i.columns, "customer_id")) == id;
    assert Col(i.columns, "customer_id") == Num(id);
  }

  // ----- Building the rows

  method MinimumOf(ids: set<int>) returns (m: int)
    ensures m == Minimum(ids)
  {
    m := 0;
    if ids == {} { return; }
    var rest := ids;
    var first := true;
    while rest != {}
      invariant rest <= ids && (first <==> rest == ids)
      invariant !first ==> m in ids && forall i :: i in ids - rest ==> m <= i
      decreases |rest|
    {
      var id := Sets.Any(rest);
      assert |rest - {id}| == |rest| - 1;
      assert forall i :: i in ids - (rest - {id}) ==> i == id || i in ids - rest;
      if first || id < m { m := id; }
      rest := rest - {id};
      first := false;
    }
    assert Sets.IsLeast(ids, Sets.Least(ids)) && Sets.Least(ids) in ids - rest;
  }

  /** The first query: the submissions. */
  method ReadSubmissions(src: Snapshot) returns (rows: seq<Row>)
    ensures rows == SubmissionRows(src, Rows(src, Submissions))
  {
    hide SubmissionCustomers, Minimum;
    rows := [];
    var submissions := Rows(src, Submissions);
    for i := 0 to |submissions|
      invariant rows == SubmissionRows(src, submissions[..i])
    {
      assert submissions[..i + 1][..i] == submissions[..i];
      var c := submissions[i].columns;
      var ids := SubmissionCustomers(src, c);
      var minimum := MinimumOf(ids);
      rows := rows + [Row("questionnaire", Int(Col(c, "id")), |ids|, minimum, Word(c, "unionid"), Word(c, "external_userid"),
                          Word(c, "openid"), Word(c, "mobile"), Int(Col(c, "created_at")))];
    }
    assert submissions[..|submissions|] == submissions;
  }

  /** One unassigned order; an identity of another kind is an error unless its value is empty. */
  method ReadOrder(src: Snapshot, c: Columns) returns (row: Option<Row>)
    ensures row == if SupportedKind(c) then Some(OrderRow(src, c)) else None
  {
    hide OrderCustomers, Minimum;
    var ids, kind, value := OrderCustomers(src, c), Word(c, "identity_kind"), Word(c, "identity_value");
    var minimum := MinimumOf(ids);
    var unionID, externalUserID := "", "";
    if kind == "unionid" {
      unionID := value;
    } else if kind == "external_userid" || kind == "userid" {
      externalUserID := value;
    } else if value != "" {
      return None;
    }
    row := Some(Row("order", Int(Col(c, "id")), |ids|, minimum, unionID, externalUserID, "", "", Int(Col(c, "created_at"))));
  }
}
