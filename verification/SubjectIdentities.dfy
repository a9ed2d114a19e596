/** What the resolution of a snapshot means for its submissions and orders, in terms of the identity rows
    (resolveQuestionnaireCustomers in cmd/aicrm-whitelist-import/importer.go). */
module SubjectIdentities {
  import opened Wrappers
  import opened Snapshot
  import opened References
  import opened Resolution
  import opened ResolutionPass
  import opened SubjectRows
  import Decimal
  import Sets
  import SubjectFacts

  // ----- Submissions and orders that need a customer

  datatype Subject = SubmissionSubject(row: SourceRow) | OrderSubject(row: SourceRow)

  /** A submission of the snapshot, or a product order of it without a customer. */
  predicate IsSubject(src: Snapshot, t: Subject) {
    match t
    case SubmissionSubject(s) => s in Rows(src, Submissions)
    case OrderSubject(o) => o in Rows(src, Orders) && Col(o.columns, "product_id") != Null && Col(o.columns, "customer_id") == Null
  }

  function IdOf(t: Subject): int {
    Int(Col(t.row.columns, "id"))
  }

  function MadeAt(t: Subject): int {
    Int(Col(t.row.columns, "created_at"))
  }

  /** The customer a resolution gives it. */
  predicate Gets(subjects: Subjects, t: Subject, k: int) {
    match t
    case SubmissionSubject(_) => IdOf(t) in subjects.bySubmission && subjects.bySubmission[IdOf(t)] == k
    case OrderSubject(_) => IdOf(t) in subjects.byOrder && subjects.byOrder[IdOf(t)] == k
  }

  predicate BoundTo(identity: SourceRow, k: int) {
    Col(identity.columns, "customer_id") == Num(k)
  }

  /** The identity is one the submission gives. */
  predicate SubmissionHas(s: Columns, identity: Columns) {
    var value, kind := Col(identity, "normalized_value"), Col(identity, "kind");
    && value != Text("")
    && (|| (kind == Text("unionid") && Col(s, "unionid") == value)
        || (kind == Text("wecom_external_userid") && Col(s, "external_userid") == value)
        || ((kind == Text("mp_openid") || kind == Text("oa_openid")) && Col(s, "openid") == value)
        || (kind == Text("phone") && Col(s, "mobile") == value))
  }

  predicate OrderHas(o: Columns, identity: Columns) {
    var kind := Col(identity, "kind");
    && Col(o, "identity_value") == Col(identity, "normalized_value")
    && (|| (Col(o, "identity_kind") == Text("unionid") && kind == Text("unionid"))
        || (Col(o, "identity_kind") in {Text("external_userid"), Text("userid")} && kind == Text("wecom_external_userid")))
  }

  predicate Has(t: Subject, identity: SourceRow) {
    match t
    case SubmissionSubject(s) => SubmissionHas(s.columns, identity.columns)
    case OrderSubject(o) => OrderHas(o.columns, identity.columns)
  }

  predicate Names(entity: string, value: Json, r: Reference) {
    r.entity == entity && r.value != "" && value == Text(r.value)
  }

  predicate SubmissionNames(s: Columns, r: Reference) {
    || Names("unionid", Col(s, "unionid"), r) || Names("wecom_external_userid", Col(s, "external_userid"), r)
    || Names("openid", Col(s, "openid"), r) || Names("phone", Col(s, "mobile"), r)
    || (Col(s, "unionid") == Col(s, "external_userid") == Col(s, "openid") == Col(s, "mobile") == Text("")
        && r == Reference("questionnaire_submission", Decimal.FormatInt(Int(Col(s, "id")))))
  }

  predicate OrderNames(o: Columns, r: Reference) {
    || (Col(o, "identity_kind") == Text("unionid") && Names("unionid", Col(o, "identity_value"), r))
    || (Col(o, "identity_kind") in {Text("external_userid"), Text("userid")} && Names("wecom_external_userid", Col(o, "identity_value"), r))
    || (Col(o, "identity_value") == Text("") && r == Reference("order", Decimal.FormatInt(Int(Col(o, "id")))))
  }

  /** The reference is one the submission or order gives. */
  predicate Refers(t: Subject, r: Reference) {
    match t
    case SubmissionSubject(s) => SubmissionNames(s.columns, r)
    case OrderSubject(o) => OrderNames(o.columns, r)
  }

  predicate Invented(subjects: Subjects, k: int) {
    exists y :: y in subjects.synthetic && y.id == k
  }

  // ----- What a resolution promises

  /** Everyone gets a customer; whoever has a bound identity gets the customer it is bound to, and an
      existing customer is given only where someone who gets it has an identity bound to it. */
  ghost predicate IdentitiesDecide(src: Snapshot, subjects: Subjects) {
    && (forall t :: IsSubject(src, t) ==> exists k :: Gets(subjects, t, k))
    && (forall t, i, k :: IsSubject(src, t) && i in Rows(src, Identities) && BoundTo(i, k) && Has(t, i) ==> Gets(subjects, t, k))
    && (forall t, k :: IsSubject(src, t) && Gets(subjects, t, k) && !Invented(subjects, k) ==>
          exists u, i :: IsSubject(src, u) && Gets(subjects, u, k) && i in Rows(src, Identities) && BoundTo(i, k) && Has(u, i))
  }

  /** A reference is listed for a customer exactly when one of its submissions or orders gives it. */
  ghost predicate ListedRight(src: Snapshot, subjects: Subjects, k: int, r: Reference) {
    (k in subjects.references && r in subjects.references[k]) <==> exists t :: IsSubject(src, t) && Gets(subjects, t, k) && Refers(t, r)
  }

  ghost predicate ReferencesExact(src: Snapshot, subjects: Subjects) {
    forall k, r :: ListedRight(src, subjects, k, r)
  }

  /** An invented customer has the time of one of its submissions or orders, and the latest of any. */
  ghost predicate TimesExact(src: Snapshot, subjects: Subjects) {
    forall y :: y in subjects.synthetic ==>
      && (exists t :: IsSubject(src, t) && Gets(subjects, t, y.id) && MadeAt(t) == y.createdAt)
      && (exists t :: IsSubject(src, t) && Gets(subjects, t, y.id) && MadeAt(t) == y.updatedAt)
      && (forall t :: IsSubject(src, t) && Gets(subjects, t, y.id) ==> MadeAt(t) <= y.updatedAt)
  }

  /** An order's identity is of one of three kinds, or empty. */
  predicate KindKnown(o: Columns) {
    Col(o, "identity_kind") in {Text("unionid"), Text("external_userid"), Text("userid")} || Col(o, "identity_value") == Text("")
  }

  /** No order comes with an identity of another kind. */
  ghost predicate KindsKnown(src: Snapshot) {
    forall o :: IsSubject(src, OrderSubject(o)) ==> KindKnown(o.columns)
  }

  // ----- The schema

  predicate OnePerId(rows: seq<SourceRow>) {
    forall a, b :: a in rows && b in rows && Col(a.columns, "id") == Col(b.columns, "id") ==> a == b
  }

  predicate TextColumns(rows: seq<SourceRow>, names: set<string>) {
    forall r, name :: r in rows && name in names ==> Col(r.columns, name).Text?
  }

  /** Primary keys, the foreign key of identities, and columns that are never NULL. */
  predicate Schema(src: Snapshot) {
    && PositiveIDs(Rows(src, Customers)) && PositiveIDs(Rows(src, Identities)) && PositiveIDs(Rows(src, Submissions)) && PositiveIDs(Rows(src, Orders))
    && OnePerId(Rows(src, Submissions)) && OnePerId(Rows(src, Orders))
    && (forall i :: i in Rows(src, Identities) ==> Col(i.columns, "customer_id").Num? || Col(i.columns, "customer_id").Null?)
    && IdentitiesReal(src)
    && TextColumns(Rows(src, Identities), {"kind", "normalized_value"})
    && TextColumns(Rows(src, Submissions), {"unionid", "external_userid", "openid", "mobile"})
    && TextColumns(Rows(src, Orders), {"identity_kind", "identity_value"})
  }

  // ----- Rows of the pass and what they stand for

  ghost function RowOf(src: Snapshot, t: Subject): Row {
    match t
    case SubmissionSubject(s) => SubmissionRow(src, s.columns)
    case OrderSubject(o) => OrderRow(src, o.columns)
  }

  lemma KindOfRow(src: Snapshot, t: Subject)
    ensures RowOf(src, t).submissionID == IdOf(t) && (IsOrder(RowOf(src, t)) <==> t.OrderSubject?) && RowOf(src, t).createdAt == MadeAt(t)
  {
    hide SubmissionCustomers, OrderCustomers, Minimum, Col;
    assert |"questionnaire"| != |"order"|;
  }

  lemma {:induction false} SubmissionAmong(src: Snapshot, rows: seq<SourceRow>, s: SourceRow)
    requires s in rows
    ensures SubmissionRow(src, s.columns) in SubmissionRows(src, rows)
  {
    hide SubmissionRow;
    if s != rows[|rows| - 1] {
      assert rows == rows[..|rows| - 1] + [rows[|rows| - 1]];
      SubmissionAmong(src, rows[..|rows| - 1], s);
    }
  }

  lemma {:induction false} OrderAmong(src: Snapshot, rows: seq<SourceRow>, o: SourceRow)
    requires o in rows && Unassigned(o)
    ensures OrderRow(src, o.columns) in OrderRows(src, rows)
  {
    hide OrderRow, Unassigned;
    if o != rows[|rows| - 1] {
      assert rows == rows[..|rows| - 1] + [rows[|rows| - 1]];
      OrderAmong(src, rows[..|rows| - 1], o);
    }
  }

  lemma UnassignedIs(o: SourceRow)
    ensures Unassigned(o) <==> Col(o.columns, "product_id") != Null && Col(o.columns, "customer_id") == Null
  {
  }

  lemma SubjectHasRow(src: Snapshot, t: Subject)
    requires IsSubject(src, t)
    ensures RowOf(src, t) in SubjectRowsOf(src)
  {
    hide SubmissionRow, OrderRow, SubmissionRows, OrderRows, Rows, Unassigned;
    UnassignedIs(t.row);
    match t
    case SubmissionSubject(s) => SubmissionAmong(src, Rows(src, Submissions), s);
    case OrderSubject(o) => OrderAmong(src, Rows(src, Orders), o);
  }

  lemma RowHasSubject(src: Snapshot, r: Row) returns (t: Subject)
    requires r in SubjectRowsOf(src)
    ensures IsSubject(src, t) && RowOf(src, t) == r
  {
    hide SubmissionRow, OrderRow, SubmissionRows, OrderRows, Rows, Unassigned;
    if r in SubmissionRows(src, Rows(src, Submissions)) {
      var s := SubmissionRowOf(src, Rows(src, Submissions), r);
      t := SubmissionSubject(s);
    } else {
      var o := OrderRowOf(src, Rows(src, Orders), r);
      UnassignedIs(o);
      t := OrderSubject(o);
    }
  }

  lemma {:induction false} KeyedHas(rows: seq<Row>, chosen: seq<int>, n: nat, orders: bool, p: nat)
    requires p < n <= |rows| && n <= |chosen| && IsOrder(rows[p]) == orders
    ensures rows[p].submissionID in Keyed(rows, chosen, n, orders)
  {
    hide IsOrder;
    if p < n - 1 { KeyedHas(rows, chosen, n - 1, orders, p); }
  }

  lemma {:induction false} KeyedFrom(rows: seq<Row>, chosen: seq<int>, n: nat, orders: bool, id: int) returns (q: nat)
    requires n <= |rows| && n <= |chosen| && id in Keyed(rows, chosen, n, orders)
    ensures q < n && IsOrder(rows[q]) == orders && rows[q].submissionID == id && chosen[q] == Keyed(rows, chosen, n, orders)[id]
  {
    hide IsOrder;
    q := n - 1;
    if IsOrder(rows[n - 1]) != orders || rows[n - 1].submissionID != id { q := KeyedFrom(rows, chosen, n - 1, orders, id); }
  }

  lemma OnlyRow(rows: seq<SourceRow>, a: SourceRow, b: SourceRow)
    requires OnePerId(rows) && a in rows && b in rows && Col(a.columns, "id") == Col(b.columns, "id")
    ensures a == b
  {
  }

  lemma SameSubject(src: Snapshot, t: Subject, u: Subject)
    requires Schema(src) && IsSubject(src, t) && IsSubject(src, u) && IdOf(t) == IdOf(u) && (t.OrderSubject? <==> u.OrderSubject?)
    ensures t == u
  {
    hide Rows, TextColumns, IdentitiesReal;
    assert Col(t.row.columns, "id") == Col(u.row.columns, "id");
    match t
    case SubmissionSubject(s) => OnlyRow(Rows(src, Submissions), s, u.row);
    case OrderSubject(o) => OnlyRow(Rows(src, Orders), o, u.row);
  }

  lemma OwnerIs(rows: seq<Row>, maximum: int, p: nat, r: Reference)
    requires MatchesInRange(rows, maximum) && Resolves(rows, maximum) && p < |rows| && r in Of(rows[p])
    ensures |Outcome(rows, maximum).chosen| == |rows| && r in Outcome(rows, maximum).owner
    ensures Outcome(rows, maximum).owner[r] == Outcome(rows, maximum).chosen[p]
  {
    hide Of, Resolve;
    OwnershipHolds(rows, |rows|, maximum);
  }

  lemma SameChosen(rows: seq<Row>, maximum: int, p: nat, q: nat)
    requires MatchesInRange(rows, maximum) && Resolves(rows, maximum) && p < |rows| && q < |rows| && rows[p] == rows[q]
    ensures |Outcome(rows, maximum).chosen| == |rows| && Outcome(rows, maximum).chosen[p] == Outcome(rows, maximum).chosen[q]
  {
    hide Of, Resolve;
    OwnershipHolds(rows, |rows|, maximum);
    OfShape(rows[p]);
    var r := Of(rows[p])[0];
    OwnerIs(rows, maximum, p, r);
    OwnerIs(rows, maximum, q, r);
  }

  /** The resolution of a snapshot. */
  ghost predicate ResolvedTo(src: Snapshot, subjects: Subjects) {
    var rows, maximum := SubjectRowsOf(src), MaxCustomerID(Rows(src, Customers));
    && MatchesInRange(rows, maximum) && Resolves(rows, maximum) && |Outcome(rows, maximum).chosen| == |rows| && subjects == SubjectsOf(rows, maximum)
  }

  ghost function Chosen(src: Snapshot, p: nat): int
    requires Resolves(SubjectRowsOf(src), MaxCustomerID(Rows(src, Customers)))
    requires p < |Outcome(SubjectRowsOf(src), MaxCustomerID(Rows(src, Customers))).chosen|
  {
    Outcome(SubjectRowsOf(src), MaxCustomerID(Rows(src, Customers))).chosen[p]
  }

  /** A subject gets what its row was given. */
  lemma Placed(src: Snapshot, subjects: Subjects, t: Subject, p: nat)
    requires Schema(src) && ResolvedTo(src, subjects) && IsSubject(src, t) && p < |SubjectRowsOf(src)| && SubjectRowsOf(src)[p] == RowOf(src, t)
    ensures Gets(subjects, t, Chosen(src, p))
  {
    hide Schema, Resolves, Outcome, SubjectRowsOf, MaxCustomerID, RowOf, IsSubject, Keyed, IsOrder, MatchesInRange, IdOf, Rows;
    var rows, maximum := SubjectRowsOf(src), MaxCustomerID(Rows(src, Customers));
    var chosen := Outcome(rows, maximum).chosen;
    KindOfRow(src, t);
    KeyedHas(rows, chosen, |rows|, t.OrderSubject?, p);
    var q := KeyedFrom(rows, chosen, |rows|, t.OrderSubject?, IdOf(t));
    var u := RowHasSubject(src, rows[q]);
    KindOfRow(src, u);
    SameSubject(src, t, u);
    SameChosen(rows, maximum, p, q);
  }

  lemma RowAt(src: Snapshot, t: Subject) returns (p: nat)
    requires IsSubject(src, t)
    ensures p < |SubjectRowsOf(src)| && SubjectRowsOf(src)[p] == RowOf(src, t)
  {
    hide SubjectRowsOf, RowOf, IsSubject;
    SubjectHasRow(src, t);
    p :| 0 <= p < |SubjectRowsOf(src)| && SubjectRowsOf(src)[p] == RowOf(src, t);
  }

  lemma GetsOne(subjects: Subjects, t: Subject, j: int, k: int)
    requires Gets(subjects, t, j) && Gets(subjects, t, k)
    ensures j == k
  {
  }

  /** And nothing else. */
  lemma PlacedAs(src: Snapshot, subjects: Subjects, t: Subject, k: int) returns (p: nat)
    requires Schema(src) && ResolvedTo(src, subjects) && IsSubject(src, t) && Gets(subjects, t, k)
    ensures p < |SubjectRowsOf(src)| && SubjectRowsOf(src)[p] == RowOf(src, t) && ResolvedTo(src, subjects) && Chosen(src, p) == k
  {
    hide Schema, Resolves, Outcome, SubjectRowsOf, MaxCustomerID, RowOf, IsSubject, Gets, Rows, MatchesInRange, SubjectsOf;
    p := RowAt(src, t);
    Placed(src, subjects, t, p);
    GetsOne(subjects, t, k, Chosen(src, p));
  }

  // ----- Identities

  ghost function CustomersOf(src: Snapshot, t: Subject): set<int> {
    match t
    case SubmissionSubject(s) => SubmissionCustomers(src, s.columns)
    case OrderSubject(o) => OrderCustomers(src, o.columns)
  }

  predicate SubmissionTexts(s: Columns) {
    Col(s, "unionid").Text? && Col(s, "external_userid").Text? && Col(s, "openid").Text? && Col(s, "mobile").Text?
  }

  predicate OrderTexts(o: Columns) {
    Col(o, "identity_kind").Text? && Col(o, "identity_value").Text?
  }

  predicate IdentityTexts(i: Columns) {
    Col(i, "kind").Text? && Col(i, "normalized_value").Text?
  }

  lemma SubmissionHasIs(s: Columns, i: Columns)
    requires SubmissionTexts(s) && IdentityTexts(i)
    ensures SubmissionMatches(s, i) <==> SubmissionHas(s, i) && Col(i, "customer_id") != Null
  {
  }

  lemma OrderHasIs(o: Columns, i: Columns)
    requires OrderTexts(o) && IdentityTexts(i)
    ensures OrderMatches(o, i) <==> OrderHas(o, i) && Col(i, "customer_id") != Null
  {
  }

  lemma TextsOf(src: Snapshot, t: Subject)
    requires Schema(src) && IsSubject(src, t)
    ensures match t case SubmissionSubject(s) => SubmissionTexts(s.columns) case OrderSubject(o) => OrderTexts(o.columns)
  {
    hide Rows, OnePerId, PositiveIDs, IdentitiesReal, Col;
  }

  lemma IdentityTextsOf(src: Snapshot, i: SourceRow)
    requires Schema(src) && i in Rows(src, Identities)
    ensures IdentityTexts(i.columns) && (Col(i.columns, "customer_id").Num? || Col(i.columns, "customer_id").Null?)
  {
    hide Rows, OnePerId, PositiveIDs, IdentitiesReal, Col;
  }

  /** The customers counted for a subject are those its identities are bound to. */
  lemma CustomersAre(src: Snapshot, t: Subject, k: int)
    requires Schema(src) && IsSubject(src, t)
    ensures k in CustomersOf(src, t) <==> exists i :: i in Rows(src, Identities) && BoundTo(i, k) && Has(t, i)
  {
    hide Schema, Rows, SubmissionMatches, OrderMatches, SubmissionHas, OrderHas, SubmissionTexts, OrderTexts, IdentityTexts, Col;
    TextsOf(src, t);
    forall i | i in Rows(src, Identities)
      ensures BoundTo(i, k) && Has(t, i) <==>
              (match t case SubmissionSubject(s) => SubmissionMatches(s.columns, i.columns) case OrderSubject(o) => OrderMatches(o.columns, i.columns))
              && Int(Col(i.columns, "customer_id")) == k
    {
      IdentityTextsOf(src, i);
      match t
      case SubmissionSubject(s) => SubmissionHasIs(s.columns, i.columns);
      case OrderSubject(o) => OrderHasIs(o.columns, i.columns);
    }
  }

  lemma MatchOfRow(src: Snapshot, t: Subject)
    ensures RowOf(src, t).matchCount == |CustomersOf(src, t)| && RowOf(src, t).existingCustomer == Minimum(CustomersOf(src, t))
  {
    hide SubmissionCustomers, OrderCustomers, Minimum, Col;
  }

  lemma StepValid(before: State, row: Row, maximum: int)
    requires Step(before, row, maximum).Some?
    ensures ValidMatch(row)
  {
    hide CandidateCustomers, Assign, Touch, Own, Merge, Of, ValidMatch;
  }

  lemma {:induction false} AllValid(rows: seq<Row>, n: nat, maximum: int, p: nat)
    requires p < n <= |rows| && Resolve(rows, n, maximum).Some?
    ensures ValidMatch(rows[p])
  {
    hide Step, ValidMatch;
    if p < n - 1 {
      AllValid(rows, n - 1, maximum, p);
    } else {
      StepValid(Resolve(rows, n - 1, maximum).value, rows[p], maximum);
    }
  }

  lemma OnlyMinimum(ids: set<int>, k: int)
    requires |ids| <= 1 && k in ids
    ensures |ids| == 1 && Minimum(ids) == k
  {
    Sets.AtMostOne(ids, k);
    assert Minimum({k}) == k;
  }

  lemma BoundGiven(src: Snapshot, subjects: Subjects, t: Subject, i: SourceRow, k: int)
    requires Schema(src) && ResolvedTo(src, subjects) && IsSubject(src, t) && i in Rows(src, Identities) && BoundTo(i, k) && Has(t, i)
    ensures Gets(subjects, t, k)
  {
    hide Schema, Outcome, SubjectRowsOf, MaxCustomerID, RowOf, IsSubject, Gets, Rows, MatchesInRange, SubjectsOf, CustomersOf, Minimum, Has, BoundTo, Resolve, Of;
    var rows, maximum := SubjectRowsOf(src), MaxCustomerID(Rows(src, Customers));
    var p := RowAt(src, t);
    CustomersAre(src, t, k);
    MatchOfRow(src, t);
    AllValid(rows, |rows|, maximum, p);
    OnlyMinimum(CustomersOf(src, t), k);
    Placed(src, subjects, t, p);
    MatchedRow(src, p);
  }

  /** A matched row is given the customer it matches. */
  lemma MatchedRow(src: Snapshot, p: nat)
    requires var rows, maximum := SubjectRowsOf(src), MaxCustomerID(Rows(src, Customers)); MatchesInRange(rows, maximum) && Resolves(rows, maximum) && p < |rows|
    ensures p < |Outcome(SubjectRowsOf(src), MaxCustomerID(Rows(src, Customers))).chosen|
    ensures Matched(SubjectRowsOf(src)[p]) ==> Chosen(src, p) == SubjectRowsOf(src)[p].existingCustomer
  {
    hide SubjectRowsOf, MaxCustomerID, Rows, Resolve, Of, MatchesInRange, Matched;
    OwnershipHolds(SubjectRowsOf(src), |SubjectRowsOf(src)|, MaxCustomerID(Rows(src, Customers)));
  }

  lemma ExistingOrInvented(src: Snapshot, subjects: Subjects, p: nat)
    requires ResolvedTo(src, subjects) && p < |SubjectRowsOf(src)|
    ensures Chosen(src, p) <= MaxCustomerID(Rows(src, Customers)) || Invented(subjects, Chosen(src, p))
  {
    hide SubjectRowsOf, MaxCustomerID, Rows, Resolve, Of, MatchesInRange, Keyed;
    var rows, maximum := SubjectRowsOf(src), MaxCustomerID(Rows(src, Customers));
    OwnershipHolds(rows, |rows|, maximum);
    var k := Chosen(src, p) - maximum - 1;
    if k >= 0 {
      SubjectFacts.InventedCustomers(rows, |rows|, maximum, k);
      assert subjects.synthetic[k] in subjects.synthetic;
    }
  }

  lemma ExistingBound(src: Snapshot, subjects: Subjects, t: Subject, k: int)
    requires Schema(src) && ResolvedTo(src, subjects) && IsSubject(src, t) && Gets(subjects, t, k) && !Invented(subjects, k)
    ensures exists u, i :: IsSubject(src, u) && Gets(subjects, u, k) && i in Rows(src, Identities) && BoundTo(i, k) && Has(u, i)
  {
    hide Schema, SubjectRowsOf, MaxCustomerID, RowOf, IsSubject, Gets, Rows, MatchesInRange, SubjectsOf, CustomersOf, Minimum, Has, BoundTo, Resolve, Of, Invented;
    var rows, maximum := SubjectRowsOf(src), MaxCustomerID(Rows(src, Customers));
    var p := PlacedAs(src, subjects, t, k);
    ExistingOrInvented(src, subjects, p);
    var m := SubjectFacts.ExistingWasMatched(rows, maximum, p);
    var u := RowHasSubject(src, rows[m]);
    MatchedRow(src, m);
    Placed(src, subjects, u, m);
    MatchOfRow(src, u);
    MinimumMember(CustomersOf(src, u));
    CustomersAre(src, u, k);
    var i :| i in Rows(src, Identities) && BoundTo(i, k) && Has(u, i);
  }

  lemma EveryoneGets(src: Snapshot, subjects: Subjects, t: Subject)
    requires Schema(src) && ResolvedTo(src, subjects) && IsSubject(src, t)
    ensures exists k :: Gets(subjects, t, k)
  {
    hide Schema, SubjectRowsOf, MaxCustomerID, RowOf, IsSubject, Gets, Rows, MatchesInRange, SubjectsOf, Resolves, Outcome;
    var p := RowAt(src, t);
    Placed(src, subjects, t, p);
  }

  // ----- References

  lemma CandidateNames(row: Row, r: Reference)
    ensures r in Present(Candidates(row)) <==>
            r.value != "" && (|| (r.entity == "unionid" && r.value == row.unionID) || (r.entity == "wecom_external_userid" && r.value == row.externalUserID)
                              || (r.entity == "openid" && r.value == row.openID) || (r.entity == "phone" && r.value == row.mobile))
  {
    hide Present;
    PresentElements(Candidates(row), r);
  }

  lemma NothingPresent(row: Row)
    ensures Present(Candidates(row)) == [] <==> row.unionID == row.externalUserID == row.openID == row.mobile == ""
  {
    hide Present, Candidates;
    if Present(Candidates(row)) == [] {
      CandidateNames(row, Reference("unionid", row.unionID));
      CandidateNames(row, Reference("wecom_external_userid", row.externalUserID));
      CandidateNames(row, Reference("openid", row.openID));
      CandidateNames(row, Reference("phone", row.mobile));
    } else {
      CandidateNames(row, Present(Candidates(row))[0]);
    }
  }

  lemma SubmissionRefers(src: Snapshot, s: SourceRow, r: Reference)
    requires SubmissionTexts(s.columns)
    ensures r in Of(SubmissionRow(src, s.columns)) <==> SubmissionNames(s.columns, r)
  {
    hide SubmissionCustomers, Minimum, Present, Candidates, Decimal.FormatInt, IsOrder;
    var row := SubmissionRow(src, s.columns);
    CandidateNames(row, r);
    NothingPresent(row);
    KindOfRow(src, SubmissionSubject(s));
  }

  lemma OrderRefers(src: Snapshot, o: SourceRow, r: Reference)
    requires OrderTexts(o.columns) && SupportedKind(o.columns)
    ensures r in Of(OrderRow(src, o.columns)) <==> OrderNames(o.columns, r)
  {
    hide OrderCustomers, Minimum, Present, Candidates, Decimal.FormatInt, IsOrder;
    var row := OrderRow(src, o.columns);
    CandidateNames(row, r);
    NothingPresent(row);
    KindOfRow(src, OrderSubject(o));
  }

  lemma KindSupported(src: Snapshot, o: SourceRow)
    requires AllKindsSupported(src) && IsSubject(src, OrderSubject(o))
    ensures SupportedKind(o.columns)
  {
    hide SupportedKind, Rows;
    UnassignedIs(o);
  }

  lemma RefersIs(src: Snapshot, t: Subject, r: Reference)
    requires Schema(src) && AllKindsSupported(src) && IsSubject(src, t)
    ensures r in Of(RowOf(src, t)) <==> Refers(t, r)
  {
    hide Schema, AllKindsSupported, SupportedKind, IsSubject, SubmissionRow, OrderRow, SubmissionNames, OrderNames, SubmissionTexts, OrderTexts, Of;
    TextsOf(src, t);
    match t
    case SubmissionSubject(s) => SubmissionRefers(src, s, r);
    case OrderSubject(o) => KindSupported(src, o); OrderRefers(src, o, r);
  }

  lemma ListedBy(src: Snapshot, subjects: Subjects, k: int, r: Reference)
    requires Schema(src) && AllKindsSupported(src) && ResolvedTo(src, subjects)
    ensures ListedRight(src, subjects, k, r)
  {
    hide Schema, AllKindsSupported, SubjectRowsOf, MaxCustomerID, RowOf, IsSubject, Gets, Rows, MatchesInRange, Resolve, Of, Refers, Keyed, Sets.Distinct;
    var rows, maximum := SubjectRowsOf(src), MaxCustomerID(Rows(src, Customers));
    SubjectFacts.ListedReferences(rows, |rows|, maximum, k, r);
    if k in subjects.references && r in subjects.references[k] {
      var p :| 0 <= p < |rows| && Chosen(src, p) == k && r in Of(rows[p]);
      var t := RowHasSubject(src, rows[p]);
      Placed(src, subjects, t, p);
      RefersIs(src, t, r);
    }
    if t :| IsSubject(src, t) && Gets(subjects, t, k) && Refers(t, r) {
      var p := PlacedAs(src, subjects, t, k);
      RefersIs(src, t, r);
    }
  }

  // ----- Times

  lemma TimesOf(src: Snapshot, subjects: Subjects, k: nat)
    requires Schema(src) && ResolvedTo(src, subjects) && k < |subjects.synthetic|
    ensures var y := subjects.synthetic[k];
            && (exists t :: IsSubject(src, t) && Gets(subjects, t, y.id) && MadeAt(t) == y.createdAt)
            && (exists t :: IsSubject(src, t) && Gets(subjects, t, y.id) && MadeAt(t) == y.updatedAt)
            && (forall t :: IsSubject(src, t) && Gets(subjects, t, y.id) ==> MadeAt(t) <= y.updatedAt)
  {
    hide Schema, SubjectRowsOf, MaxCustomerID, RowOf, IsSubject, Gets, Rows, MatchesInRange, Resolve, Keyed, MadeAt;
    var rows, maximum, y := SubjectRowsOf(src), MaxCustomerID(Rows(src, Customers)), subjects.synthetic[k];
    SubjectFacts.InventedCustomers(rows, |rows|, maximum, k);
    forall p | 0 <= p < |rows| && Chosen(src, p) == y.id ensures exists t :: IsSubject(src, t) && Gets(subjects, t, y.id) && MadeAt(t) == rows[p].createdAt {
      var t := RowHasSubject(src, rows[p]);
      Placed(src, subjects, t, p);
      KindOfRow(src, t);
    }
    forall t | IsSubject(src, t) && Gets(subjects, t, y.id) ensures MadeAt(t) <= y.updatedAt {
      var p := PlacedAs(src, subjects, t, y.id);
      KindOfRow(src, t);
    }
  }

  lemma KindIs(o: Columns)
    requires OrderTexts(o)
    ensures SupportedKind(o) <==> KindKnown(o)
  {
  }

  lemma KindsAre(src: Snapshot)
    requires Schema(src)
    ensures AllKindsSupported(src) <==> KindsKnown(src)
  {
    hide Schema, Rows, SupportedKind, KindKnown, OrderTexts, Unassigned, IsSubject;
    forall o ensures IsSubject(src, OrderSubject(o)) <==> o in Rows(src, Orders) && Unassigned(o) { OrderSubjectIs(src, o); }
    forall o | IsSubject(src, OrderSubject(o)) ensures SupportedKind(o.columns) <==> KindKnown(o.columns) {
      TextsOf(src, OrderSubject(o));
      KindIs(o.columns);
    }
    if KindsKnown(src) {
      forall o | o in Rows(src, Orders) && Unassigned(o) ensures SupportedKind(o.columns) { assert IsSubject(src, OrderSubject(o)); }
    }
  }

  lemma OrderSubjectIs(src: Snapshot, o: SourceRow)
    ensures IsSubject(src, OrderSubject(o)) <==> o in Rows(src, Orders) && Unassigned(o)
  {
    hide Rows;
    UnassignedIs(o);
  }

  lemma RangeOf(src: Snapshot)
    requires Schema(src)
    ensures MatchesInRange(SubjectRowsOf(src), MaxCustomerID(Rows(src, Customers)))
  {
    hide Of, MaxCustomerID, IdentitiesReal, SubjectRowsOf, OnePerId, TextColumns, Rows;
    var rows := SubjectRowsOf(src);
    MaximumNotNegative(Rows(src, Customers));
    forall i | 0 <= i < |rows| && Matched(rows[i]) ensures rows[i].existingCustomer <= MaxCustomerID(Rows(src, Customers)) { MatchIsReal(src, rows[i]); }
  }

  /** Main result: what the resolution of a snapshot gives follows from the identity rows. */
  lemma ResolutionExplained(src: Snapshot, subjects: Subjects)
    requires Schema(src) && AllKindsSupported(src) && ResolvedTo(src, subjects)
    ensures IdentitiesDecide(src, subjects) && ReferencesExact(src, subjects) && TimesExact(src, subjects)
  {
    hide Schema, AllKindsSupported, ResolvedTo, IsSubject, Gets, Rows, BoundTo, Has, Refers, MadeAt, Invented, ListedRight;
    forall t | IsSubject(src, t) ensures exists k :: Gets(subjects, t, k) { EveryoneGets(src, subjects, t); }
    forall t, i, k | IsSubject(src, t) && i in Rows(src, Identities) && BoundTo(i, k) && Has(t, i) { BoundGiven(src, subjects, t, i, k); }
    forall t, k | IsSubject(src, t) && Gets(subjects, t, k) && !Invented(subjects, k)
      ensures exists u, i :: IsSubject(src, u) && Gets(subjects, u, k) && i in Rows(src, Identities) && BoundTo(i, k) && Has(u, i)
    {
      ExistingBound(src, subjects, t, k);
    }
    forall k, r ensures ListedRight(src, subjects, k, r) { ListedBy(src, subjects, k, r); }
    forall y | y in subjects.synthetic
      ensures (exists t :: IsSubject(src, t) && Gets(subjects, t, y.id) && MadeAt(t) == y.createdAt)
              && (exists t :: IsSubject(src, t) && Gets(subjects, t, y.id) && MadeAt(t) == y.updatedAt)
              && (forall t :: IsSubject(src, t) && Gets(subjects, t, y.id) ==> MadeAt(t) <= y.updatedAt)
    {
      var k :| 0 <= k < |subjects.synthetic| && subjects.synthetic[k] == y;
      TimesOf(src, subjects, k);
    }
  }

  /** resolveQuestionnaireCustomers. Under the schema it fails on an identity of an unknown kind, and what it
      returns is explained by the identity rows. */
  method ResolveQuestionnaireCustomers(src: Snapshot) returns (result: Result<Subjects, string>)
    requires PositiveIDs(Rows(src, Customers))
    ensures result.Ok? <==> AllKindsSupported(src) && Resolves(SubjectRowsOf(src), MaxCustomerID(Rows(src, Customers)))
    ensures Schema(src) && result.Ok? ==>
              KindsKnown(src) && IdentitiesDecide(src, result.value) && ReferencesExact(src, result.value) && TimesExact(src, result.value)
    ensures result.Ok? ==>
              var rows, maximum := SubjectRowsOf(src), MaxCustomerID(Rows(src, Customers));
              |Outcome(rows, maximum).chosen| == |rows| && result.value == SubjectsOf(rows, maximum)
  {
    hide Resolves, SubjectsOf, Outcome, SubmissionRows, OrderRow, SupportedKind, Unassigned, MaxCustomerID, Schema, KindsKnown, IdentitiesDecide, ReferencesExact,
      TimesExact, MatchesInRange;
    var rows := ReadSubmissions(src);
    var orders := Rows(src, Orders);
    ghost var first := rows;
    for i := 0 to |orders|
      invariant rows == first + OrderRows(src, orders[..i])
      invariant forall j :: 0 <= j < i && Unassigned(orders[j]) ==> SupportedKind(orders[j].columns)
    {
      assert orders[..i + 1][..i] == orders[..i];
      if Unassigned(orders[i]) {
        var row := ReadOrder(src, orders[i].columns);
        if row.None? { return Err("unsupported identity kind"); }
        rows := rows + [row.value];
      }
    }
    assert orders[..|orders|] == orders;
    MaximumNotNegative(Rows(src, Customers));
    result := ResolveQuestionnaireRows(rows, MaxCustomerID(Rows(src, Customers)));
    if Schema(src) && result.Ok? {
      KindsAre(src);
      RangeOf(src);
      assert ResolvedTo(src, result.value);
      ResolutionExplained(src, result.value);
    }
  }
}
