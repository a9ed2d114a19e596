/** Exactly which customers and subject references an import leaves (importCustomers in
    cmd/aicrm-whitelist-import/importer.go). */
module ImportedSubjects {
  import opened Snapshot
  import opened CopyRules
  import opened Target
  import opened ImportPlan
  import opened ImportEffects
  import opened ImportGates
  import Decimal
  import References
  import Resolution
  import Sets

  // ----- Customers

  predicate NamedIn(rows: seq<SourceRow>, id: int) {
    exists r :: r in rows && Col(r.columns, "customer_id") == Num(id)
  }

  /** A member of a segment that is an audience package. */
  predicate PackageMember(src: Snapshot, id: int) {
    exists m, p :: m in Rows(src, SegmentMembers) && p in Rows(src, PackageMetadata) && Col(m.columns, "customer_id") == Num(id)
                   && Col(p.columns, "segment_id") == Col(m.columns, "segment_id") != Null
  }

  /** Someone needs the customer: an order, an entitlement, a membership, a package, a workbench user, or a
      submission or order that was resolved to it. */
  predicate Needed(x: Inputs, id: int) {
    || NamedIn(Rows(x.src, Orders), id) || NamedIn(Rows(x.src, Entitlements), id) || NamedIn(Rows(x.src, Members), id)
    || NamedIn(Rows(x.src, HxcUsers), id) || PackageMember(x.src, id)
    || (exists k :: k in x.subjects.bySubmission && x.subjects.bySubmission[k] == id)
    || (exists k :: k in x.subjects.byOrder && x.subjects.byOrder[k] == id)
  }

  lemma NamedIs(rows: seq<SourceRow>, id: int)
    requires forall r :: r in rows ==> Col(r.columns, "customer_id").Num? || Col(r.columns, "customer_id").Null?
    ensures id in IdsIn(rows, "customer_id") <==> NamedIn(rows, id)
  {
    if NamedIn(rows, id) { var r :| r in rows && Col(r.columns, "customer_id") == Num(id); }
  }

  /** The members of packages among the wanted customers. */
  function MembersWanted(src: Snapshot): set<int> {
    set m | m in Rows(src, SegmentMembers) && HasPackage(src, Col(m.columns, "segment_id")) :: Int(Col(m.columns, "customer_id"))
  }

  lemma MemberIs(src: Snapshot, id: int)
    requires id != 0 && forall m :: m in Rows(src, SegmentMembers) ==> Col(m.columns, "customer_id").Num? || Col(m.columns, "customer_id").Null?
    ensures id in MembersWanted(src) <==> PackageMember(src, id)
  {
    hide Col, Rows;
    if m :| m in Rows(src, SegmentMembers) && HasPackage(src, Col(m.columns, "segment_id")) && Int(Col(m.columns, "customer_id")) == id {
      var p :| p in Rows(src, PackageMetadata) && Equal(Col(p.columns, "segment_id"), Col(m.columns, "segment_id"));
    }
    if m, p :| m in Rows(src, SegmentMembers) && p in Rows(src, PackageMetadata) && Col(m.columns, "customer_id") == Num(id)
               && Col(p.columns, "segment_id") == Col(m.columns, "segment_id") != Null {
      assert Equal(Col(p.columns, "segment_id"), Col(m.columns, "segment_id"));
      assert HasPackage(src, Col(m.columns, "segment_id")) && Int(Col(m.columns, "customer_id")) == id;
    }
  }

  lemma WantedIs(x: Inputs, id: int)
    requires Typed(x.src) && id != 0
    ensures id in Wanted(x) <==> Needed(x, id)
  {
    hide Col, Rows, NamedIn, PackageMember, IdsIn, HasPackage;
    NamedIs(Rows(x.src, Orders), id);
    NamedIs(Rows(x.src, Entitlements), id);
    NamedIs(Rows(x.src, Members), id);
    NamedIs(Rows(x.src, HxcUsers), id);
    MemberIs(x.src, id);
    assert id in MembersWanted(x.src) <==>
           id in (set m | m in Rows(x.src, SegmentMembers) && HasPackage(x.src, Col(m.columns, "segment_id")) :: Int(Col(m.columns, "customer_id")));
  }

  /** The row of a customer as the target gets it. */
  predicate CustomerOf(row: SourceRow, c: Customer) {
    Col(row.columns, "id") == Num(c.id) && Int(Col(row.columns, "created_at")) == c.createdAt && Int(Col(row.columns, "updated_at")) == c.updatedAt
  }

  predicate NamedCustomer(src: Snapshot, id: int) {
    exists row :: row in Rows(src, Customers) && Col(row.columns, "id") == Num(id)
  }

  lemma NoCustomerZero(src: Snapshot)
    requires Typed(src)
    ensures !NamedCustomer(src, 0) && forall row, c: Customer :: row in Rows(src, Customers) && CustomerOf(row, c) ==> c.id != 0
  {
  }

  lemma CustomerFrom(x: Inputs, c: Customer)
    requires InsertCustomer(c) in Writes(Plan(x)) && Typed(x.src)
    ensures || (exists row :: row in Rows(x.src, Customers) && c.id in Wanted(x) && CustomerOf(row, c))
            || (exists y :: y in x.subjects.synthetic && c == Customer(y.id, y.createdAt, y.updatedAt))
  {
    hide Plan, FlatMap, LeftBehind, Wanted, CustomerStep, SubjectStep, CopyTable, CustomerReferences, Col, Rows;
    var e := WriteHasEvent(Plan(x), InsertCustomer(c));
    PlanMember(x, e);
    if e in LeftBehind(x) {
      LeftBehindWrites(x, e);
    } else if e in FlatMap(COPIED, CopyTable(x)) {
      CopyEventWrites(x, e);
    } else if e in FlatMap(Sets.Ascend(x.subjects.references.Keys), CustomerReferences(x)) {
      var customer, r := ReferenceEventOf(x, e);
    } else if e in FlatMap(x.subjects.synthetic, SubjectStep()) {
      var y, receipt := SubjectEventOf(x, e);
    } else {
      var row, receipt := CustomerEventOf(x, e);
      assert CustomerOf(row, c);
    }
  }

  lemma CustomerArrives(x: Inputs, row: SourceRow, c: Customer)
    requires row in Rows(x.src, Customers) && c.id in Wanted(x) && CustomerOf(row, c)
    ensures InsertCustomer(c) in Writes(Plan(x))
  {
    hide FlatMap, LeftBehind, Wanted, CopyTable, Col, Rows, Key;
    var e := CustomerEvent(x, row);
    FlatMapHas(Rows(x.src, Customers), CustomerStep(x), row, e);
    assert CustomerWrites(x, row)[0] == InsertCustomer(c) && InsertCustomer(c) in CustomerWrites(x, row);
    EventWrites(Plan(x), e, InsertCustomer(c));
  }

  lemma SubjectArrives(x: Inputs, y: Resolution.Synthetic)
    requires y in x.subjects.synthetic
    ensures InsertCustomer(Customer(y.id, y.createdAt, y.updatedAt)) in Writes(Plan(x))
  {
    hide FlatMap, LeftBehind, CopyTable, SubjectText;
    var w := InsertCustomer(Customer(y.id, y.createdAt, y.updatedAt));
    var e := MigrateEvent(Identity, QuestionnaireSubjects, Customers, Decimal.FormatInt(y.id), SubjectText(y), [w]);
    FlatMapHas(x.subjects.synthetic, SubjectStep(), y, e);
    EventWrites(Plan(x), e, w);
  }

  /** Main result: the customers in the target are the source's customers that someone needs, with their own
      instants, and the invented ones. */
  lemma CustomersAre(x: Inputs, c: Customer)
    requires Typed(x.src)
    ensures c in After(x).customers <==>
            || (Needed(x, c.id) && exists row :: row in Rows(x.src, Customers) && CustomerOf(row, c))
            || (exists y :: y in x.subjects.synthetic && c == Customer(y.id, y.createdAt, y.updatedAt))
  {
    hide Plan, Writes, Wanted, Needed, CustomerOf, Rows, Typed;
    CustomerAfter(EMPTY_TARGET, Writes(Plan(x)), c);
    if c.id != 0 { WantedIs(x, c.id); } else { NoCustomerZero(x.src); }
    if c in After(x).customers { CustomerFrom(x, c); }
    if row :| Needed(x, c.id) && row in Rows(x.src, Customers) && CustomerOf(row, c) { CustomerArrives(x, row, c); }
    if y :| y in x.subjects.synthetic && c == Customer(y.id, y.createdAt, y.updatedAt) { SubjectArrives(x, y); }
  }

  // ----- References

  /** The digest of the customer's own id. */
  function OwnReference(x: Inputs, id: int): SubjectRef {
    SubjectRef(id, "customer", x.sha("aicrm_v2_frozen" + ['\0'] + "customer" + ['\0'] + Decimal.FormatInt(id)))
  }

  function ListedReference(x: Inputs, id: int, r: References.Reference): SubjectRef {
    SubjectRef(id, r.entity, x.sha("aicrm_v2_frozen" + ['\0'] + r.entity + ['\0'] + r.value))
  }

  /** The digest of a reference listed for the customer. */
  predicate Listed(x: Inputs, q: SubjectRef) {
    q.customer in x.subjects.references && exists r :: r in x.subjects.references[q.customer] && q == ListedReference(x, q.customer, r)
  }

  lemma DigestIs(sha: string -> string, entity: string, value: string)
    ensures ReferenceDigest(sha, entity, value) == sha("aicrm_v2_frozen" + ['\0'] + entity + ['\0'] + value)
  {
  }

  lemma CustomerKey(row: SourceRow, id: int)
    requires Col(row.columns, "id") == Num(id)
    ensures Key(Customers, row) == Decimal.FormatInt(id)
  {
    hide Decimal.FormatInt;
  }

  lemma OwnWrite(x: Inputs, row: SourceRow)
    requires Col(row.columns, "id").Num?
    ensures |CustomerWrites(x, row)| == 2 && CustomerWrites(x, row)[1] == InsertReference(OwnReference(x, Int(Col(row.columns, "id"))))
  {
    hide Key, Decimal.FormatInt, ReferenceDigest;
    CustomerKey(row, Int(Col(row.columns, "id")));
    DigestIs(x.sha, "customer", Decimal.FormatInt(Int(Col(row.columns, "id"))));
  }

  lemma ReferenceFrom(x: Inputs, q: SubjectRef)
    requires InsertReference(q) in Writes(Plan(x)) && Typed(x.src)
    ensures || (NamedCustomer(x.src, q.customer) && q.customer in Wanted(x) && q == OwnReference(x, q.customer))
            || Listed(x, q)
  {
    hide Plan, Writes, Wanted, CustomerWrites, Decimal.FormatInt, ReferenceDigest, Rows, Col;
    var row, r := InsertedReference(x, q);
    if row in Rows(x.src, Customers) && Selected(x, row) { OwnWrite(x, row); }
    DigestIs(x.sha, r.entity, r.value);
  }

  lemma OwnArrives(x: Inputs, row: SourceRow)
    requires row in Rows(x.src, Customers) && Col(row.columns, "id").Num? && Int(Col(row.columns, "id")) in Wanted(x)
    ensures InsertReference(OwnReference(x, Int(Col(row.columns, "id")))) in Writes(Plan(x))
  {
    hide FlatMap, LeftBehind, Wanted, CopyTable, Col, Rows, Key, CustomerWrites, OwnReference;
    var e := CustomerEvent(x, row);
    FlatMapHas(Rows(x.src, Customers), CustomerStep(x), row, e);
    OwnWrite(x, row);
    EventWrites(Plan(x), e, CustomerWrites(x, row)[1]);
  }

  lemma ListedArrives(x: Inputs, id: int, r: References.Reference)
    requires id in x.subjects.references && r in x.subjects.references[id]
    ensures InsertReference(ListedReference(x, id, r)) in Writes(Plan(x))
  {
    hide FlatMap, LeftBehind, CopyTable, CustomerStep, SubjectStep, ReferenceDigest, Decimal.FormatInt, HexText;
    var e := ReferenceEvent(x, id, r);
    DigestIs(x.sha, r.entity, r.value);
    FlatMapHas(Resolution.Listed(x.subjects.references, id), ReferenceStep(x, id), r, e);
    assert id in Sets.Ascend(x.subjects.references.Keys);
    FlatMapHas(Sets.Ascend(x.subjects.references.Keys), CustomerReferences(x), id, e);
    EventWrites(Plan(x), e, InsertReference(ListedReference(x, id, r)));
  }

  /** Main result: the references in the target are the digest of its own id for every source customer that
      someone needs, and the digests of the references listed for a subject. */
  lemma ReferencesAre(x: Inputs, q: SubjectRef)
    requires Typed(x.src)
    ensures q in After(x).refs <==>
            || (NamedCustomer(x.src, q.customer) && Needed(x, q.customer) && q == OwnReference(x, q.customer))
            || Listed(x, q)
  {
    hide Plan, Writes, Wanted, Needed, Rows, Typed, OwnReference, ListedReference, Col;
    ReferenceAfter(EMPTY_TARGET, Writes(Plan(x)), q);
    if q.customer != 0 { WantedIs(x, q.customer); } else { NoCustomerZero(x.src); }
    if q in After(x).refs { ReferenceFrom(x, q); }
    if NamedCustomer(x.src, q.customer) && Needed(x, q.customer) && q == OwnReference(x, q.customer) {
      var row :| row in Rows(x.src, Customers) && Col(row.columns, "id") == Num(q.customer);
      OwnArrives(x, row);
    }
    if Listed(x, q) {
      var r :| r in x.subjects.references[q.customer] && q == ListedReference(x, q.customer, r);
      ListedArrives(x, q.customer, r);
    }
  }
}
