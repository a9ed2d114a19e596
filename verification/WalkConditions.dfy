/** When a walk over the source is carried through, and the digest records it makes for its subjects
    (verifyRequiredIdentities, addOrderCustomer, addSubmissionCustomer and importCustomers in
    cmd/aicrm-whitelist-import/importer.go). */
module WalkConditions {
  import opened Wrappers
  import opened Snapshot
  import opened CopyRules
  import opened Target
  import opened Digest
  import opened ImportPlan
  import opened ImportGates
  import opened ImportedSubjects
  import opened Sanitised
  import Decimal
  import Reencoding
  import References
  import Resolution
  import Sets

  // ----- Who comes along

  /** The customer is in the target after the walk. */
  predicate Brought(x: Inputs, id: int) {
    (NamedCustomer(x.src, id) && Needed(x, id)) || exists y :: y in x.subjects.synthetic && y.id == id
  }

  lemma BroughtIs(x: Inputs, id: int)
    requires Typed(x.src)
    ensures id in CustomerIDs(x) <==> Brought(x, id)
  {
    hide Wanted, Needed, Rows, Col;
    if NamedCustomer(x.src, id) {
      var row :| row in Rows(x.src, Customers) && Col(row.columns, "id") == Num(id);
      WantedIs(x, id);
    }
    if r :| r in Rows(x.src, Customers) && Selected(x, r) && Int(Col(r.columns, "id")) == id {
      assert Col(r.columns, "id") == Num(id);
      WantedIs(x, id);
    }
  }

  // ----- The rows that must have a customer

  /** The row names a customer that is brought along. */
  ghost predicate NamesBrought(x: Inputs, row: SourceRow) {
    exists id :: Col(row.columns, "customer_id") == Num(id) && Brought(x, id)
  }

  /** The order names the customer, or names none and was resolved to it. */
  predicate GivenTo(x: Inputs, order: SourceRow, id: int) {
    || Col(order.columns, "customer_id") == Num(id)
    || (Col(order.columns, "customer_id") == Null
        && exists n :: n in x.subjects.byOrder && Col(order.columns, "id") == Num(n) && x.subjects.byOrder[n] == id)
  }

  ghost predicate OrderReady(x: Inputs, order: SourceRow) {
    && (exists id :: id >= 1 && GivenTo(x, order, id) && Brought(x, id))
    && (forall k :: k in order.columns && k !in ORDER_IDENTITY ==> Reencoding.Readable(order.columns[k]))
  }

  predicate SubmissionReady(x: Inputs, submission: SourceRow) {
    && (exists n :: n in x.subjects.bySubmission && Col(submission.columns, "id") == Num(n))
    && (forall k :: k in submission.columns && k !in RESPONDENT_IDENTITY ==> Reencoding.Readable(submission.columns[k]))
  }

  lemma NamesIs(x: Inputs, row: SourceRow)
    requires Typed(x.src) && (Col(row.columns, "customer_id").Num? || Col(row.columns, "customer_id").Null?)
    ensures NamesBrought(x, row) <==> Col(row.columns, "customer_id") != Null && Int(Col(row.columns, "customer_id")) in CustomerIDs(x)
  {
    hide Brought, CustomerIDs, Typed, Col;
    if Col(row.columns, "customer_id").Num? { BroughtIs(x, Col(row.columns, "customer_id").n); }
  }

  lemma GivenIs(x: Inputs, order: SourceRow, id: int)
    requires Typed(x.src) && order in Rows(x.src, Orders) && id >= 1
    ensures GivenTo(x, order, id) <==> OrderCustomer(x, order) == id
  {
    hide Col, Rows;
    assert Col(order.columns, "id").Num?;
    assert Col(order.columns, "customer_id").Num? || Col(order.columns, "customer_id").Null?;
  }

  lemma OrderReadable(src: Snapshot, order: SourceRow)
    ensures Reencoding.ReadableRow(Project(src, Orders, order))
            <==> forall k :: k in order.columns && k !in ORDER_IDENTITY ==> Reencoding.Readable(order.columns[k])
  {
    var c, p := order.columns, Project(src, Orders, order);
    assert forall k :: k in ORDER_IDENTITY ==> k in p && p[k] == Text("");
    assert forall k :: k in p && k !in ORDER_IDENTITY ==> k in c && p[k] == c[k];
    assert forall k :: k in c ==> k in p;
  }

  lemma SubmissionReadable(src: Snapshot, row: SourceRow)
    ensures Reencoding.ReadableRow(Project(src, Submissions, row))
            <==> forall k :: k in row.columns && k !in RESPONDENT_IDENTITY ==> Reencoding.Readable(row.columns[k])
  {
    var c, p := row.columns, Project(src, Submissions, row);
    assert forall k :: k in RESPONDENT_IDENTITY ==> k in p && p[k] == Text("");
    assert forall k :: k in p && k !in RESPONDENT_IDENTITY ==> k in c && p[k] == c[k];
    assert forall k :: k in c ==> k in p;
  }

  /** The copy of a product order can be made and finds its customer exactly when the order is ready. */
  lemma OrderReadyIs(x: Inputs, order: SourceRow)
    requires Typed(x.src) && order in Rows(x.src, Orders)
    ensures OrderReady(x, order)
            <==> OrderCustomer(x, order) >= 1 && OrderCustomer(x, order) in CustomerIDs(x) && Copied(x, Orders, order).Some?
  {
    hide Col, Rows, Key, Project, Decimal.ParseInt, Brought, GivenTo, CustomerIDs, Reencoding.ReadableRow, Reencoding.Readable, OrderCustomer;
    ParsedKey(Orders, order);
    CustomerColumnKept(x.src, Orders, order);
    OrderReadable(x.src, order);
    var id := OrderCustomer(x, order);
    forall other | other >= 1 ensures GivenTo(x, order, other) <==> id == other { GivenIs(x, order, other); }
    BroughtIs(x, id);
    if id >= 1 { OrderResolved(x, order); }
  }

  /** An order has a customer exactly when it names one or was resolved. */
  lemma OrderResolved(x: Inputs, order: SourceRow)
    requires Typed(x.src) && order in Rows(x.src, Orders) && OrderCustomer(x, order) >= 1
    ensures Col(order.columns, "customer_id") != Null || Int(Col(order.columns, "id")) in x.subjects.byOrder
  {
    hide Col, Rows;
  }

  lemma SubmissionReadyIs(x: Inputs, row: SourceRow)
    requires Typed(x.src) && row in Rows(x.src, Submissions)
    ensures SubmissionReady(x, row) <==> Copied(x, Submissions, row).Some?
  {
    hide Col, Rows, Key, Project, Decimal.ParseInt, Reencoding.ReadableRow, Reencoding.Readable;
    ParsedKey(Submissions, row);
    SubmissionReadable(x.src, row);
    assert Col(row.columns, "id").Num?;
  }

  // ----- The whole walk

  lemma PlainlyTransformable(x: Inputs, spec: CopySpec)
    requires spec.source != Orders && spec.source != Submissions
    ensures Transformable(x, spec)
  {
    hide Project, Keep, Rows, Key;
  }

  lemma OrdersTransformable(x: Inputs, spec: CopySpec)
    requires spec.source == Orders
    ensures Transformable(x, spec) <==> forall r :: r in Rows(x.src, Orders) && Col(r.columns, "product_id") != Null ==> Copied(x, Orders, r).Some?
  {
    hide Rows, Copied, Col;
    var rows := Rows(x.src, Orders);
    if Transformable(x, spec) {
      forall r | r in rows && Col(r.columns, "product_id") != Null ensures Copied(x, Orders, r).Some? {
        var i :| 0 <= i < |rows| && rows[i] == r;
      }
    }
  }

  lemma SubmissionsTransformable(x: Inputs, spec: CopySpec)
    requires spec.source == Submissions
    ensures Transformable(x, spec) <==> forall r :: r in Rows(x.src, Submissions) ==> Copied(x, Submissions, r).Some?
  {
    hide Rows, Copied, Col;
    var rows := Rows(x.src, Submissions);
    if Transformable(x, spec) {
      forall r | r in rows ensures Copied(x, Submissions, r).Some? {
        var i :| 0 <= i < |rows| && rows[i] == r;
      }
    }
  }

  lemma SpecsThere()
    ensures 5 < |COPIED| && COPIED[5].source == Orders && 11 < |COPIED| && COPIED[11].source == Submissions
  {
  }

  lemma AllTransformableIs(x: Inputs)
    ensures AllTransformable(x, COPIED)
            <==> && (forall r :: r in Rows(x.src, Orders) && Col(r.columns, "product_id") != Null ==> Copied(x, Orders, r).Some?)
                 && (forall r :: r in Rows(x.src, Submissions) ==> Copied(x, Submissions, r).Some?)
  {
    hide Transformable, Rows, Copied, Col;
    SpecsThere();
    OrdersTransformable(x, COPIED[5]);
    SubmissionsTransformable(x, COPIED[11]);
    forall i | 0 <= i < |COPIED|
      ensures Transformable(x, COPIED[5]) && Transformable(x, COPIED[11]) ==> Transformable(x, COPIED[i])
    {
      if COPIED[i].source == Orders { OrdersTransformable(x, COPIED[i]); }
      else if COPIED[i].source == Submissions { SubmissionsTransformable(x, COPIED[i]); }
      else { PlainlyTransformable(x, COPIED[i]); }
    }
  }

  /** Main result: a walk is permitted exactly when every entitlement and membership names a customer that is
      brought along, every product order names one or was resolved to one, every submission was resolved, and
      the rows that are rewritten can be read once the buyer's or respondent's columns are blanked. */
  lemma PermittedIff(x: Inputs)
    requires Typed(x.src)
    ensures Permitted(x)
            <==> && (forall r :: r in Rows(x.src, Entitlements) || r in Rows(x.src, Members) ==> NamesBrought(x, r))
                 && (forall r :: r in Rows(x.src, Orders) && Col(r.columns, "product_id") != Null ==> OrderReady(x, r))
                 && (forall r :: r in Rows(x.src, Submissions) ==> SubmissionReady(x, r))
  {
    hide NamesBrought, OrderReady, SubmissionReady, Rows, Col, CustomerIDs, AllTransformable, OrderCustomer, Copied;
    AllTransformableIs(x);
    forall r | r in Rows(x.src, Entitlements) || r in Rows(x.src, Members)
      ensures NamesBrought(x, r) <==> Col(r.columns, "customer_id") != Null && Int(Col(r.columns, "customer_id")) in CustomerIDs(x)
    {
      NamesIs(x, r);
    }
    forall r | r in Rows(x.src, Orders)
      ensures OrderReady(x, r) <==> OrderCustomer(x, r) >= 1 && OrderCustomer(x, r) in CustomerIDs(x) && Copied(x, Orders, r).Some?
    {
      OrderReadyIs(x, r);
    }
    forall r | r in Rows(x.src, Submissions) ensures SubmissionReady(x, r) <==> Copied(x, Submissions, r).Some? { SubmissionReadyIs(x, r); }
  }

  // ----- Digest records of the subjects

  /** The record of an invented customer carries its id as the key and its JSON as the payload. */
  predicate InventedRecord(y: Resolution.Synthetic, r: Record) {
    && r.entity == "questionnaire_subjects" && r.key == Decimal.FormatInt(y.id)
    && r.payload == "{\"id\":" + Decimal.FormatInt(y.id) + ",\"created_at\":" + Decimal.FormatInt(y.createdAt)
                    + ",\"updated_at\":" + Decimal.FormatInt(y.updatedAt) + "}"
  }

  /** The record of a reference is keyed by its customer, its entity and the hexadecimal digest. */
  predicate ReferenceRecord(x: Inputs, customer: int, reference: References.Reference, r: Record) {
    var digest := x.sha("aicrm_v2_frozen" + ['\0'] + reference.entity + ['\0'] + reference.value);
    && r.entity == "source_subject_refs" && r.payload == digest
    && r.key == Decimal.FormatInt(customer) + ":" + reference.entity + ":" + HexText(digest)
  }

  lemma InventedRecords(x: Inputs, y: Resolution.Synthetic) returns (e: Event)
    requires y in x.subjects.synthetic
    ensures e in Plan(x) && InventedRecord(y, e.record)
  {
    hide FlatMap, LeftBehind, CopyTable, Decimal.FormatInt;
    e := MigrateEvent(Identity, QuestionnaireSubjects, Customers, Decimal.FormatInt(y.id), SubjectText(y),
                      [InsertCustomer(Customer(y.id, y.createdAt, y.updatedAt))]);
    FlatMapHas(x.subjects.synthetic, SubjectStep(), y, e);
  }

  lemma ReferenceRecords(x: Inputs, customer: int, reference: References.Reference) returns (e: Event)
    requires customer in x.subjects.references && reference in x.subjects.references[customer]
    ensures e in Plan(x) && ReferenceRecord(x, customer, reference, e.record)
  {
    hide FlatMap, LeftBehind, CopyTable, CustomerStep, SubjectStep, Decimal.FormatInt, HexText;
    e := ReferenceEvent(x, customer, reference);
    FlatMapHas(Resolution.Listed(x.subjects.references, customer), ReferenceStep(x, customer), reference, e);
    assert customer in Sets.Ascend(x.subjects.references.Keys);
    FlatMapHas(Sets.Ascend(x.subjects.references.Keys), CustomerReferences(x), customer, e);
  }
}
