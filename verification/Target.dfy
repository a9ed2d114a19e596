/** The target database of one import: rows, subject references and receipts, written
    inside one transaction that any refused write discards. */
module Target {
  import opened Wrappers
  import opened Snapshot
  import opened CopyRules

  datatype Disposition = Migrate | Reject | ArchiveNotOnV2

  /** One row of whitelist_import_domain_receipts. The key and payload stand where the table
      stores their SHA-256 digests. */
  datatype Receipt = Receipt(
    domain: Domain,
    source: Entity,
    key: string,
    payload: string,
    target: Entity,
    targetID: Option<string>,
    disposition: Disposition,
    reason: string)

  datatype Customer = Customer(id: int, createdAt: int, updatedAt: int)

  datatype SubjectRef = SubjectRef(customer: int, entity: string, digest: string)

  datatype Write =
    | InsertCustomer(customer: Customer)
    | InsertReference(reference: SubjectRef)
    | InsertRow(table: Entity, columns: Columns)
    | InsertReceipt(receipt: Receipt)

  /** other counts what the import never touches: external effects, product images, and the
      relations whose mere presence closes a gate. */
  datatype Database = Database(
    customers: seq<Customer>,
    refs: seq<SubjectRef>,
    tables: map<Entity, seq<Columns>>,
    receipts: seq<Receipt>,
    other: map<string, nat>)

  function TableOf(db: Database, e: Entity): seq<Columns> {
    if e in db.tables then db.tables[e] else []
  }

  function Apply(db: Database, w: Write): Database {
    match w
    case InsertCustomer(c) => db.(customers := db.customers + [c])
    case InsertReference(r) => db.(refs := db.refs + [r])
    case InsertRow(e, columns) => db.(tables := db.tables[e := TableOf(db, e) + [columns]])
    case InsertReceipt(r) => db.(receipts := db.receipts + [r])
  }

  function ApplyAll(db: Database, ws: seq<Write>): Database
    decreases |ws|
  {
    if ws == [] then db else ApplyAll(Apply(db, ws[0]), ws[1..])
  }

  /** Whether every write passes the target's constraints in turn. Nothing is assumed about them. */
  predicate Accepted(accepts: (Database, Write) -> bool, db: Database, ws: seq<Write>)
    decreases |ws|
  {
    ws == [] || (accepts(db, ws[0]) && Accepted(accepts, Apply(db, ws[0]), ws[1..]))
  }

  lemma {:induction false} ApplyConcat(db: Database, a: seq<Write>, b: seq<Write>)
    ensures ApplyAll(db, a + b) == ApplyAll(ApplyAll(db, a), b)
    decreases |a|
  {
    if a == [] {
      assert a + b == b;
    } else {
      ApplyConcat(Apply(db, a[0]), a[1..], b);
      assert (a + b)[1..] == a[1..] + b;
    }
  }

  // ----- What a list of writes leaves behind

  lemma RowAfterOne(db: Database, w: Write, e: Entity, c: Columns)
    ensures c in TableOf(Apply(db, w), e) <==> c in TableOf(db, e) || w == InsertRow(e, c)
  {
  }

  /** A row is in a table afterwards exactly when it was there or was inserted. */
  lemma {:induction false} RowAfter(db: Database, ws: seq<Write>, e: Entity, c: Columns)
    ensures c in TableOf(ApplyAll(db, ws), e) <==> c in TableOf(db, e) || InsertRow(e, c) in ws
    decreases |ws|
  {
    hide Apply, TableOf;
    if ws != [] {
      RowAfter(Apply(db, ws[0]), ws[1..], e, c);
      RowAfterOne(db, ws[0], e, c);
      assert ws == [ws[0]] + ws[1..];
    }
  }

  lemma {:induction false} CustomerAfter(db: Database, ws: seq<Write>, c: Customer)
    ensures c in ApplyAll(db, ws).customers <==> c in db.customers || InsertCustomer(c) in ws
    decreases |ws|
  {
    if ws != [] {
      CustomerAfter(Apply(db, ws[0]), ws[1..], c);
      assert ws == [ws[0]] + ws[1..];
    }
  }

  lemma {:induction false} ReferenceAfter(db: Database, ws: seq<Write>, r: SubjectRef)
    ensures r in ApplyAll(db, ws).refs <==> r in db.refs || InsertReference(r) in ws
    decreases |ws|
  {
    if ws != [] {
      ReferenceAfter(Apply(db, ws[0]), ws[1..], r);
      assert ws == [ws[0]] + ws[1..];
    }
  }

  lemma {:induction false} OtherAfter(db: Database, ws: seq<Write>)
    ensures ApplyAll(db, ws).other == db.other
    decreases |ws|
  {
    if ws != [] { OtherAfter(Apply(db, ws[0]), ws[1..]); }
  }
}
