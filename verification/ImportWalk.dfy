/** The walk as the importer runs it: a hasher, a map of counters and a target transaction,
    advanced row by row. Without a target it is the digest mode. */
module ImportWalk {
  import opened Wrappers
  import opened Snapshot
  import opened CopyRules
  import opened Target
  import opened Digest
  import opened ImportPlan
  import Decimal
  import References
  import Resolution
  import Sets

  class Walker {
    const hasher: Hasher
    const accepts: (Database, Write) -> bool
    var counts: map<CountKey, nat>
    var target: Option<Database>

    ghost function Now(): Progress
      reads this, hasher
    {
      Progress(hasher.written, counts, target)
    }

    constructor (target: Option<Database>, accepts: (Database, Write) -> bool)
      ensures Now() == Progress([], map[], target) && this.accepts == accepts
      ensures fresh(hasher)
    {
      this.hasher := new Hasher();
      this.accepts := accepts;
      this.counts := map[];
      this.target := target;
    }

    /** One statement inside the target transaction. */
    method Exec(w: Write) returns (ok: bool)
      requires target.Some?
      modifies this`target
      ensures ok == accepts(old(target).value, w)
      ensures target == if ok then Some(Apply(old(target).value, w)) else old(target)
    {
      ok := accepts(target.value, w);
      if ok {
        target := Some(Apply(target.value, w));
      }
    }

    method Count(key: CountKey)
      modifies this`counts
      ensures counts == Bump(old(counts), Some(key))
    {
      counts := counts[key := (if key in counts then counts[key] else 0) + 1];
    }

    // ----- One row at each place that reads rows, branch by branch

    /** The archive binding, hashed before any row. */
    method Bind(x: Inputs)
      modifies this, hasher
      ensures Advance(accepts, old(Now()), [BindingEvent(x)]) == Some(Now())
    {
      OneEvent(accepts, Now(), BindingEvent(x));
      WriteDigest(hasher, "v1_archive_binding", x.binding, x.binding);
    }

    /** An existing customer. Without a target it is counted at once; otherwise it is counted after its writes. */
    method CopyCustomer(x: Inputs, row: SourceRow) returns (ok: bool)
      modifies this, hasher
      ensures ok <==> Advance(accepts, old(Now()), [CustomerEvent(x, row)]).Some?
      ensures ok ==> Advance(accepts, old(Now()), [CustomerEvent(x, row)]) == Some(Now())
    {
      hide Advance, Frame, Apply, ApplyAll, Accepted, Key;
      var key, id := Key(Customers, row), Int(Col(row.columns, "id"));
      var customer := InsertCustomer(Customer(id, Int(Col(row.columns, "created_at")), Int(Col(row.columns, "updated_at"))));
      var reference := InsertReference(SubjectRef(id, "customer", ReferenceDigest(x.sha, "customer", key)));
      var receipt := InsertReceipt(Receipt(Identity, Customers, key, row.text, Customers, Some(key), Migrate, ""));
      OneEvent(accepts, Now(), CustomerEvent(x, row));
      assert CustomerEvent(x, row).writes == [customer, reference, receipt];
      WriteDigest(hasher, Name(Customers), key, row.text);
      if target.None? {
        Count(Migrated(Identity));
        return true;
      }
      ThreeWrites(accepts, target.value, customer, reference, receipt);
      ok := Exec(customer);
      if !ok { return; }
      ok := Exec(reference);
      if !ok { return; }
      ok := Exec(receipt);
      if !ok { return; }
      Count(Migrated(Identity));
    }

    /** An invented customer. */
    method InventCustomer(y: Resolution.Synthetic) returns (ok: bool)
      modifies this, hasher
      ensures ok <==> Advance(accepts, old(Now()), SubjectStep()(y)).Some?
      ensures ok ==> Advance(accepts, old(Now()), SubjectStep()(y)) == Some(Now())
    {
      hide Advance, Frame, Apply, ApplyAll, Accepted, SubjectText, Decimal.FormatInt;
      var key, text := Decimal.FormatInt(y.id), SubjectText(y);
      var customer := InsertCustomer(Customer(y.id, y.createdAt, y.updatedAt));
      var receipt := InsertReceipt(Receipt(Identity, QuestionnaireSubjects, key, text, Customers, Some(key), Migrate, ""));
      ghost var e := MigrateEvent(Identity, QuestionnaireSubjects, Customers, key, text, [customer]);
      assert SubjectStep()(y) == [e];
      OneEvent(accepts, Now(), e);
      assert e.writes == [customer, receipt];
      WriteDigest(hasher, Name(QuestionnaireSubjects), key, text);
      if target.Some? {
        TwoWrites(accepts, target.value, customer, receipt);
        ok := Exec(customer);
        if !ok { return; }
        ok := Exec(receipt);
        if !ok { return; }
      }
      Count(Migrated(Identity));
      ok := true;
    }

    /** A subject reference: no receipt and no counter. */
    method AddReference(x: Inputs, customer: int, r: References.Reference) returns (ok: bool)
      modifies this, hasher
      ensures ok <==> Advance(accepts, old(Now()), ReferenceStep(x, customer)(r)).Some?
      ensures ok ==> Advance(accepts, old(Now()), ReferenceStep(x, customer)(r)) == Some(Now())
    {
      hide Advance, Frame, Apply, ApplyAll, Accepted, Decimal.FormatInt, HexText;
      var digest := ReferenceDigest(x.sha, r.entity, r.value);
      var key := Decimal.FormatInt(customer) + ":" + r.entity + ":" + HexText(digest);
      ghost var e := ReferenceEvent(x, customer, r);
      assert ReferenceStep(x, customer)(r) == [e];
      OneEvent(accepts, Now(), e);
      WriteDigest(hasher, SUBJECT_REFS, key, digest);
      if target.Some? {
        OneWrite(accepts, target.value, InsertReference(SubjectRef(customer, r.entity, digest)));
        ok := Exec(InsertReference(SubjectRef(customer, r.entity, digest)));
        if !ok { return; }
      }
      ok := true;
    }

    /** A row of a copied table: hashed, transformed, inserted, receipted and counted, the last two
        only for tables of a domain. */
    method CopyRow(x: Inputs, spec: CopySpec, row: SourceRow) returns (ok: bool)
      requires Keep(x.src, spec.source, row)
      modifies this, hasher
      ensures ok <==> Copied(x, spec.source, row).Some? && Advance(accepts, old(Now()), CopyStep(x, spec)(row)).Some?
      ensures ok ==> Advance(accepts, old(Now()), CopyStep(x, spec)(row)) == Some(Now())
    {
      hide Advance, Frame, Apply, ApplyAll, Accepted, Key, Copied, Keep;
      var key, copied := Key(spec.source, row), Copied(x, spec.source, row);
      ghost var e := CopiedEvent(x, spec, row);
      assert CopyStep(x, spec)(row) == [e];
      OneEvent(accepts, Now(), e);
      WriteDigest(hasher, Name(spec.source), key, row.text);
      if copied.None? { return false; }
      if target.Some? {
        var insert := InsertRow(spec.target, copied.value);
        var receipt := InsertReceipt(Receipt(spec.domain, spec.source, key, row.text, spec.target, Some(key), Migrate, ""));
        assert e.writes == if spec.domain == NoDomain then [insert] else [insert, receipt];
        OneWrite(accepts, target.value, insert);
        TwoWrites(accepts, target.value, insert, receipt);
        ok := Exec(insert);
        if !ok { return; }
        if spec.domain != NoDomain {
          ok := Exec(receipt);
          if !ok { return; }
        }
      }
      if spec.domain != NoDomain { Count(Migrated(spec.domain)); }
      ok := true;
    }

    /** A row that stays behind: it is counted before its receipt is written. */
    method LeaveRow(suffix: string, domain: Domain, source: Entity, table: Entity, disposition: Disposition, reason: string, count: CountKey,
                    row: SourceRow) returns (ok: bool)
      modifies this, hasher
      ensures ok <==> Advance(accepts, old(Now()), [LeaveEvent(suffix, domain, source, table, disposition, reason, count, row)]).Some?
      ensures ok ==> Advance(accepts, old(Now()), [LeaveEvent(suffix, domain, source, table, disposition, reason, count, row)]) == Some(Now())
    {
      hide Advance, Frame, Apply, ApplyAll, Accepted, Key;
      var key := Key(source, row);
      OneEvent(accepts, Now(), LeaveEvent(suffix, domain, source, table, disposition, reason, count, row));
      WriteDigest(hasher, Name(source) + suffix, key, row.text);
      Count(count);
      if target.Some? {
        var receipt := InsertReceipt(Receipt(domain, source, key, row.text, table, None, disposition, reason));
        OneWrite(accepts, target.value, receipt);
        ok := Exec(receipt);
        if !ok { return; }
      }
      ok := true;
    }

    // ----- The loops

    method CopyCustomers(x: Inputs) returns (ok: bool, ids: set<int>)
      modifies this, hasher
      ensures ok <==> Advance(accepts, old(Now()), FlatMap(Rows(x.src, Customers), CustomerStep(x))).Some?
      ensures ok ==> Advance(accepts, old(Now()), FlatMap(Rows(x.src, Customers), CustomerStep(x))) == Some(Now())
      ensures ok ==> ids == SelectedIDs(x, Rows(x.src, Customers), |Rows(x.src, Customers)|)
    {
      hide Advance, Rows, Selected, CustomerEvent;
      ghost var start := Now();
      AdvanceNothing(accepts, start);
      var rows := Rows(x.src, Customers);
      ids := {};
      for i := 0 to |rows|
        invariant Advance(accepts, start, UpTo(rows, i, CustomerStep(x))) == Some(Now())
        invariant ids == SelectedIDs(x, rows, i)
      {
        AdvanceConcat(accepts, start, UpTo(rows, i, CustomerStep(x)), CustomerStep(x)(rows[i]));
        AdvanceNothing(accepts, Now());
        if Selected(x, rows[i]) {
          ok := CopyCustomer(x, rows[i]);
          if !ok {
            UpToFails(accepts, start, rows, i + 1, |rows|, CustomerStep(x));
            return;
          }
          ids := ids + {Int(Col(rows[i].columns, "id"))};
        }
      }
      ok := true;
    }

    method InventCustomers(synthetic: seq<Resolution.Synthetic>) returns (ok: bool, ids: set<int>)
      modifies this, hasher
      ensures ok <==> Advance(accepts, old(Now()), FlatMap(synthetic, SubjectStep())).Some?
      ensures ok ==> Advance(accepts, old(Now()), FlatMap(synthetic, SubjectStep())) == Some(Now())
      ensures ok ==> ids == set y | y in synthetic :: y.id
    {
      hide Advance, SubjectStep;
      ghost var start := Now();
      AdvanceNothing(accepts, start);
      ids := {};
      for i := 0 to |synthetic|
        invariant Advance(accepts, start, UpTo(synthetic, i, SubjectStep())) == Some(Now())
        invariant ids == set y | y in synthetic[..i] :: y.id
      {
        AdvanceConcat(accepts, start, UpTo(synthetic, i, SubjectStep()), SubjectStep()(synthetic[i]));
        ok := InventCustomer(synthetic[i]);
        if !ok {
          UpToFails(accepts, start, synthetic, i + 1, |synthetic|, SubjectStep());
          return;
        }
        assert synthetic[..i + 1] == synthetic[..i] + [synthetic[i]];
        ids := ids + {synthetic[i].id};
      }
      assert synthetic[..|synthetic|] == synthetic;
      ok := true;
    }

    method AddReferences(x: Inputs, customer: int) returns (ok: bool)
      modifies this, hasher
      ensures ok <==> Advance(accepts, old(Now()), CustomerReferences(x)(customer)).Some?
      ensures ok ==> Advance(accepts, old(Now()), CustomerReferences(x)(customer)) == Some(Now())
    {
      hide Advance, ReferenceStep, Resolution.Listed;
      ghost var start := Now();
      AdvanceNothing(accepts, start);
      var listed := Resolution.Listed(x.subjects.references, customer);
      assert CustomerReferences(x)(customer) == FlatMap(listed, ReferenceStep(x, customer));
      for i := 0 to |listed|
        invariant Advance(accepts, start, UpTo(listed, i, ReferenceStep(x, customer))) == Some(Now())
      {
        AdvanceConcat(accepts, start, UpTo(listed, i, ReferenceStep(x, customer)), ReferenceStep(x, customer)(listed[i]));
        ok := AddReference(x, customer, listed[i]);
        if !ok {
          UpToFails(accepts, start, listed, i + 1, |listed|, ReferenceStep(x, customer));
          return;
        }
      }
      ok := true;
    }

    method AddAllReferences(x: Inputs, customers: seq<int>) returns (ok: bool)
      modifies this, hasher
      ensures ok <==> Advance(accepts, old(Now()), FlatMap(customers, CustomerReferences(x))).Some?
      ensures ok ==> Advance(accepts, old(Now()), FlatMap(customers, CustomerReferences(x))) == Some(Now())
    {
      hide Advance, CustomerReferences;
      ghost var start := Now();
      AdvanceNothing(accepts, start);
      for i := 0 to |customers|
        invariant Advance(accepts, start, UpTo(customers, i, CustomerReferences(x))) == Some(Now())
      {
        AdvanceConcat(accepts, start, UpTo(customers, i, CustomerReferences(x)), CustomerReferences(x)(customers[i]));
        ok := AddReferences(x, customers[i]);
        if !ok {
          UpToFails(accepts, start, customers, i + 1, |customers|, CustomerReferences(x));
          return;
        }
      }
      ok := true;
    }

    /** importCustomers: existing customers, invented ones, then the references of each customer. */
    method ImportCustomers(x: Inputs) returns (ok: bool, ids: set<int>)
      modifies this, hasher
      ensures ok <==> Advance(accepts, old(Now()), IdentityEvents(x)).Some?
      ensures ok ==> Advance(accepts, old(Now()), IdentityEvents(x)) == Some(Now()) && ids == CustomerIDs(x)
    {
      hide Advance, FlatMap, Selected, CustomerStep, SubjectStep, CustomerReferences, SelectedIDs, Rows;
      ghost var start := Now();
      var listed := AscendingIDs(x.subjects.references.Keys);
      ghost var first, second, third := FlatMap(Rows(x.src, Customers), CustomerStep(x)), FlatMap(x.subjects.synthetic, SubjectStep()),
                                        FlatMap(listed, CustomerReferences(x));
      AdvanceConcat(accepts, start, first, second);
      AdvanceConcat(accepts, start, first + second, third);
      SelectedIDsAre(x, Rows(x.src, Customers), |Rows(x.src, Customers)|);
      var more;
      ok, ids := CopyCustomers(x);
      if !ok { return; }
      ok, more := InventCustomers(x.subjects.synthetic);
      if !ok { return; }
      ids := ids + more;
      ok := AddAllReferences(x, listed);
    }

    /** The loop over the copy rules; a row without a customer mapping stops it. */
    method CopyTables(x: Inputs, specs: seq<CopySpec>) returns (ok: bool)
      modifies this, hasher
      ensures ok <==> AllTransformable(x, specs) && Advance(accepts, old(Now()), FlatMap(specs, CopyTable(x))).Some?
      ensures ok ==> Advance(accepts, old(Now()), FlatMap(specs, CopyTable(x))) == Some(Now())
    {
      hide Advance, Transformable, CopyTable;
      ghost var start := Now();
      AdvanceNothing(accepts, start);
      for i := 0 to |specs|
        invariant Advance(accepts, start, UpTo(specs, i, CopyTable(x))) == Some(Now())
        invariant forall j :: 0 <= j < i ==> Transformable(x, specs[j])
      {
        AdvanceConcat(accepts, start, UpTo(specs, i, CopyTable(x)), CopyTable(x)(specs[i]));
        var done := CopyOne(x, specs[i]);
        if !done {
          if Transformable(x, specs[i]) {
            UpToFails(accepts, start, specs, i + 1, |specs|, CopyTable(x));
          }
          return false;
        }
      }
      ok := true;
    }

    method CopyOne(x: Inputs, spec: CopySpec) returns (ok: bool)
      modifies this, hasher
      ensures ok <==> Transformable(x, spec) && Advance(accepts, old(Now()), CopyTable(x)(spec)).Some?
      ensures ok ==> Advance(accepts, old(Now()), CopyTable(x)(spec)) == Some(Now())
    {
      hide Advance, Keep, Copied, Rows, CopyStep, CopyTable;
      CopyTableIs(x, spec);
      ghost var start := Now();
      AdvanceNothing(accepts, start);
      var rows := Rows(x.src, spec.source);
      for i := 0 to |rows|
        invariant Advance(accepts, start, UpTo(rows, i, CopyStep(x, spec))) == Some(Now())
        invariant forall j :: 0 <= j < i && Keep(x.src, spec.source, rows[j]) ==> Copied(x, spec.source, rows[j]).Some?
      {
        AdvanceConcat(accepts, start, UpTo(rows, i, CopyStep(x, spec)), CopyStep(x, spec)(rows[i]));
        AdvanceNothing(accepts, Now());
        NotKept(x, spec, rows[i]);
        if Keep(x.src, spec.source, rows[i]) {
          var done := CopyRow(x, spec, rows[i]);
          if !done {
            if Copied(x, spec.source, rows[i]).Some? { UpToFails(accepts, start, rows, i + 1, |rows|, CopyStep(x, spec)); }
            return false;
          }
        }
      }
      ok := true;
    }

    /** The loop of every query for rows that stay behind. */
    method LeaveRows(rows: seq<SourceRow>, leaves: SourceRow -> bool, suffix: string, domain: Domain, source: Entity, table: Entity,
                     disposition: Disposition, reason: string, count: CountKey, ghost step: SourceRow -> seq<Event>) returns (ok: bool)
      requires forall row :: step(row) == if leaves(row) then [LeaveEvent(suffix, domain, source, table, disposition, reason, count, row)] else []
      modifies this, hasher
      ensures ok <==> Advance(accepts, old(Now()), FlatMap(rows, step)).Some?
      ensures ok ==> Advance(accepts, old(Now()), FlatMap(rows, step)) == Some(Now())
    {
      hide Advance, LeaveEvent;
      ghost var start := Now();
      AdvanceNothing(accepts, start);
      for i := 0 to |rows|
        invariant Advance(accepts, start, UpTo(rows, i, step)) == Some(Now())
      {
        AdvanceConcat(accepts, start, UpTo(rows, i, step), step(rows[i]));
        AdvanceNothing(accepts, Now());
        if leaves(rows[i]) {
          ok := LeaveRow(suffix, domain, source, table, disposition, reason, count, rows[i]);
          if !ok {
            UpToFails(accepts, start, rows, i + 1, |rows|, step);
            return;
          }
        }
      }
      ok := true;
    }

    method RecordSkippedRefunds(x: Inputs) returns (ok: bool)
      modifies this, hasher
      ensures ok <==> Advance(accepts, old(Now()), SkippedRefunds(x)).Some?
      ensures ok ==> Advance(accepts, old(Now()), SkippedRefunds(x)) == Some(Now())
    {
      hide Advance, FlatMap, LeaveEvent, NotFinal;
      ok := LeaveRows(Rows(x.src, HistoricalRefunds), (row: SourceRow) => NotFinal(row), ".skipped", Order, HistoricalRefunds, RefundFacts, ArchiveNotOnV2,
                      "refund is not a final provider fact", OrderSkipped, SkippedRefundStep());
    }

    method RecordRejectedOrders(x: Inputs) returns (ok: bool)
      modifies this, hasher
      ensures ok <==> Advance(accepts, old(Now()), RejectedOrders(x)).Some?
      ensures ok ==> Advance(accepts, old(Now()), RejectedOrders(x)) == Some(Now())
    {
      hide Advance, FlatMap, LeaveEvent, HasProduct, RejectedRefund;
      AdvanceConcat(accepts, Now(), FlatMap(Rows(x.src, Orders), RejectedOrderStep()), FlatMap(Rows(x.src, HistoricalRefunds), RejectedRefundStep(x)));
      ok := LeaveRows(Rows(x.src, Orders), (row: SourceRow) => !HasProduct(row), ".rejected", Order, Orders, Orders, Reject,
                      "order has no exact product relation", OrderRejected, RejectedOrderStep());
      if !ok { return; }
      ok := LeaveRows(Rows(x.src, HistoricalRefunds), (row: SourceRow) => RejectedRefund(x.src, row), ".rejected", Order, HistoricalRefunds, RefundFacts, Reject,
                      "parent order has no exact product relation", OrderRejected, RejectedRefundStep(x));
    }

    method RecordSkippedAudiences(x: Inputs) returns (ok: bool)
      modifies this, hasher
      ensures ok <==> Advance(accepts, old(Now()), SkippedAudiences(x)).Some?
      ensures ok ==> Advance(accepts, old(Now()), SkippedAudiences(x)) == Some(Now())
    {
      hide Advance, FlatMap, LeaveEvent, Complete, SkippedPackage;
      AdvanceConcat(accepts, Now(), FlatMap(Rows(x.src, PackageMetadata), SkippedMetadataStep(x)), FlatMap(Rows(x.src, V1Packages), SkippedPackageStep(x)));
      ok := LeaveRows(Rows(x.src, PackageMetadata), (row: SourceRow) => !Complete(x.src, Col(row.columns, "segment_id")), ".skipped", Audience, PackageMetadata,
                      Segments, ArchiveNotOnV2, "package member mapping is incomplete; recreate with V2 audience logic", AudienceSkipped,
                      SkippedMetadataStep(x));
      if !ok { return; }
      ok := LeaveRows(Rows(x.src, V1Packages), (row: SourceRow) => SkippedPackage(x.src, row), ".skipped", Audience, V1Packages, Segments, ArchiveNotOnV2,
                      "identity mapping or legacy rule requires redesign", AudienceSkipped, SkippedPackageStep(x));
    }

    /** recordSkippedRefunds, recordRejectedOrders and recordSkippedAudiences. */
    method RecordLeftBehind(x: Inputs) returns (ok: bool)
      modifies this, hasher
      ensures ok <==> Advance(accepts, old(Now()), LeftBehind(x)).Some?
      ensures ok ==> Advance(accepts, old(Now()), LeftBehind(x)) == Some(Now())
    {
      hide Advance, FlatMap, SkippedRefundStep, RejectedOrderStep, RejectedRefundStep, SkippedMetadataStep, SkippedPackageStep;
      ghost var start := Now();
      LeftBehindParts(x);
      AdvanceConcat(accepts, start, SkippedRefunds(x), RejectedOrders(x));
      AdvanceConcat(accepts, start, SkippedRefunds(x) + RejectedOrders(x), SkippedAudiences(x));
      ok := RecordSkippedRefunds(x);
      if !ok { return; }
      ok := RecordRejectedOrders(x);
      if !ok { return; }
      ok := RecordSkippedAudiences(x);
    }

    /** walkSource: succeeds exactly when the snapshot is permitted and the target takes every
        write, and then has carried out the plan. */
    method WalkSource(x: Inputs) returns (ok: bool)
      modifies this, hasher
      ensures ok <==> Permitted(x) && Advance(accepts, old(Now()), Plan(x)).Some?
      ensures ok ==> Advance(accepts, old(Now()), Plan(x)) == Some(Now())
    {
      hide Advance, FlatMap, IdentityEvents, LeftBehind, AllTransformable, CustomerIDs, CopyTable;
      ghost var start := Now();
      ghost var a, b, c := [BindingEvent(x)], IdentityEvents(x), FlatMap(COPIED, CopyTable(x));
      AdvanceConcat(accepts, start, a, b);
      AdvanceConcat(accepts, start, a + b, c);
      AdvanceConcat(accepts, start, a + b + c, LeftBehind(x));
      Bind(x);
      var ids;
      ok, ids := ImportCustomers(x);
      if !ok { return; }
      if !RequiredIdentities(x, ids) { return false; }
      ok := CopyTables(x, COPIED);
      if !ok { return; }
      ok := RecordLeftBehind(x);
    }
  }

  // ----- Single events and short lists of writes

  lemma OneEvent(accepts: (Database, Write) -> bool, p: Progress, e: Event)
    ensures Advance(accepts, p, [e]) ==
            if p.target.None? then Some(Progress(p.stream + Frame(e.record), Bump(p.counts, e.count), None))
            else if Accepted(accepts, p.target.value, e.writes)
            then Some(Progress(p.stream + Frame(e.record), Bump(p.counts, e.count), Some(ApplyAll(p.target.value, e.writes))))
            else None
  {
    hide Frame, Bump, ApplyAll, Accepted;
    assert [e][1..] == [];
  }

  lemma OneWrite(accepts: (Database, Write) -> bool, db: Database, a: Write)
    ensures Accepted(accepts, db, [a]) <==> accepts(db, a)
    ensures ApplyAll(db, [a]) == Apply(db, a)
  {
    hide Apply;
    assert [a][1..] == [];
  }

  lemma TwoWrites(accepts: (Database, Write) -> bool, db: Database, a: Write, b: Write)
    ensures Accepted(accepts, db, [a, b]) <==> accepts(db, a) && accepts(Apply(db, a), b)
    ensures ApplyAll(db, [a, b]) == Apply(Apply(db, a), b)
  {
    hide Apply;
    assert [a, b][1..] == [b];
    OneWrite(accepts, Apply(db, a), b);
  }

  lemma ThreeWrites(accepts: (Database, Write) -> bool, db: Database, a: Write, b: Write, c: Write)
    ensures Accepted(accepts, db, [a, b, c]) <==> accepts(db, a) && accepts(Apply(db, a), b) && accepts(Apply(Apply(db, a), b), c)
    ensures ApplyAll(db, [a, b, c]) == Apply(Apply(Apply(db, a), b), c)
  {
    hide Apply;
    assert [a, b, c][1..] == [b, c];
    TwoWrites(accepts, Apply(db, a), b, c);
  }

  lemma NotKept(x: Inputs, spec: CopySpec, row: SourceRow)
    ensures !Keep(x.src, spec.source, row) ==> CopyStep(x, spec)(row) == []
  {
  }

  lemma LeftBehindParts(x: Inputs)
    ensures LeftBehind(x) == SkippedRefunds(x) + RejectedOrders(x) + SkippedAudiences(x)
  {
    hide FlatMap, SkippedRefundStep, RejectedOrderStep, RejectedRefundStep, SkippedMetadataStep, SkippedPackageStep;
  }

  /** The ids of the selected customers among the first n rows. */
  function SelectedIDs(x: Inputs, rows: seq<SourceRow>, n: nat): set<int>
    requires n <= |rows|
  {
    if n == 0 then {}
    else SelectedIDs(x, rows, n - 1) + if Selected(x, rows[n - 1]) then {Int(Col(rows[n - 1].columns, "id"))} else {}
  }

  lemma {:induction false} SelectedIDsAre(x: Inputs, rows: seq<SourceRow>, n: nat)
    requires n <= |rows|
    ensures SelectedIDs(x, rows, n) == set r | r in rows[..n] && Selected(x, r) :: Int(Col(r.columns, "id"))
    ensures rows[..|rows|] == rows
  {
    hide Selected;
    if n > 0 {
      SelectedIDsAre(x, rows, n - 1);
      assert rows[..n] == rows[..n - 1] + [rows[n - 1]];
    }
  }

  lemma AdvanceNothing(accepts: (Database, Write) -> bool, p: Progress)
    ensures Advance(accepts, p, []) == Some(p)
  {
  }

  // ----- Collecting ids from a map in whatever order it yields them, then sorting

  function Insert(list: seq<int>, id: int): seq<int> {
    if list == [] || id < list[0] then [id] + list else [list[0]] + Insert(list[1..], id)
  }

  lemma {:induction false} InsertKeepsOrder(list: seq<int>, id: int)
    requires Sets.Ascending(list) && id !in list
    ensures Sets.Ascending(Insert(list, id)) && forall x :: x in Insert(list, id) <==> x in list || x == id
  {
    if list != [] && id >= list[0] {
      var rest := Insert(list[1..], id);
      InsertKeepsOrder(list[1..], id);
      assert list == [list[0]] + list[1..];
      forall j | 0 <= j < |rest| ensures list[0] < rest[j] {
        assert rest[j] in rest;
      }
    }
  }

  method AscendingIDs(ids: set<int>) returns (list: seq<int>)
    ensures list == Sets.Ascend(ids)
  {
    var rest := ids;
    list := [];
    while rest != {}
      invariant rest <= ids && Sets.Ascending(list) && forall x :: x in list <==> x in ids - rest
      decreases |rest|
    {
      var id := Sets.Any(rest);
      assert |rest - {id}| == |rest| - 1;
      InsertKeepsOrder(list, id);
      list := Insert(list, id);
      rest := rest - {id};
    }
    Sets.AscendUnique(ids, list);
  }

  /** sourceDigest: the same walk without a target. */
  method SourceDigest(x: Inputs) returns (result: Result<(string, map<CountKey, nat>), string>)
    ensures result.Ok? <==> Permitted(x)
    ensures result.Ok? ==>
              var end := Advance((db, w) => true, Progress([], map[], None), Plan(x));
              end.Some? && result.value == (x.sha(end.value.stream), end.value.counts)
  {
    hide Plan, Permitted, Advance;
    var walker := new Walker(None, (db, w) => true);
    ghost var start := walker.Now();
    WithoutTargetAdvances(walker.accepts, start, Plan(x));
    var ok := walker.WalkSource(x);
    if !ok { return Err("walk stopped"); }
    WithoutTargetSame(walker.accepts, (db, w) => true, start, Plan(x));
    result := Ok((x.sha(walker.hasher.written), walker.counts));
  }

  lemma {:induction false} WithoutTargetAdvances(accepts: (Database, Write) -> bool, p: Progress, events: seq<Event>)
    requires p.target.None?
    ensures Advance(accepts, p, events).Some? && Advance(accepts, p, events).value.target.None?
    decreases |events|
  {
    hide Frame;
    if events != [] {
      WithoutTargetAdvances(accepts, Progress(p.stream + Frame(events[0].record), Bump(p.counts, events[0].count), None), events[1..]);
    }
  }

  lemma {:induction false} WithoutTargetSame(a: (Database, Write) -> bool, b: (Database, Write) -> bool, p: Progress, events: seq<Event>)
    requires p.target.None?
    ensures Advance(a, p, events) == Advance(b, p, events)
    decreases |events|
  {
    hide Frame;
    if events != [] {
      WithoutTargetSame(a, b, Progress(p.stream + Frame(events[0].record), Bump(p.counts, events[0].count), None), events[1..]);
    }
  }
}
