/** What carrying out the plan leaves behind, and that the digest mode sees the same bytes
    and counters as an import. */
module ImportEffects {
  import opened Wrappers
  import opened Snapshot
  import opened CopyRules
  import opened Target
  import opened Digest
  import opened ImportPlan
  import Decimal
  import References
  import Resolution
  import Sets

  function Writes(events: seq<Event>): seq<Write> {
    if events == [] then [] else events[0].writes + Writes(events[1..])
  }

  function Records(events: seq<Event>): seq<Record> {
    if events == [] then [] else [events[0].record] + Records(events[1..])
  }

  function CountAll(counts: map<CountKey, nat>, events: seq<Event>): map<CountKey, nat>
    decreases |events|
  {
    if events == [] then counts else CountAll(Bump(counts, events[0].count), events[1..])
  }

  lemma {:induction false} AdvanceEffects(accepts: (Database, Write) -> bool, p: Progress, events: seq<Event>)
    requires Advance(accepts, p, events).Some?
    ensures
      var q := Advance(accepts, p, events).value;
      && q.stream == p.stream + Stream(Records(events))
      && q.counts == CountAll(p.counts, events)
      && q.target == if p.target.None? then None else Some(ApplyAll(p.target.value, Writes(events)))
    decreases |events|
  {
    hide Frame, Bump, Apply;
    if events != [] {
      var e, rest := events[0], events[1..];
      var target := if p.target.Some? then Some(ApplyAll(p.target.value, e.writes)) else None;
      AdvanceEffects(accepts, Progress(p.stream + Frame(e.record), Bump(p.counts, e.count), target), rest);
      if p.target.Some? { ApplyConcat(p.target.value, e.writes, Writes(rest)); }
      assert Records(events)[1..] == Records(rest);
      assert p.stream + (Frame(e.record) + Stream(Records(rest))) == (p.stream + Frame(e.record)) + Stream(Records(rest));
    }
  }

  /** Main result: an import that succeeds hashed the same bytes and counted the same rows as the
      digest mode, whatever the target's constraints are. */
  lemma DigestModeAgrees(accepts: (Database, Write) -> bool, anything: (Database, Write) -> bool, db: Database, events: seq<Event>)
    requires Advance(accepts, Progress([], map[], Some(db)), events).Some?
    ensures
      var imported := Advance(accepts, Progress([], map[], Some(db)), events).value;
      var dry := Advance(anything, Progress([], map[], None), events);
      dry.Some? && dry.value.stream == imported.stream && dry.value.counts == imported.counts && dry.value.target.None?
  {
    AdvanceEffects(accepts, Progress([], map[], Some(db)), events);
    DryRunAdvances(anything, Progress([], map[], None), events);
    AdvanceEffects(anything, Progress([], map[], None), events);
  }

  lemma {:induction false} DryRunAdvances(accepts: (Database, Write) -> bool, p: Progress, events: seq<Event>)
    requires p.target.None?
    ensures Advance(accepts, p, events).Some?
    decreases |events|
  {
    hide Frame;
    if events != [] {
      DryRunAdvances(accepts, Progress(p.stream + Frame(events[0].record), Bump(p.counts, events[0].count), None), events[1..]);
    }
  }

  lemma {:induction false} WriteHasEvent(events: seq<Event>, w: Write) returns (e: Event)
    requires w in Writes(events)
    ensures e in events && w in e.writes
  {
    if w in events[0].writes {
      e := events[0];
    } else {
      e := WriteHasEvent(events[1..], w);
    }
  }

  lemma {:induction false} EventWrites(events: seq<Event>, e: Event, w: Write)
    requires e in events && w in e.writes
    ensures w in Writes(events)
  {
    if e != events[0] {
      assert events == [events[0]] + events[1..];
      EventWrites(events[1..], e, w);
    }
  }

  // ----- Where each kind of write comes from

  /** The parts of the plan an event can come from. */
  lemma PlanMember(x: Inputs, e: Event)
    requires e in Plan(x)
    ensures
      || e == BindingEvent(x)
      || e in FlatMap(Rows(x.src, Customers), CustomerStep(x))
      || e in FlatMap(x.subjects.synthetic, SubjectStep())
      || e in FlatMap(Sets.Ascend(x.subjects.references.Keys), CustomerReferences(x))
      || e in FlatMap(COPIED, CopyTable(x))
      || e in LeftBehind(x)
  {
    hide FlatMap, CustomerStep, SubjectStep, CustomerReferences, CopyTable, LeftBehind;
  }

  /** Every event of a row that stays behind, whichever query found it. */
  lemma LeaveEventOf(x: Inputs, e: Event)
    returns (row: SourceRow, suffix: string, domain: Domain, source: Entity, table: Entity, d: Disposition, reason: string, count: CountKey)
    requires e in LeftBehind(x)
    ensures row in Rows(x.src, source) && suffix in {".skipped", ".rejected"}
    ensures e == LeaveEvent(suffix, domain, source, table, d, reason, count, row)
    ensures || (d == Reject && count == OrderRejected)
            || (d == ArchiveNotOnV2 && domain == Order && count == OrderSkipped)
            || (d == ArchiveNotOnV2 && domain == Audience && count == AudienceSkipped)
  {
    hide FlatMap, SkippedRefundStep, RejectedOrderStep, RejectedRefundStep, SkippedMetadataStep, SkippedPackageStep, LeaveEvent;
    if e in FlatMap(Rows(x.src, HistoricalRefunds), SkippedRefundStep()) {
      row := FlatMapMember(Rows(x.src, HistoricalRefunds), SkippedRefundStep(), e);
      suffix, domain, source, table, d := ".skipped", Order, HistoricalRefunds, RefundFacts, ArchiveNotOnV2;
      reason, count := SkippedRefundReason(row, e);
    } else if e in FlatMap(Rows(x.src, Orders), RejectedOrderStep()) {
      row := FlatMapMember(Rows(x.src, Orders), RejectedOrderStep(), e);
      suffix, domain, source, table, d := ".rejected", Order, Orders, Orders, Reject;
      reason, count := RejectedOrderReason(row, e);
    } else if e in FlatMap(Rows(x.src, HistoricalRefunds), RejectedRefundStep(x)) {
      row := FlatMapMember(Rows(x.src, HistoricalRefunds), RejectedRefundStep(x), e);
      suffix, domain, source, table, d := ".rejected", Order, HistoricalRefunds, RefundFacts, Reject;
      reason, count := RejectedRefundReason(x, row, e);
    } else if e in FlatMap(Rows(x.src, PackageMetadata), SkippedMetadataStep(x)) {
      row := FlatMapMember(Rows(x.src, PackageMetadata), SkippedMetadataStep(x), e);
      suffix, domain, source, table, d := ".skipped", Audience, PackageMetadata, Segments, ArchiveNotOnV2;
      reason, count := SkippedMetadataReason(x, row, e);
    } else {
      row := FlatMapMember(Rows(x.src, V1Packages), SkippedPackageStep(x), e);
      suffix, domain, source, table, d := ".skipped", Audience, V1Packages, Segments, ArchiveNotOnV2;
      reason, count := SkippedPackageReason(x, row, e);
    }
  }

  lemma SkippedRefundReason(row: SourceRow, e: Event) returns (reason: string, count: CountKey)
    requires e in SkippedRefundStep()(row)
    ensures count == OrderSkipped && e == LeaveEvent(".skipped", Order, HistoricalRefunds, RefundFacts, ArchiveNotOnV2, reason, count, row)
  {
    hide NotFinal, LeaveEvent;
    reason, count := "refund is not a final provider fact", OrderSkipped;
  }

  lemma RejectedOrderReason(row: SourceRow, e: Event) returns (reason: string, count: CountKey)
    requires e in RejectedOrderStep()(row)
    ensures count == OrderRejected && e == LeaveEvent(".rejected", Order, Orders, Orders, Reject, reason, count, row)
  {
    hide HasProduct, LeaveEvent;
    reason, count := "order has no exact product relation", OrderRejected;
  }

  lemma RejectedRefundReason(x: Inputs, row: SourceRow, e: Event) returns (reason: string, count: CountKey)
    requires e in RejectedRefundStep(x)(row)
    ensures count == OrderRejected && e == LeaveEvent(".rejected", Order, HistoricalRefunds, RefundFacts, Reject, reason, count, row)
  {
    hide RejectedRefund, LeaveEvent;
    reason, count := "parent order has no exact product relation", OrderRejected;
  }

  lemma SkippedMetadataReason(x: Inputs, row: SourceRow, e: Event) returns (reason: string, count: CountKey)
    requires e in SkippedMetadataStep(x)(row)
    ensures count == AudienceSkipped && e == LeaveEvent(".skipped", Audience, PackageMetadata, Segments, ArchiveNotOnV2, reason, count, row)
  {
    hide Complete, LeaveEvent;
    reason, count := "package member mapping is incomplete; recreate with V2 audience logic", AudienceSkipped;
  }

  lemma SkippedPackageReason(x: Inputs, row: SourceRow, e: Event) returns (reason: string, count: CountKey)
    requires e in SkippedPackageStep(x)(row)
    ensures count == AudienceSkipped && e == LeaveEvent(".skipped", Audience, V1Packages, Segments, ArchiveNotOnV2, reason, count, row)
  {
    hide SkippedPackage, LeaveEvent;
    reason, count := "identity mapping or legacy rule requires redesign", AudienceSkipped;
  }

  lemma LeftBehindWrites(x: Inputs, e: Event)
    requires e in LeftBehind(x)
    ensures forall w :: w in e.writes ==> w.InsertReceipt?
  {
    hide LeftBehind, Key;
    var row, suffix, domain, source, table, d, reason, count := LeaveEventOf(x, e);
  }

  lemma CopyEvent(x: Inputs, e: Event) returns (spec: CopySpec, row: SourceRow)
    requires e in FlatMap(COPIED, CopyTable(x))
    ensures spec in COPIED && row in Rows(x.src, spec.source) && Keep(x.src, spec.source, row)
    ensures e == MigrateEvent(spec.domain, spec.source, spec.target, Key(spec.source, row), row.text,
                              if Copied(x, spec.source, row).Some? then [InsertRow(spec.target, Copied(x, spec.source, row).value)] else [])
  {
    hide FlatMap, Keep, Copied, Key;
    spec := FlatMapMember(COPIED, CopyTable(x), e);
    CopyTableIs(x, spec);
    row := FlatMapMember(Rows(x.src, spec.source), CopyStep(x, spec), e);
  }

  lemma ReferenceEventOf(x: Inputs, e: Event) returns (customer: int, r: References.Reference)
    requires e in FlatMap(Sets.Ascend(x.subjects.references.Keys), CustomerReferences(x))
    ensures customer in x.subjects.references && r in x.subjects.references[customer] && e == ReferenceEvent(x, customer, r)
  {
    hide FlatMap;
    customer := FlatMapMember(Sets.Ascend(x.subjects.references.Keys), CustomerReferences(x), e);
    r := FlatMapMember(Resolution.Listed(x.subjects.references, customer), ReferenceStep(x, customer), e);
  }

  lemma CustomerEventOf(x: Inputs, e: Event) returns (row: SourceRow, receipt: Receipt)
    requires e in FlatMap(Rows(x.src, Customers), CustomerStep(x))
    ensures row in Rows(x.src, Customers) && Selected(x, row)
    ensures e.writes == CustomerWrites(x, row) + [InsertReceipt(receipt)]
  {
    hide FlatMap, Selected, CustomerWrites, Key;
    row := FlatMapMember(Rows(x.src, Customers), CustomerStep(x), e);
    receipt := Receipt(Identity, Customers, Key(Customers, row), row.text, Customers, Some(Key(Customers, row)), Migrate, "");
  }

  lemma CustomerEventWrites(x: Inputs, e: Event)
    requires e in FlatMap(Rows(x.src, Customers), CustomerStep(x))
    ensures forall w :: w in e.writes ==> !w.InsertRow?
  {
    hide FlatMap, Selected;
    var row, receipt := CustomerEventOf(x, e);
  }

  lemma SubjectEventOf(x: Inputs, e: Event) returns (y: Resolution.Synthetic, receipt: Receipt)
    requires e in FlatMap(x.subjects.synthetic, SubjectStep())
    ensures y in x.subjects.synthetic
    ensures e.writes == [InsertCustomer(Customer(y.id, y.createdAt, y.updatedAt))] + [InsertReceipt(receipt)]
  {
    hide FlatMap, SubjectText;
    y := FlatMapMember(x.subjects.synthetic, SubjectStep(), e);
    var key := Decimal.FormatInt(y.id);
    receipt := Receipt(Identity, QuestionnaireSubjects, key, SubjectText(y), Customers, Some(key), Migrate, "");
  }

  lemma CopyEventWrites(x: Inputs, e: Event)
    requires e in FlatMap(COPIED, CopyTable(x))
    ensures forall w :: w in e.writes ==> w.InsertRow? || w.InsertReceipt?
  {
    hide FlatMap, Copied, Keep, Key, CopyTable;
    var spec, row := CopyEvent(x, e);
  }

  /** Every inserted row is the copy of a kept source row. */
  lemma InsertedRow(x: Inputs, table: Entity, c: Columns) returns (spec: CopySpec, row: SourceRow)
    requires InsertRow(table, c) in Writes(Plan(x))
    ensures spec in COPIED && spec.target == table
    ensures row in Rows(x.src, spec.source) && Keep(x.src, spec.source, row) && Copied(x, spec.source, row) == Some(c)
  {
    hide Plan, FlatMap, LeftBehind, Keep, Copied, Selected, CustomerWrites, CustomerStep, SubjectStep, CopyTable, CustomerReferences;
    var e := WriteHasEvent(Plan(x), InsertRow(table, c));
    PlanMember(x, e);
    if e in LeftBehind(x) {
      LeftBehindWrites(x, e);
    } else if e in FlatMap(Rows(x.src, Customers), CustomerStep(x)) {
      CustomerEventWrites(x, e);
    } else if e in FlatMap(x.subjects.synthetic, SubjectStep()) {
      var y, receipt := SubjectEventOf(x, e);
    } else if e in FlatMap(Sets.Ascend(x.subjects.references.Keys), CustomerReferences(x)) {
      var customer, r := ReferenceEventOf(x, e);
    } else {
      spec, row := CopyEvent(x, e);
    }
  }

  /** And, in a permitted walk, every kept source row is copied. */
  lemma KeptRowInserted(x: Inputs, spec: CopySpec, row: SourceRow)
    requires spec in COPIED && row in Rows(x.src, spec.source) && Keep(x.src, spec.source, row)
    requires Copied(x, spec.source, row).Some?
    ensures InsertRow(spec.target, Copied(x, spec.source, row).value) in Writes(Plan(x))
  {
    hide FlatMap, Keep, Copied, Key, IdentityEvents, LeftBehind;
    var w := InsertRow(spec.target, Copied(x, spec.source, row).value);
    var e := MigrateEvent(spec.domain, spec.source, spec.target, Key(spec.source, row), row.text, [w]);
    FlatMapHas(Rows(x.src, spec.source), CopyStep(x, spec), row, e);
    CopyTableIs(x, spec);
    hide CopyStep, CopyTable;
    FlatMapHas(COPIED, CopyTable(x), spec, e);
    EventWrites(Plan(x), e, w);
  }

  lemma AllTransformed(x: Inputs, spec: CopySpec, row: SourceRow)
    requires Permitted(x) && spec in COPIED && row in Rows(x.src, spec.source) && Keep(x.src, spec.source, row)
    ensures Copied(x, spec.source, row).Some?
  {
    hide Keep, Copied, RequiredIdentities, CustomerIDs;
    var j :| 0 <= j < |COPIED| && COPIED[j] == spec;
    assert Transformable(x, COPIED[j]);
    var i :| 0 <= i < |Rows(x.src, spec.source)| && Rows(x.src, spec.source)[i] == row;
  }

  /** Customers are inserted for the selected rows and the invented customers, and for no one else. */
  lemma InsertedCustomer(x: Inputs, c: Customer)
    requires InsertCustomer(c) in Writes(Plan(x))
    ensures c.id in CustomerIDs(x)
  {
    hide Plan, FlatMap, LeftBehind, Wanted, CustomerStep, SubjectStep, CopyTable, CustomerReferences;
    var e := WriteHasEvent(Plan(x), InsertCustomer(c));
    PlanMember(x, e);
    if e in LeftBehind(x) {
      LeftBehindWrites(x, e);
    } else if e in FlatMap(COPIED, CopyTable(x)) {
      CopyEventWrites(x, e);
    } else if e in FlatMap(Sets.Ascend(x.subjects.references.Keys), CustomerReferences(x)) {
      var customer, r := ReferenceEventOf(x, e);
    } else if e in FlatMap(x.subjects.synthetic, SubjectStep()) {
      var y, receipt := SubjectEventOf(x, e);
    } else {
      var r, receipt := CustomerEventOf(x, e);
    }
  }

  lemma CustomerInserted(x: Inputs, id: int) returns (c: Customer)
    requires id in CustomerIDs(x)
    ensures c.id == id && InsertCustomer(c) in Writes(Plan(x))
  {
    hide FlatMap, LeftBehind, Wanted, CopyTable;
    if r :| r in Rows(x.src, Customers) && Selected(x, r) && Int(Col(r.columns, "id")) == id {
      var e := MigrateEvent(Identity, Customers, Customers, Key(Customers, r), r.text, CustomerWrites(x, r));
      FlatMapHas(Rows(x.src, Customers), CustomerStep(x), r, e);
      c := CustomerWrites(x, r)[0].customer;
      assert CustomerWrites(x, r)[0] == InsertCustomer(c) && InsertCustomer(c) in CustomerWrites(x, r);
      EventWrites(Plan(x), e, InsertCustomer(c));
    } else {
      var y :| y in x.subjects.synthetic && y.id == id;
      c := Customer(y.id, y.createdAt, y.updatedAt);
      var e := MigrateEvent(Identity, QuestionnaireSubjects, Customers, Decimal.FormatInt(y.id), SubjectText(y), [InsertCustomer(c)]);
      FlatMapHas(x.subjects.synthetic, SubjectStep(), y, e);
      EventWrites(Plan(x), e, InsertCustomer(c));
    }
  }

  /** A subject reference belongs to a selected customer or to a listed reference. */
  lemma InsertedReference(x: Inputs, q: SubjectRef) returns (row: SourceRow, r: References.Reference)
    requires InsertReference(q) in Writes(Plan(x))
    ensures
      || (row in Rows(x.src, Customers) && Selected(x, row) && InsertReference(q) == CustomerWrites(x, row)[1])
      || (q.customer in x.subjects.references && r in x.subjects.references[q.customer]
          && q == SubjectRef(q.customer, r.entity, ReferenceDigest(x.sha, r.entity, r.value)))
  {
    hide Plan, FlatMap, LeftBehind, Wanted, CustomerStep, SubjectStep, CopyTable, CustomerReferences;
    row, r := SourceRow(map[], []), References.Reference([], []);
    var e := WriteHasEvent(Plan(x), InsertReference(q));
    PlanMember(x, e);
    if e in LeftBehind(x) {
      LeftBehindWrites(x, e);
    } else if e in FlatMap(COPIED, CopyTable(x)) {
      CopyEventWrites(x, e);
    } else if e in FlatMap(Sets.Ascend(x.subjects.references.Keys), CustomerReferences(x)) {
      var customer, listed := ReferenceEventOf(x, e);
      r := listed;
    } else if e in FlatMap(x.subjects.synthetic, SubjectStep()) {
      var y, receipt := SubjectEventOf(x, e);
    } else {
      var receipt;
      row, receipt := CustomerEventOf(x, e);
    }
  }
}
