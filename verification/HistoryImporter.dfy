/** The importer as it runs: rows are read and checked, then each is handled in its own transaction
    against the shared database (WeComContactHistoryImporter in
    cmd/aicrm-v1-domain-import/wecom_contact_history.go). */
module HistoryImporter {
  import opened Wrappers
  import opened HistoryImport
  import opened HistoryTerminals
  import Sets

  const ADAPTER := "v1_full_archive"

  function TableID(kind: Kind): string {
    match kind
    case EventLog => "public/wecom_external_contact_event_logs"
    case FollowUser => "public/wecom_external_contact_follow_users"
  }

  /** What readRows accepts as the next row of a table. */
  predicate RowValid(kind: Kind, row: ArchivedRow, position: nat) {
    && row.adapter == ADAPTER && row.table == TableID(kind) && row.ordinal == position + 1
    && row.key != ZERO && row.payload != ZERO && row.field != ZERO
  }

  predicate RowsValid(kind: Kind, rows: seq<ArchivedRow>, expected: nat) {
    && |rows| == expected
    && (forall i :: 0 <= i < |rows| ==> RowValid(kind, rows[i], i))
    && (forall i, j :: 0 <= i < j < |rows| ==> rows[i].key != rows[j].key)
  }

  /** Rows of the table, numbered from one, with three digests each. */
  predicate Numbered(kind: Kind, rows: seq<ArchivedRow>) {
    forall i :: 0 <= i < |rows| ==>
      && rows[i].adapter == "v1_full_archive" && rows[i].ordinal == i + 1
      && rows[i].table == (if kind == EventLog then "public/wecom_external_contact_event_logs" else "public/wecom_external_contact_follow_users")
      && rows[i].key != ZERO && rows[i].payload != ZERO && rows[i].field != ZERO
  }

  predicate OneEach(rows: seq<ArchivedRow>) {
    forall i, j :: 0 <= i < |rows| && 0 <= j < |rows| && rows[i].key == rows[j].key ==> i == j
  }

  lemma RowsValidIs(kind: Kind, rows: seq<ArchivedRow>)
    ensures RowsValid(kind, rows, |rows|) <==> Numbered(kind, rows) && OneEach(rows)
  {
    if RowsValid(kind, rows, |rows|) {
      forall i, j | 0 <= i < |rows| && 0 <= j < |rows| && rows[i].key == rows[j].key ensures i == j { assert !(i < j) && !(j < i); }
    }
  }

  method ReadRows(kind: Kind, archive: seq<ArchivedRow>, expected: nat) returns (ok: bool)
    ensures ok <==> RowsValid(kind, archive, expected)
    ensures ok <==> |archive| == expected && Numbered(kind, archive) && OneEach(archive)
  {
    hide Numbered, OneEach, TableID;
    RowsValidIs(kind, archive);
    var seen: set<Digest> := {};
    for i := 0 to |archive|
      invariant forall j :: 0 <= j < i ==> RowValid(kind, archive[j], j) && archive[j].key in seen
      invariant forall k :: k in seen ==> exists j :: 0 <= j < i && archive[j].key == k
      invariant forall j, k :: 0 <= j < k < i ==> archive[j].key != archive[k].key
    {
      var row := archive[i];
      if row.adapter != ADAPTER || row.table != TableID(kind) || row.ordinal != i + 1
         || row.key == ZERO || row.payload == ZERO || row.field == ZERO {
        return false;
      }
      if row.key in seen { return false; }
      seen := seen + {row.key};
    }
    ok := |archive| == expected;
  }

  function ItemsOf(kind: Kind, rows: seq<ArchivedRow>, decisions: seq<Decision>): (items: seq<Item>)
    requires |rows| == |decisions|
    ensures |items| == |rows| && forall i :: 0 <= i < |items| ==> items[i] == Item(kind, rows[i], decisions[i])
  {
    seq(|rows|, i requires 0 <= i < |rows| => Item(kind, rows[i], decisions[i]))
  }

  /** AdaptHistory: one decision per row, a function of the rows. */
  type Adapter = (Kind, seq<ArchivedRow>) -> seq<Decision>

  datatype Result = Result(importedEventLogs: nat, importedFollowUsers: nat, quarantinedEventLogs: nat, quarantinedFollowUsers: nat, replayed: nat)

  class Database {
    var journal: map<(Kind, Digest), Terminal>
    var store: map<(Kind, int), Fact>
    var next: nat

    ghost function Now(): State
      reads this
    {
      State(journal, store, next)
    }

    constructor (initial: State)
      ensures Now() == initial
    {
      journal, store, next := initial.journal, initial.store, initial.next;
    }

    /** recordQuarantine */
    method RecordQuarantine(kind: Kind, row: ArchivedRow, reason: string) returns (ok: bool, replayed: bool)
      requires reason != ""
      modifies this`journal
      ensures var t, key := Terminal(row.payload, Quarantined, reason, 0, ZERO), (kind, row.key);
              && (ok <==> key !in old(journal) || old(journal)[key] == t)
              && (replayed <==> key in old(journal) && old(journal)[key] == t)
              && journal == if key in old(journal) then old(journal) else old(journal)[key := t]
    {
      var key := (kind, row.key);
      if key in journal {
        var existing := journal[key];
        if existing.payload != row.payload || existing.disposition != Quarantined || existing.reason != reason
           || existing.targetID != 0 || existing.targetDigest != ZERO {
          return false, false;
        }
        return true, true;
      }
      journal := journal[key := Terminal(row.payload, Quarantined, reason, 0, ZERO)];
      return true, false;
    }

    /** The writer, past its validity checks: replays a receipt or creates the target and records one. */
    method WriteFact(rules: Rules, item: Item) returns (receipt: Option<Receipt>)
      requires item.decision.Candidate?
      modifies this
      ensures var s, key, f := old(Now()), (item.kind, item.row.key), item.decision.fact;
              if key in s.journal then
                && (receipt.Some? <==> Replays(rules, s, item, s.journal[key])) && Now() == s
                && (receipt.Some? ==> receipt.value == Receipt(item.kind, item.row.key, f.payload, s.journal[key].targetID, s.journal[key].targetDigest, true))
              else
                var id, digest := s.next + 1, rules.digest(item.kind, f, s.next + 1);
                && (receipt.Some? <==> (item.kind, id) !in s.store && digest != ZERO)
                && next == id
                && (receipt.Some? ==> receipt.value == Receipt(item.kind, item.row.key, f.payload, id, digest, false)
                                      && journal == s.journal[key := Terminal(f.payload, Imported, "", id, digest)]
                                      && store == s.store[(item.kind, id) := f])
    {
      var key, f := (item.kind, item.row.key), item.decision.fact;
      if key in journal {
        var t := journal[key];
        if t.disposition != Imported || t.reason != "" || t.targetID < 1 || t.targetDigest == ZERO { return None; }
        if t.payload != f.payload { return None; }
        if (item.kind, t.targetID) !in store { return None; }
        var actual := rules.digest(item.kind, store[(item.kind, t.targetID)], t.targetID);
        var expected := rules.digest(item.kind, f, t.targetID);
        if actual != expected || actual != t.targetDigest { return None; }
        return Some(Receipt(item.kind, item.row.key, t.payload, t.targetID, t.targetDigest, true));
      }
      next := next + 1;
      var id := next;
      if (item.kind, id) in store { return None; }
      store := store[(item.kind, id) := f];
      var digest := rules.digest(item.kind, f, id);
      if digest == ZERO { return None; }
      journal := journal[key := Terminal(f.payload, Imported, "", id, digest)];
      receipt := Some(Receipt(item.kind, item.row.key, f.payload, id, digest, false));
    }

    /** verifyReceipt */
    method VerifyReceipt(item: Item, receipt: Receipt) returns (ok: bool)
      ensures ok <==> && receipt.kind == item.kind && receipt.key == item.row.key && receipt.payload == item.row.payload
                      && receipt.targetID >= 1 && receipt.targetDigest != ZERO
                      && (item.kind, item.row.key) in journal
                      && journal[(item.kind, item.row.key)] == Terminal(receipt.payload, Imported, "", receipt.targetID, receipt.targetDigest)
    {
      if receipt.kind != item.kind || receipt.key != item.row.key || receipt.payload != item.row.payload
         || receipt.targetID < 1 || receipt.targetDigest == ZERO {
        return false;
      }
      if (item.kind, item.row.key) !in journal { return false; }
      var stored := journal[(item.kind, item.row.key)];
      ok := stored.disposition == Imported && stored.reason == "" && stored.payload == receipt.payload
            && stored.targetID == receipt.targetID && stored.targetDigest == receipt.targetDigest;
    }

    /** The body of a row's transaction. */
    method Apply(rules: Rules, item: Item) returns (outcome: Option<Outcome>)
      modifies this
      ensures var (s, o) := Step(rules, old(Now()), item);
              outcome == o && next == s.next && (o.Some? ==> Now() == s)
    {
      if item.decision.NoCandidate? {
        var ok, replayed := RecordQuarantine(item.kind, item.row, FixedReason(item.decision.reason, Fallback(item.kind)));
        return if ok then Some(Outcome(false, replayed)) else None;
      }
      if !SameEnvelope(item.row, item.decision.fact) { return None; }
      if !WriterValid(rules, item.kind, item.row.key, item.decision.fact) {
        var ok, replayed := RecordQuarantine(item.kind, item.row, InvalidTarget(item.kind));
        return if ok then Some(Outcome(false, replayed)) else None;
      }
      var receipt := WriteFact(rules, item);
      if receipt.None? { return None; }
      var verified := VerifyReceipt(item, receipt.value);
      if !verified { return None; }
      outcome := Some(Outcome(true, receipt.value.replayed));
    }

    /** importEventLog and importFollowUser: one transaction, committed or discarded as a whole. */
    method ImportRow(rules: Rules, item: Item) returns (outcome: Option<Outcome>)
      modifies this
      ensures (Now(), outcome) == Step(rules, old(Now()), item)
    {
      var savedJournal, savedStore := journal, store;
      ghost var before := Now();
      outcome := Apply(rules, item);
      if outcome.None? {
        DiscardedRow(rules, before, item);
        journal, store := savedJournal, savedStore;
      }
    }

    /** The loop over one table's decisions. */
    method ImportRows(rules: Rules, items: seq<Item>) returns (tally: Tally, ok: bool)
      modifies this
      ensures RunAll(rules, old(Now()), items) == Run(Now(), tally, !ok)
    {
      hide Step;
      tally, ok := NOTHING, true;
      ghost var start := Now();
      for i := 0 to |items|
        invariant RunItems(rules, start, items, i) == Run(Now(), tally, false)
      {
        var outcome := ImportRow(rules, items[i]);
        if outcome.None? {
          RunExtends(rules, start, items, i + 1, |items|);
          return tally, false;
        }
        tally := Add(tally, outcome.value);
      }
    }

    /** Import: the event logs, then the follow users; the totals must match the expected row counts. */
    method Import(rules: Rules, adapt: Adapter, eventLogs: seq<ArchivedRow>, followUsers: seq<ArchivedRow>, expectedEventLogs: nat, expectedFollowUsers: nat)
      returns (result: Option<Result>)
      requires |adapt(EventLog, eventLogs)| == |eventLogs| && |adapt(FollowUser, followUsers)| == |followUsers|
      modifies this
      ensures var first := RunAll(rules, old(Now()), ItemsOf(EventLog, eventLogs, adapt(EventLog, eventLogs)));
              var second := RunAll(rules, first.state, ItemsOf(FollowUser, followUsers, adapt(FollowUser, followUsers)));
              if !RowsValid(EventLog, eventLogs, expectedEventLogs) then result.None? && Now() == old(Now())
              else if first.stopped || !RowsValid(FollowUser, followUsers, expectedFollowUsers) then result.None? && Now() == first.state
              else
                && Now() == second.state && (result.Some? <==> !second.stopped)
                && (result.Some? ==> result.value == Result(first.tally.imported, second.tally.imported, first.tally.quarantined,
                                                            second.tally.quarantined, first.tally.replayed + second.tally.replayed))
      ensures result.Some? && old(journal) == map[] ==>
                forall item :: item in ItemsOf(EventLog, eventLogs, adapt(EventLog, eventLogs)) + ItemsOf(FollowUser, followUsers, adapt(FollowUser, followUsers)) ==>
                  EnvelopeKept(item) && if Importable(rules, item) then ImportedAs(rules, Now(), item) else QuarantinedAs(Now(), item)
      ensures result.Some? ==>
                && result.value.importedEventLogs ==
                   |Sets.Where(ItemsOf(EventLog, eventLogs, adapt(EventLog, eventLogs)), (item: Item) => Importable(rules, item))|
                && result.value.importedFollowUsers ==
                   |Sets.Where(ItemsOf(FollowUser, followUsers, adapt(FollowUser, followUsers)), (item: Item) => Importable(rules, item))|
                && result.value.quarantinedEventLogs == |eventLogs| - result.value.importedEventLogs
                && result.value.quarantinedFollowUsers == |followUsers| - result.value.importedFollowUsers
    {
      hide RunAll, RowsValid, Importable, EnvelopeKept, ImportedAs, QuarantinedAs, Sets.Where;
      var readable := ReadRows(EventLog, eventLogs, expectedEventLogs);
      if !readable { return None; }
      ghost var start := Now();
      var items := ItemsOf(EventLog, eventLogs, adapt(EventLog, eventLogs));
      var first, firstOk := ImportRows(rules, items);
      if !firstOk { return None; }
      readable := ReadRows(FollowUser, followUsers, expectedFollowUsers);
      if !readable { return None; }
      ghost var middle := Now();
      var more := ItemsOf(FollowUser, followUsers, adapt(FollowUser, followUsers));
      var second, secondOk := ImportRows(rules, more);
      if !secondOk { return None; }
      TotalsMatch(rules, start, items, first, expectedEventLogs, EventLog, eventLogs);
      TotalsMatch(rules, middle, more, second, expectedFollowUsers, FollowUser, followUsers);
      DifferentKeys(EventLog, eventLogs, expectedEventLogs, items);
      DifferentKeys(FollowUser, followUsers, expectedFollowUsers, more);
      Counted(rules, start, items);
      Counted(rules, middle, more);
      RowsAgree(EventLog, eventLogs, expectedEventLogs);
      RowsAgree(FollowUser, followUsers, expectedFollowUsers);
      if start.journal == map[] { BothTablesRight(rules, start, items, more); }
      if first.imported + second.imported + first.quarantined + second.quarantined != expectedEventLogs + expectedFollowUsers { return None; }
      result := Some(Result(first.imported, second.imported, first.quarantined, second.quarantined, first.replayed + second.replayed));
    }
  }

  lemma DifferentKeys(kind: Kind, rows: seq<ArchivedRow>, expected: nat, items: seq<Item>)
    requires RowsValid(kind, rows, expected) && |items| == |rows| && forall i :: 0 <= i < |items| ==> items[i].row == rows[i]
    ensures KeysDiffer(items)
  {
  }

  lemma RowsAgree(kind: Kind, rows: seq<ArchivedRow>, expected: nat)
    requires RowsValid(kind, rows, expected)
    ensures |rows| == expected
  {
  }

  lemma Counted(rules: Rules, s: State, items: seq<Item>)
    requires KeysDiffer(items) && !RunAll(rules, s, items).stopped
    ensures RunAll(rules, s, items).tally.imported == |Sets.Where(items, (item: Item) => Importable(rules, item))|
  {
    hide Importable, Sets.Where, RunItems, KeysDiffer;
    assert items[..|items|] == items;
    CountersAreRows(rules, s, items, |items|);
  }

  /** The final count check of Import never fails: each table accounts for all its expected rows. */
  lemma TotalsMatch(rules: Rules, s: State, items: seq<Item>, tally: Tally, expected: nat, kind: Kind, rows: seq<ArchivedRow>)
    requires RowsValid(kind, rows, expected) && |items| == |rows|
    requires RunAll(rules, s, items).tally == tally && !RunAll(rules, s, items).stopped
    ensures tally.imported + tally.quarantined == expected
  {
    hide Step;
    TallyTotals(rules, s, items, |items|);
  }

  /** Both tables: an import started again after stopping anywhere in the second table replays the
      first table whole and then finishes with the state of an uninterrupted import. */
  lemma RestartInSecondTable(rules: Rules, s: State, a: seq<Item>, b: seq<Item>, n: nat)
    requires n <= |b| && !RunAll(rules, s, a).stopped && !RunItems(rules, RunAll(rules, s, a).state, b, n).stopped
    ensures
      var middle := RunAll(rules, s, a);
      var stopped := RunItems(rules, middle.state, b, n).state;
      && RunAll(rules, stopped, a) == Run(stopped, Tally(middle.tally.imported, middle.tally.quarantined, |a|), false)
      && RunAll(rules, stopped, b).state == RunAll(rules, middle.state, b).state
      && RunAll(rules, stopped, b).stopped == RunAll(rules, middle.state, b).stopped
  {
    hide Step, Extends;
    var middle := RunAll(rules, s, a).state;
    RunExtends(rules, middle, b, 0, n);
    ReplayedPrefix(rules, s, a, |a|, RunItems(rules, middle, b, n).state, |a|);
    RestartEquivalence(rules, middle, b, n, |b|);
  }

  /** A second import after a complete one reports every row of both tables as replayed, changes
      nothing and counts the same dispositions. */
  lemma SecondImportReplays(rules: Rules, s: State, a: seq<Item>, b: seq<Item>)
    requires !RunAll(rules, s, a).stopped && !RunAll(rules, RunAll(rules, s, a).state, b).stopped
    ensures
      var first := RunAll(rules, s, a);
      var second := RunAll(rules, first.state, b);
      && RunAll(rules, second.state, a) == Run(second.state, Tally(first.tally.imported, first.tally.quarantined, |a|), false)
      && RunAll(rules, second.state, b) == Run(second.state, Tally(second.tally.imported, second.tally.quarantined, |b|), false)
  {
    hide Step, Extends;
    var first := RunAll(rules, s, a).state;
    RestartInSecondTable(rules, s, a, b, |b|);
    CompleteRerun(rules, first, b);
  }
}
