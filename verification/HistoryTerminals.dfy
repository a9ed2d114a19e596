/** What a completed import records about each row, and what its counters are numbers of
    (importEventLog and importFollowUser in cmd/aicrm-v1-domain-import/wecom_contact_history.go). */
module HistoryTerminals {
  import opened Wrappers
  import opened HistoryImport
  import Sets

  // ----- The terminal of one row

  /** The writer takes the fact: it has a key and a payload, the key is the row's, and it is valid. */
  predicate Taken(rules: Rules, kind: Kind, row: ArchivedRow, f: Fact) {
    f.key != ZERO && f.payload != ZERO && f.key == row.key && rules.valid(kind, f)
  }

  /** The row becomes a target. */
  predicate Importable(rules: Rules, item: Item) {
    item.decision.Candidate? && Taken(rules, item.kind, item.row, item.decision.fact)
  }

  /** Why a row is quarantined: the adapter's own reason, or the fixed one of its table when it gave none,
      or that the writer refused the candidate. */
  predicate ReasonIs(item: Item, reason: string) {
    match (item.kind, item.decision)
    case (EventLog, NoCandidate(given)) => if given == "" then reason == "invalid_wecom_contact_event_log" else reason == given
    case (FollowUser, NoCandidate(given)) => if given == "" then reason == "invalid_wecom_contact_follow_user" else reason == given
    case (EventLog, Candidate(_)) => reason == "wecom_contact_event_log_target_invalid"
    case (FollowUser, Candidate(_)) => reason == "wecom_contact_follow_user_target_invalid"
  }

  /** The terminal of a quarantined row: no target, and the reason. */
  predicate QuarantinedAs(s: State, item: Item) {
    var k := (item.kind, item.row.key);
    && k in s.journal && s.journal[k].disposition == Quarantined && s.journal[k].payload == item.row.payload
    && s.journal[k].targetID == 0 && s.journal[k].targetDigest == ZERO && ReasonIs(item, s.journal[k].reason)
  }

  /** The terminal of an imported row: its target is stored and is the candidate's fact. */
  predicate ImportedAs(rules: Rules, s: State, item: Item) {
    var k := (item.kind, item.row.key);
    && k in s.journal && s.journal[k].disposition == Imported && s.journal[k].payload == item.row.payload && s.journal[k].reason == ""
    && item.decision.Candidate? && s.journal[k].targetID >= 1
    && (item.kind, s.journal[k].targetID) in s.store && s.store[(item.kind, s.journal[k].targetID)] == item.decision.fact
    && s.journal[k].targetDigest == rules.digest(item.kind, item.decision.fact, s.journal[k].targetID) != ZERO
  }

  /** The candidate's envelope is that of its row. */
  predicate EnvelopeKept(item: Item) {
    item.decision.Candidate? ==>
      item.decision.fact.key == item.row.key && item.decision.fact.payload == item.row.payload && item.decision.fact.field == item.row.field
  }

  lemma ImportableIs(rules: Rules, item: Item)
    ensures QuarantineReason(rules, item).None? <==> Importable(rules, item)
    ensures QuarantineReason(rules, item).Some? ==> ReasonIs(item, QuarantineReason(rules, item).value)
  {
  }

  lemma EnvelopeIs(item: Item)
    ensures EnvelopeBroken(item) <==> !EnvelopeKept(item)
  {
  }

  lemma StepQuarantines(rules: Rules, s: State, item: Item)
    requires Step(rules, s, item).1.Some? && !Importable(rules, item)
    ensures QuarantinedAs(Step(rules, s, item).0, item) && EnvelopeKept(item)
  {
    hide QuarantineReason, Importable, Replays, EnvelopeBroken, ReasonIs;
    ImportableIs(rules, item);
    EnvelopeIs(item);
  }

  lemma StepImports(rules: Rules, s: State, item: Item)
    requires Step(rules, s, item).1.Some? && Importable(rules, item) && (item.kind, item.row.key) !in s.journal
    ensures ImportedAs(rules, Step(rules, s, item).0, item) && EnvelopeKept(item)
  {
    hide QuarantineReason, Importable, Replays, EnvelopeBroken;
    ImportableIs(rules, item);
    EnvelopeIs(item);
    QuarantineCases(rules, item);
  }

  /** A row that could be imported and is recorded already: it is replayed, and nothing changes, exactly when the
      record is the receipt of this very fact and the target is still the one it was; otherwise the row is
      refused without a trace. */
  lemma RecordedRow(rules: Rules, s: State, item: Item)
    requires Importable(rules, item) && EnvelopeKept(item) && (item.kind, item.row.key) in s.journal
    ensures var t, f := s.journal[(item.kind, item.row.key)], item.decision.fact;
            Step(rules, s, item) ==
            if t.disposition == Imported && t.reason == "" && t.payload == f.payload && t.targetID >= 1 && t.targetDigest != ZERO
               && (item.kind, t.targetID) in s.store
               && rules.digest(item.kind, s.store[(item.kind, t.targetID)], t.targetID) == t.targetDigest == rules.digest(item.kind, f, t.targetID)
            then (s, Some(Outcome(true, true))) else (s, None)
  {
    hide QuarantineReason, Importable, EnvelopeBroken, EnvelopeKept;
    ImportableIs(rules, item);
    EnvelopeIs(item);
    QuarantineCases(rules, item);
  }

  lemma StepKeeps(rules: Rules, s: State, item: Item)
    requires Step(rules, s, item).1.Some?
    ensures EnvelopeKept(item)
  {
    hide QuarantineReason, Replays, EnvelopeBroken;
    EnvelopeIs(item);
  }

  lemma RightStaysRight(rules: Rules, s: State, t: State, item: Item)
    requires Extends(s, t)
    ensures QuarantinedAs(s, item) ==> QuarantinedAs(t, item)
    ensures ImportedAs(rules, s, item) ==> ImportedAs(rules, t, item)
  {
    hide ReasonIs;
  }

  // ----- A whole run

  function KeysOf(items: seq<Item>): set<(Kind, Digest)> {
    set item | item in items :: (item.kind, item.row.key)
  }

  lemma StepKeys(rules: Rules, s: State, item: Item)
    requires Step(rules, s, item).1.Some?
    ensures Step(rules, s, item).0.journal.Keys == s.journal.Keys + {(item.kind, item.row.key)}
    ensures Step(rules, s, item).1.value.imported <==> Importable(rules, item)
    ensures Step(rules, s, item).1.value.replayed <==> (item.kind, item.row.key) in s.journal
  {
    hide QuarantineReason, Importable, Replays, EnvelopeBroken;
    ImportableIs(rules, item);
  }

  /** A run that is not stopped has recorded the keys of its rows and no others. */
  lemma {:induction false} RunKeys(rules: Rules, s: State, items: seq<Item>, n: nat)
    requires n <= |items| && !RunItems(rules, s, items, n).stopped
    ensures RunItems(rules, s, items, n).state.journal.Keys == s.journal.Keys + KeysOf(items[..n])
  {
    hide Step;
    if n > 0 {
      RunKeys(rules, s, items, n - 1);
      StepKeys(rules, RunItems(rules, s, items, n - 1).state, items[n - 1]);
      assert items[..n] == items[..n - 1] + [items[n - 1]];
    }
  }

  lemma FreshKey(s: State, items: seq<Item>, n: nat)
    requires n < |items| && KeysDiffer(items)
    ensures (items[n].kind, items[n].row.key) in s.journal.Keys + KeysOf(items[..n]) <==> (items[n].kind, items[n].row.key) in s.journal
  {
  }

  /** Main result: after a run that was not stopped every row that could not be imported is quarantined for
      its reason; and when nothing was recorded about the rows before, every other row has its fact in the
      target. */
  lemma EveryTerminalIsRight(rules: Rules, s: State, items: seq<Item>, i: nat)
    requires !RunAll(rules, s, items).stopped && KeysDiffer(items) && i < |items|
    ensures EnvelopeKept(items[i])
    ensures !Importable(rules, items[i]) ==> QuarantinedAs(RunAll(rules, s, items).state, items[i])
    ensures Importable(rules, items[i]) && (items[i].kind, items[i].row.key) !in s.journal ==> ImportedAs(rules, RunAll(rules, s, items).state, items[i])
  {
    hide Extends, Step, Importable, QuarantinedAs, ImportedAs, EnvelopeKept, KeysDiffer;
    RunExtends(rules, s, items, i, |items|);
    RunExtends(rules, s, items, i + 1, |items|);
    var before, after := RunItems(rules, s, items, i).state, RunItems(rules, s, items, i + 1).state;
    RunKeys(rules, s, items, i);
    FreshKey(s, items, i);
    StepKeeps(rules, before, items[i]);
    if !Importable(rules, items[i]) {
      StepQuarantines(rules, before, items[i]);
    } else if (items[i].kind, items[i].row.key) !in s.journal {
      StepImports(rules, before, items[i]);
    }
    RightStaysRight(rules, after, RunAll(rules, s, items).state, items[i]);
  }

  /** The counters are the numbers of rows that could be imported, that could not, and that were recorded
      before the run began. */
  lemma {:induction false} CountersAreRows(rules: Rules, s: State, items: seq<Item>, n: nat)
    requires n <= |items| && !RunItems(rules, s, items, n).stopped && KeysDiffer(items)
    ensures var tally := RunItems(rules, s, items, n).tally;
            && tally.imported == |Sets.Where(items[..n], (item: Item) => Importable(rules, item))|
            && tally.quarantined == |Sets.Where(items[..n], (item: Item) => !Importable(rules, item))|
            && tally.replayed == |Sets.Where(items[..n], (item: Item) => (item.kind, item.row.key) in s.journal)|
  {
    hide Step, Importable, Sets.Where, KeysDiffer;
    var a, b, c := (item: Item) => Importable(rules, item), (item: Item) => !Importable(rules, item), (item: Item) => (item.kind, item.row.key) in s.journal;
    if n == 0 {
      assert items[..0] == [];
      Sets.WhereNone(a);
      Sets.WhereNone(b);
      Sets.WhereNone(c);
    } else {
      var front, last := items[..n - 1], items[n - 1];
      assert items[..n] == front + [last];
      CountersAreRows(rules, s, items, n - 1);
      RunKeys(rules, s, items, n - 1);
      FreshKey(s, items, n - 1);
      StepKeys(rules, RunItems(rules, s, items, n - 1).state, last);
      Sets.WhereMore(front, last, a);
      Sets.WhereMore(front, last, b);
      Sets.WhereMore(front, last, c);
    }
  }

  /** Both tables after an import of nothing recorded before. */
  lemma BothTablesRight(rules: Rules, s: State, a: seq<Item>, b: seq<Item>)
    requires KeysDiffer(a) && KeysDiffer(b) && s.journal == map[]
    requires (forall item :: item in a ==> item.kind == EventLog) && forall item :: item in b ==> item.kind == FollowUser
    requires !RunAll(rules, s, a).stopped && !RunAll(rules, RunAll(rules, s, a).state, b).stopped
    ensures var end := RunAll(rules, RunAll(rules, s, a).state, b).state;
            forall item :: item in a + b ==>
              EnvelopeKept(item) && if Importable(rules, item) then ImportedAs(rules, end, item) else QuarantinedAs(end, item)
  {
    hide Step, Importable, QuarantinedAs, ImportedAs, EnvelopeKept, KeysDiffer, Extends;
    var middle := RunAll(rules, s, a).state;
    var end := RunAll(rules, middle, b).state;
    RunExtends(rules, middle, b, 0, |b|);
    RunKeys(rules, s, a, |a|);
    forall i | 0 <= i < |a| ensures EnvelopeKept(a[i]) && if Importable(rules, a[i]) then ImportedAs(rules, end, a[i]) else QuarantinedAs(end, a[i]) {
      EveryTerminalIsRight(rules, s, a, i);
      RightStaysRight(rules, middle, end, a[i]);
    }
    forall i | 0 <= i < |b| ensures EnvelopeKept(b[i]) && if Importable(rules, b[i]) then ImportedAs(rules, end, b[i]) else QuarantinedAs(end, b[i]) {
      assert a[..|a|] == a;
      EveryTerminalIsRight(rules, middle, b, i);
    }
  }
}
