/** The replayable import of WeCom contact history: what one row does to the journal and the target,
    and what a whole run leaves (cmd/aicrm-v1-domain-import/wecom_contact_history.go and the writer in
    internal/contact/app/wecom_contact_history.go). */
module HistoryImport {
  import opened Wrappers
  import Journals

  datatype Kind = EventLog | FollowUser

  type Digest = Journals.Digest

  const ZERO: Digest := Journals.ZERO

  /** An observation adapted from an archived row: its source envelope and everything else. */
  datatype Fact = Fact(key: Digest, payload: Digest, field: Digest, content: string)

  datatype ArchivedRow = ArchivedRow(adapter: string, table: string, ordinal: int, key: Digest, payload: Digest, field: Digest)

  datatype Decision = Candidate(fact: Fact) | NoCandidate(reason: string)

  datatype Disposition = Imported | Quarantined

  /** One row of v1_domain_import_receipts. */
  datatype Terminal = Terminal(payload: Digest, disposition: Disposition, reason: string, targetID: int, targetDigest: Digest)

  datatype Receipt = Receipt(kind: Kind, key: Digest, payload: Digest, targetID: int, targetDigest: Digest, replayed: bool)

  /** The journal and target tables, and the id sequence, which no rollback resets. */
  datatype State = State(journal: map<(Kind, Digest), Terminal>, store: map<(Kind, int), Fact>, next: nat)

  /** The validity checks and the digest of a stored fact. */
  datatype Rules = Rules(valid: (Kind, Fact) -> bool, digest: (Kind, Fact, int) -> Digest)

  datatype Item = Item(kind: Kind, row: ArchivedRow, decision: Decision)

  datatype Outcome = Outcome(imported: bool, replayed: bool)

  // ----- One row

  function Fallback(kind: Kind): string {
    match kind
    case EventLog => "invalid_wecom_contact_event_log"
    case FollowUser => "invalid_wecom_contact_follow_user"
  }

  function InvalidTarget(kind: Kind): string {
    match kind
    case EventLog => "wecom_contact_event_log_target_invalid"
    case FollowUser => "wecom_contact_follow_user_target_invalid"
  }

  function FixedReason(reason: string, fallback: string): string {
    if reason == "" then fallback else reason
  }

  predicate SameEnvelope(row: ArchivedRow, f: Fact) {
    f.key == row.key && f.payload == row.payload && f.field == row.field
  }

  /** What the writer refuses as invalid before it looks at the journal. */
  predicate WriterValid(rules: Rules, kind: Kind, key: Digest, f: Fact) {
    f.key != ZERO && f.payload != ZERO && key == f.key && rules.valid(kind, f)
  }

  /** The reason a row is quarantined for; None when it is to be imported. */
  function QuarantineReason(rules: Rules, item: Item): Option<string> {
    match item.decision
    case NoCandidate(reason) => Some(FixedReason(reason, Fallback(item.kind)))
    case Candidate(f) => if WriterValid(rules, item.kind, item.row.key, f) then None else Some(InvalidTarget(item.kind))
  }

  /** Whether a stored terminal is the receipt of this very observation. */
  predicate Replays(rules: Rules, s: State, item: Item, t: Terminal)
    requires item.decision.Candidate?
  {
    && t.disposition == Imported && t.reason == "" && t.payload == item.decision.fact.payload && t.targetID >= 1 && t.targetDigest != ZERO
    && (item.kind, t.targetID) in s.store
    && rules.digest(item.kind, s.store[(item.kind, t.targetID)], t.targetID) == t.targetDigest
    && rules.digest(item.kind, item.decision.fact, t.targetID) == t.targetDigest
  }

  predicate EnvelopeBroken(item: Item) {
    item.decision.Candidate? && !SameEnvelope(item.row, item.decision.fact)
  }

  /** The state after one row's transaction, and its outcome; None when it was discarded. */
  function Step(rules: Rules, s: State, item: Item): (State, Option<Outcome>) {
    var key := (item.kind, item.row.key);
    if EnvelopeBroken(item) then (s, None)
    else
      match QuarantineReason(rules, item)
      case Some(reason) =>
        var t := Terminal(item.row.payload, Quarantined, reason, 0, ZERO);
        if key !in s.journal then (s.(journal := s.journal[key := t]), Some(Outcome(false, false)))
        else if s.journal[key] == t then (s, Some(Outcome(false, true)))
        else (s, None)
      case None =>
        if key in s.journal then
          if Replays(rules, s, item, s.journal[key]) then (s, Some(Outcome(true, true))) else (s, None)
        else
          var id, f := s.next + 1, item.decision.fact;
          var digest := rules.digest(item.kind, f, id);
          if (item.kind, id) in s.store || digest == ZERO then (s.(next := id), None)
          else
            (State(s.journal[key := Terminal(f.payload, Imported, "", id, digest)], s.store[(item.kind, id) := f], id), Some(Outcome(true, false)))
  }

  // ----- What every step keeps

  /** Nothing recorded is lost or altered. */
  predicate Extends(s: State, t: State) {
    && (forall k :: k in s.journal ==> k in t.journal && t.journal[k] == s.journal[k])
    && (forall k :: k in s.store ==> k in t.store && t.store[k] == s.store[k])
    && s.next <= t.next
  }

  lemma StepExtends(rules: Rules, s: State, item: Item)
    ensures Extends(s, Step(rules, s, item).0)
  {
  }

  /** A discarded row leaves the journal and the target as they were. */
  lemma DiscardedRow(rules: Rules, s: State, item: Item)
    requires Step(rules, s, item).1.None?
    ensures Step(rules, s, item).0.journal == s.journal && Step(rules, s, item).0.store == s.store
  {
  }

  /** A committed row has its terminal, with the disposition its outcome says. */
  lemma CommittedRow(rules: Rules, s: State, item: Item)
    requires Step(rules, s, item).1.Some?
    ensures
      var (t, o) := Step(rules, s, item);
      var key := (item.kind, item.row.key);
      && key in t.journal && t.journal[key].payload == item.row.payload
      && (t.journal[key].disposition == Imported <==> o.value.imported)
      && (o.value.replayed <==> key in s.journal)
  {
  }

  /** In any later state the same row is replayed, with the same disposition, and changes nothing. */
  lemma Replayed(rules: Rules, s: State, item: Item, later: State)
    requires Step(rules, s, item).1.Some? && Extends(Step(rules, s, item).0, later)
    ensures Step(rules, later, item) == (later, Some(Outcome(Step(rules, s, item).1.value.imported, true)))
  {
    var key := (item.kind, item.row.key);
    CommittedRow(rules, s, item);
    var t := Step(rules, s, item).0;
    assert later.journal[key] == t.journal[key];
    if QuarantineReason(rules, item).None? {
      var id := t.journal[key].targetID;
      assert (item.kind, id) in t.store;
    }
  }

  // ----- A run

  datatype Tally = Tally(imported: nat, quarantined: nat, replayed: nat)

  const NOTHING := Tally(0, 0, 0)

  function Add(t: Tally, o: Outcome): Tally {
    Tally(t.imported + (if o.imported then 1 else 0), t.quarantined + (if o.imported then 0 else 1), t.replayed + (if o.replayed then 1 else 0))
  }

  /** A run stops at the first row that is discarded; rows before it stay committed. */
  datatype Run = Run(state: State, tally: Tally, stopped: bool)

  function RunItems(rules: Rules, s: State, items: seq<Item>, n: nat): Run
    requires n <= |items|
  {
    if n == 0 then Run(s, NOTHING, false)
    else
      var before := RunItems(rules, s, items, n - 1);
      if before.stopped then before
      else
        var (t, o) := Step(rules, before.state, items[n - 1]);
        if o.None? then Run(t, before.tally, true) else Run(t, Add(before.tally, o.value), false)
  }

  function RunAll(rules: Rules, s: State, items: seq<Item>): Run {
    RunItems(rules, s, items, |items|)
  }

  lemma ExtendsTransitive(s: State, t: State, u: State)
    requires Extends(s, t) && Extends(t, u)
    ensures Extends(s, u)
  {
  }

  lemma {:induction false} RunExtends(rules: Rules, s: State, items: seq<Item>, m: nat, n: nat)
    requires m <= n <= |items|
    ensures Extends(RunItems(rules, s, items, m).state, RunItems(rules, s, items, n).state)
    ensures RunItems(rules, s, items, m).stopped ==> RunItems(rules, s, items, n) == RunItems(rules, s, items, m)
  {
    hide Step, Extends;
    if m < n {
      RunExtends(rules, s, items, m, n - 1);
      var before := RunItems(rules, s, items, n - 1).state;
      StepExtends(rules, before, items[n - 1]);
      if !RunItems(rules, s, items, n - 1).stopped {
        ExtendsTransitive(RunItems(rules, s, items, m).state, before, RunItems(rules, s, items, n).state);
      }
    } else {
      ExtendsReflexive(RunItems(rules, s, items, m).state);
    }
  }

  lemma ExtendsReflexive(s: State)
    ensures Extends(s, s)
  {
  }

  /** Safety over whole runs: no terminal ever changes or disappears, whatever rows follow. */
  lemma TerminalsNeverChange(rules: Rules, s: State, items: seq<Item>, n: nat, k: (Kind, Digest))
    requires n <= |items| && k in s.journal
    ensures k in RunItems(rules, s, items, n).state.journal && RunItems(rules, s, items, n).state.journal[k] == s.journal[k]
  {
    RunExtends(rules, s, items, 0, n);
  }

  /** Rows of an earlier run that was not stopped are replayed one for one and change nothing. */
  lemma {:induction false} ReplayedPrefix(rules: Rules, s: State, items: seq<Item>, n: nat, later: State, m: nat)
    requires m <= n <= |items| && !RunItems(rules, s, items, n).stopped && Extends(RunItems(rules, s, items, n).state, later)
    ensures !RunItems(rules, s, items, m).stopped
    ensures
      var again, first := RunItems(rules, later, items, m), RunItems(rules, s, items, m);
      again == Run(later, Tally(first.tally.imported, first.tally.quarantined, m), false)
  {
    hide Step, Extends;
    RunExtends(rules, s, items, m, n);
    if m > 0 {
      ReplayedPrefix(rules, s, items, n, later, m - 1);
      var before := RunItems(rules, s, items, m - 1).state;
      ExtendsTransitive(RunItems(rules, s, items, m).state, RunItems(rules, s, items, n).state, later);
      Replayed(rules, before, items[m - 1], later);
    }
  }

  /** Main result: a run stopped after any prefix of rows and started again ends with the journal, the
      target and the dispositions of one uninterrupted run. */
  lemma {:induction false} RestartEquivalence(rules: Rules, s: State, items: seq<Item>, n: nat, m: nat)
    requires n <= m <= |items| && !RunItems(rules, s, items, n).stopped
    ensures
      var stopped := RunItems(rules, s, items, n).state;
      var again, whole := RunItems(rules, stopped, items, m), RunItems(rules, s, items, m);
      && again.state == whole.state && again.stopped == whole.stopped
      && again.tally.imported == whole.tally.imported && again.tally.quarantined == whole.tally.quarantined
  {
    hide Step, Extends;
    var stopped := RunItems(rules, s, items, n).state;
    if n == m {
      ExtendsReflexive(stopped);
      ReplayedPrefix(rules, s, items, n, stopped, n);
    } else {
      RestartEquivalence(rules, s, items, n, m - 1);
    }
  }

  /** A second run over a completed one reports every row as replayed and leaves the state alone. */
  lemma CompleteRerun(rules: Rules, s: State, items: seq<Item>)
    requires !RunAll(rules, s, items).stopped
    ensures
      var first := RunAll(rules, s, items);
      var second := RunAll(rules, first.state, items);
      second.state == first.state && !second.stopped && second.tally == Tally(first.tally.imported, first.tally.quarantined, |items|)
  {
    ExtendsReflexive(RunAll(rules, s, items).state);
    ReplayedPrefix(rules, s, items, |items|, RunAll(rules, s, items).state, |items|);
  }

  /** A row refused for what is recorded, not for the id it drew, is refused without a trace. */
  lemma RefusedWithoutTrace(rules: Rules, s: State, item: Item)
    requires Step(rules, s, item).1.None?
    requires QuarantineReason(rules, item).Some? || (item.kind, item.row.key) in s.journal || EnvelopeBroken(item)
    ensures Step(rules, s, item).0 == s
  {
  }

  /** A run that fails at a row fails at the same row when it is started again, and adds nothing. */
  lemma FailureIsStable(rules: Rules, s: State, items: seq<Item>, n: nat)
    requires n < |items| && !RunItems(rules, s, items, n).stopped && RunItems(rules, s, items, n + 1).stopped
    requires QuarantineReason(rules, items[n]).Some? || (items[n].kind, items[n].row.key) in RunItems(rules, s, items, n).state.journal
             || EnvelopeBroken(items[n])
    ensures
      var failed := RunAll(rules, s, items).state;
      RunAll(rules, failed, items).stopped && RunAll(rules, failed, items).state == failed
  {
    hide Extends, Step, QuarantineReason, EnvelopeBroken;
    RunExtends(rules, s, items, n + 1, |items|);
    var before := RunItems(rules, s, items, n).state;
    RefusedWithoutTrace(rules, before, items[n]);
    ExtendsReflexive(before);
    ReplayedPrefix(rules, s, items, n, before, n);
    RunExtends(rules, before, items, n + 1, |items|);
  }

  lemma {:induction false} TallyTotals(rules: Rules, s: State, items: seq<Item>, n: nat)
    requires n <= |items|
    ensures
      var run := RunItems(rules, s, items, n);
      && run.tally.imported + run.tally.quarantined <= n && run.tally.replayed <= n
      && (run.tally.imported + run.tally.quarantined == n <==> !run.stopped)
  {
    hide Step;
    if n > 0 { TallyTotals(rules, s, items, n - 1); }
  }

  /** After a run that was not stopped every row has exactly the terminal of its decision. */
  lemma EveryRowHasTerminal(rules: Rules, s: State, items: seq<Item>, i: nat)
    requires !RunAll(rules, s, items).stopped && i < |items|
    ensures
      var end, key := RunAll(rules, s, items).state, (items[i].kind, items[i].row.key);
      && key in end.journal && end.journal[key].payload == items[i].row.payload
      && (end.journal[key].disposition == Imported <==> QuarantineReason(rules, items[i]).None?)
  {
    hide Extends, Step, QuarantineReason;
    RunExtends(rules, s, items, i, |items|);
    RunExtends(rules, s, items, i + 1, |items|);
    var before := RunItems(rules, s, items, i).state;
    CommittedRow(rules, before, items[i]);
    DispositionFollows(rules, before, items[i]);
    KeptTerminal(RunItems(rules, s, items, i + 1).state, RunAll(rules, s, items).state, (items[i].kind, items[i].row.key));
  }

  lemma DispositionFollows(rules: Rules, s: State, item: Item)
    requires Step(rules, s, item).1.Some?
    ensures Step(rules, s, item).1.value.imported <==> QuarantineReason(rules, item).None?
  {
  }

  lemma KeptTerminal(s: State, t: State, k: (Kind, Digest))
    requires Extends(s, t) && k in s.journal
    ensures k in t.journal && t.journal[k] == s.journal[k]
  {
  }

  // ----- Killed inside a row, after the id sequence had moved on

  /** Ids come from the sequence. */
  ghost predicate WellFormed(s: State) {
    && (forall k :: k in s.store ==> k.1 <= s.next)
    && (forall k :: k in s.journal ==> s.journal[k].targetID <= s.next)
  }

  lemma StepWellFormed(rules: Rules, s: State, item: Item)
    requires WellFormed(s)
    ensures WellFormed(Step(rules, s, item).0)
  {
    hide QuarantineReason, Replays, EnvelopeBroken;
  }

  lemma {:induction false} RunWellFormed(rules: Rules, s: State, items: seq<Item>, n: nat)
    requires WellFormed(s) && n <= |items|
    ensures WellFormed(RunItems(rules, s, items, n).state)
  {
    hide Step, WellFormed;
    if n > 0 {
      RunWellFormed(rules, s, items, n - 1);
      StepWellFormed(rules, RunItems(rules, s, items, n - 1).state, items[n - 1]);
    }
  }

  ghost predicate NeverZero(rules: Rules) {
    forall kind, f, id :: rules.digest(kind, f, id) != ZERO
  }

  function KeyOf(item: Item): (Kind, Digest) {
    (item.kind, item.row.key)
  }

  ghost predicate KeysDiffer(items: seq<Item>) {
    forall i, j :: 0 <= i < j < |items| ==> KeyOf(items[i]) != KeyOf(items[j])
  }

  /** The records of u are those of v with every target created since base shifted by gap. */
  ghost predicate ShiftedRecord(gap: nat, u: State, v: State, k: (Kind, Digest))
    requires k in u.journal && k in v.journal
  {
    var a, b := u.journal[k], v.journal[k];
    && a.payload == b.payload && a.disposition == b.disposition && a.reason == b.reason
    && (a.disposition == Imported ==>
          && a.targetID == b.targetID + gap && (k.0, a.targetID) in u.store && (k.0, b.targetID) in v.store
          && u.store[(k.0, a.targetID)] == v.store[(k.0, b.targetID)])
  }

  /** What is recorded before the kill stays, and nothing since uses an id from before. */
  ghost predicate After(base: State, u: State) {
    && base.next <= u.next && (forall k :: k in base.journal ==> k in u.journal && u.journal[k] == base.journal[k])
    && (forall e :: e in base.store ==> e in u.store && u.store[e] == base.store[e])
    && (forall e :: e in u.store ==> e in base.store || base.next < e.1 <= u.next)
  }

  ghost predicate Shifted(base: State, gap: nat, u: State, v: State) {
    && After(base, u) && After(base, v) && u.next == v.next + gap
    && u.journal.Keys == v.journal.Keys
    && (forall k :: k in u.journal && k !in base.journal ==> ShiftedRecord(gap, u, v, k))
  }

  lemma AfterNothing(base: State, gap: nat)
    ensures Shifted(base, gap, base.(next := base.next + gap), base)
  {
  }

  /** A row recorded before the kill is judged alike afterwards. */
  lemma SameReplay(rules: Rules, base: State, u: State, item: Item)
    requires WellFormed(base) && After(base, u) && KeyOf(item) in base.journal && item.decision.Candidate?
    ensures Replays(rules, u, item, u.journal[KeyOf(item)]) <==> Replays(rules, base, item, base.journal[KeyOf(item)])
  {
    var t := base.journal[KeyOf(item)];
    assert (item.kind, t.targetID) in u.store <==> (item.kind, t.targetID) in base.store;
  }

  lemma KnownStep(rules: Rules, base: State, u: State, item: Item)
    requires WellFormed(base) && After(base, u) && KeyOf(item) in base.journal
    ensures Step(rules, u, item) == (u, Step(rules, base, item).1)
  {
    hide Replays, QuarantineReason, EnvelopeBroken, WellFormed;
    QuarantineCases(rules, item);
    if item.decision.Candidate? { SameReplay(rules, base, u, item); }
  }

  lemma QuarantineCases(rules: Rules, item: Item)
    ensures QuarantineReason(rules, item).None? ==> item.decision.Candidate?
  {
  }

  lemma FreshStep(rules: Rules, base: State, u: State, item: Item)
    requires WellFormed(base) && NeverZero(rules) && After(base, u) && KeyOf(item) !in u.journal
    ensures
      var key, (t, o) := KeyOf(item), Step(rules, u, item);
      if EnvelopeBroken(item) then o.None? && t == u
      else if QuarantineReason(rules, item).Some? then
        o == Some(Outcome(false, false))
        && t == u.(journal := u.journal[key := Terminal(item.row.payload, Quarantined, QuarantineReason(rules, item).value, 0, ZERO)])
      else
        var id, f := u.next + 1, item.decision.fact;
        o == Some(Outcome(true, false))
        && t == State(u.journal[key := Terminal(f.payload, Imported, "", id, rules.digest(item.kind, f, id))], u.store[(item.kind, id) := f], id)
  {
    hide Replays, QuarantineReason, EnvelopeBroken;
    QuarantineCases(rules, item);
  }

  lemma AddQuarantine(base: State, gap: nat, u: State, v: State, key: (Kind, Digest), t: Terminal)
    requires Shifted(base, gap, u, v) && key !in u.journal && t.disposition == Quarantined
    ensures Shifted(base, gap, u.(journal := u.journal[key := t]), v.(journal := v.journal[key := t]))
  {
    var u2, v2 := u.(journal := u.journal[key := t]), v.(journal := v.journal[key := t]);
    forall k | k in u2.journal && k !in base.journal ensures k in v2.journal && ShiftedRecord(gap, u2, v2, k) {
      if k != key { assert ShiftedRecord(gap, u, v, k); }
    }
  }

  /** The state after creating the next target and recording it. */
  function Created(s: State, key: (Kind, Digest), f: Fact, digest: Digest): State {
    State(s.journal[key := Terminal(f.payload, Imported, "", s.next + 1, digest)], s.store[(key.0, s.next + 1) := f], s.next + 1)
  }

  lemma CreatedAfter(base: State, s: State, key: (Kind, Digest), f: Fact, digest: Digest)
    requires WellFormed(base) && After(base, s) && key !in s.journal
    ensures After(base, Created(s, key, f, digest))
    ensures forall e :: e in s.store ==> e in Created(s, key, f, digest).store && Created(s, key, f, digest).store[e] == s.store[e]
  {
    forall e | e in s.store ensures e.1 <= s.next {}
  }

  lemma KeepsRecord(gap: nat, u: State, v: State, u2: State, v2: State, k: (Kind, Digest))
    requires k in u.journal && k in v.journal && ShiftedRecord(gap, u, v, k)
    requires k in u2.journal && u2.journal[k] == u.journal[k] && k in v2.journal && v2.journal[k] == v.journal[k]
    requires forall e :: e in u.store ==> e in u2.store && u2.store[e] == u.store[e]
    requires forall e :: e in v.store ==> e in v2.store && v2.store[e] == v.store[e]
    ensures ShiftedRecord(gap, u2, v2, k)
  {
  }

  lemma AddTarget(base: State, gap: nat, u: State, v: State, key: (Kind, Digest), f: Fact, a: Digest, b: Digest)
    requires WellFormed(base) && Shifted(base, gap, u, v) && key !in u.journal
    ensures Shifted(base, gap, Created(u, key, f, a), Created(v, key, f, b))
  {
    hide WellFormed, After;
    var u2, v2 := Created(u, key, f, a), Created(v, key, f, b);
    CreatedAfter(base, u, key, f, a);
    CreatedAfter(base, v, key, f, b);
    forall k | k in u2.journal && k !in base.journal ensures k in v2.journal && ShiftedRecord(gap, u2, v2, k) {
      if k != key { KeepsRecord(gap, u, v, u2, v2, k); }
    }
  }

  lemma FreshShift(rules: Rules, base: State, gap: nat, u: State, v: State, item: Item)
    requires WellFormed(base) && NeverZero(rules) && Shifted(base, gap, u, v) && KeyOf(item) !in u.journal
    ensures Step(rules, u, item).1 == Step(rules, v, item).1
    ensures Shifted(base, gap, Step(rules, u, item).0, Step(rules, v, item).0)
    ensures Step(rules, v, item).0.journal.Keys <= v.journal.Keys + {KeyOf(item)}
  {
    hide Step, QuarantineReason, EnvelopeBroken, NeverZero, WellFormed, After, ShiftedRecord;
    FreshStep(rules, base, u, item);
    FreshStep(rules, base, v, item);
    QuarantineCases(rules, item);
    if !EnvelopeBroken(item) {
      if QuarantineReason(rules, item).Some? {
        AddQuarantine(base, gap, u, v, KeyOf(item), Terminal(item.row.payload, Quarantined, QuarantineReason(rules, item).value, 0, ZERO));
      } else {
        var f := item.decision.fact;
        AddTarget(base, gap, u, v, KeyOf(item), f, rules.digest(item.kind, f, u.next + 1), rules.digest(item.kind, f, v.next + 1));
      }
    }
  }

  /** Main result: a run killed inside a row, when the sequence has already handed out ids that no row
      keeps, and started again: it stops at the same row or not at all, imports and quarantines the same
      rows for the same reasons, and differs only in that later targets have ids shifted by the gap. */
  lemma {:induction false} RestartAfterKill(rules: Rules, s: State, items: seq<Item>, n: nat, m: nat, gap: nat)
    requires WellFormed(s) && NeverZero(rules) && KeysDiffer(items)
    requires n <= m <= |items| && !RunItems(rules, s, items, n).stopped
    ensures
      var before := RunItems(rules, s, items, n).state;
      var again, whole := RunItems(rules, before.(next := before.next + gap), items, m), RunItems(rules, s, items, m);
      && again.stopped == whole.stopped && again.tally.imported == whole.tally.imported && again.tally.quarantined == whole.tally.quarantined
      && Shifted(before, gap, again.state, whole.state)
      && (forall k :: k in whole.state.journal ==> k in before.journal || exists i :: n <= i < m && KeyOf(items[i]) == k)
  {
    hide Step, Extends, NeverZero, Shifted, WellFormed;
    var before := RunItems(rules, s, items, n).state;
    var killed := before.(next := before.next + gap);
    RunWellFormed(rules, s, items, n);
    if n == m {
      OnlyTheSequence(before, gap);
      ReplayedPrefix(rules, s, items, n, killed, n);
      AfterNothing(before, gap);
    } else {
      RestartAfterKill(rules, s, items, n, m - 1, gap);
      var again, whole := RunItems(rules, killed, items, m - 1), RunItems(rules, s, items, m - 1);
      if !whole.stopped {
        OneMoreItem(rules, before, gap, again.state, whole.state, items[m - 1], items, n, m - 1);
      }
    }
  }

  lemma OnlyTheSequence(s: State, gap: nat)
    ensures Extends(s, s.(next := s.next + gap))
  {
  }

  lemma OneMoreItem(rules: Rules, base: State, gap: nat, u: State, v: State, item: Item, items: seq<Item>, n: nat, m: nat)
    requires WellFormed(base) && NeverZero(rules) && KeysDiffer(items) && Shifted(base, gap, u, v)
    requires n <= m < |items| && item == items[m]
    requires forall k :: k in v.journal ==> k in base.journal || exists i :: n <= i < m && KeyOf(items[i]) == k
    ensures Step(rules, u, item).1 == Step(rules, v, item).1
    ensures Shifted(base, gap, Step(rules, u, item).0, Step(rules, v, item).0)
    ensures forall k :: k in Step(rules, v, item).0.journal ==> k in base.journal || exists i :: n <= i < m + 1 && KeyOf(items[i]) == k
  {
    hide Step, WellFormed, NeverZero, After, KeyOf, ShiftedRecord;
    assert KeyOf(item) in v.journal ==> KeyOf(item) in base.journal;
    if KeyOf(item) in base.journal {
      KnownStep(rules, base, u, item);
      KnownStep(rules, base, v, item);
    } else {
      FreshShift(rules, base, gap, u, v, item);
    }
  }

  // ----- Any number of attempts

  /** An attempt that ends after some rows, refused or killed, and the ids lost with it. */
  datatype Attempt = Attempt(rows: nat, lost: nat)

  function Interrupted(s: State, lost: nat): State {
    s.(next := s.next + lost)
  }

  ghost predicate Within(attempts: seq<Attempt>, m: nat) {
    forall i :: 0 <= i < |attempts| ==> attempts[i].rows <= m
  }

  /** What the attempts leave, one after the other. */
  ghost function AfterAttempts(rules: Rules, s: State, items: seq<Item>, attempts: seq<Attempt>): State
    requires Within(attempts, |items|)
    decreases |attempts|
  {
    if attempts == [] then s
    else AfterAttempts(rules, Interrupted(RunItems(rules, s, items, attempts[0].rows).state, attempts[0].lost), items, attempts[1..])
  }

  function Lost(attempts: seq<Attempt>): nat {
    if attempts == [] then 0 else attempts[0].lost + Lost(attempts[1..])
  }

  /** The same decision, and the same fact under an id that is at most so many higher. */
  ghost predicate RenumberedRecord(lost: nat, u: State, v: State, k: (Kind, Digest))
    requires k in u.journal && k in v.journal
  {
    var a, b := u.journal[k], v.journal[k];
    && a.payload == b.payload && a.disposition == b.disposition && a.reason == b.reason
    && (a.disposition == Imported ==>
          && b.targetID <= a.targetID <= b.targetID + lost && (k.0, a.targetID) in u.store && (k.0, b.targetID) in v.store
          && u.store[(k.0, a.targetID)] == v.store[(k.0, b.targetID)])
  }

  ghost predicate Renumbered(base: State, lost: nat, u: State, v: State) {
    && After(base, u) && After(base, v) && u.next == v.next + lost
    && u.journal.Keys == v.journal.Keys
    && (forall k :: k in u.journal && k !in base.journal ==> RenumberedRecord(lost, u, v, k))
  }

  lemma RefusedUnchanged(rules: Rules, s: State, item: Item)
    requires WellFormed(s) && NeverZero(rules) && Step(rules, s, item).1.None?
    ensures Step(rules, s, item).0 == s
  {
    hide Replays, QuarantineReason, EnvelopeBroken;
    QuarantineCases(rules, item);
  }

  /** A run that is refused leaves what the rows before the refused one leave. */
  lemma {:induction false} RefusedAt(rules: Rules, s: State, items: seq<Item>, n: nat) returns (q: nat)
    requires WellFormed(s) && NeverZero(rules) && n <= |items|
    ensures q <= n && !RunItems(rules, s, items, q).stopped && RunItems(rules, s, items, q).state == RunItems(rules, s, items, n).state
  {
    hide Step, WellFormed, NeverZero;
    if !RunItems(rules, s, items, n).stopped {
      q := n;
    } else {
      q := RefusedAt(rules, s, items, n - 1);
      if !RunItems(rules, s, items, n - 1).stopped {
        RunWellFormed(rules, s, items, n - 1);
        RefusedUnchanged(rules, RunItems(rules, s, items, n - 1).state, items[n - 1]);
      }
    }
  }

  lemma KeptByAll(s: State, b: State, lost: nat, rest: nat, u: State, w: State, v: State, k: (Kind, Digest))
    requires Shifted(s, 0, b, b) && Shifted(b, lost, w, v) && Renumbered(Interrupted(b, lost), rest, u, w)
    requires k in u.journal && k !in s.journal
    ensures k in v.journal && RenumberedRecord(rest + lost, u, v, k)
  {
    assert k in w.journal && k in v.journal;
    if k in b.journal {
      assert ShiftedRecord(0, b, b, k);
    } else {
      assert ShiftedRecord(lost, w, v, k) && RenumberedRecord(rest, u, w, k);
    }
  }

  lemma AfterBoth(s: State, b: State, lost: nat, u: State)
    requires After(s, b) && After(Interrupted(b, lost), u)
    ensures After(s, u)
  {
  }

  lemma Composed(s: State, b: State, lost: nat, rest: nat, u: State, w: State, v: State)
    requires Shifted(s, 0, b, b) && Shifted(b, lost, w, v) && Renumbered(Interrupted(b, lost), rest, u, w)
    ensures Renumbered(s, rest + lost, u, v)
  {
    hide After, RenumberedRecord, ShiftedRecord;
    AfterBoth(s, b, lost, u);
    assert Interrupted(b, 0) == b;
    AfterBoth(s, b, 0, v);
    forall k | k in u.journal && k !in s.journal { KeptByAll(s, b, lost, rest, u, w, v, k); }
  }

  /** Main result: however often an import is killed or refused and started again, each time after any
      number of rows and with any number of ids lost, the run that is let through stops at the same row as
      one uninterrupted run or not at all, imports and quarantines the same rows for the same reasons, and
      has the same facts under ids that are higher by no more than the ids lost. */
  lemma {:induction false} RestartAfterAttempts(rules: Rules, s: State, items: seq<Item>, attempts: seq<Attempt>, m: nat)
    requires WellFormed(s) && NeverZero(rules) && KeysDiffer(items)
    requires m <= |items| && Within(attempts, m)
    ensures
      var again, whole := RunItems(rules, AfterAttempts(rules, s, items, attempts), items, m), RunItems(rules, s, items, m);
      && again.stopped == whole.stopped && again.tally.imported == whole.tally.imported && again.tally.quarantined == whole.tally.quarantined
      && Renumbered(s, Lost(attempts), again.state, whole.state)
    decreases |attempts|
  {
    hide RunItems, WellFormed, NeverZero, KeysDiffer, Shifted, Renumbered;
    if attempts == [] {
      NoAttempt(rules, s, items, m);
    } else {
      var lost := attempts[0].lost;
      var q := RefusedAt(rules, s, items, attempts[0].rows);
      var before := RunItems(rules, s, items, q).state;
      var next := Interrupted(before, lost);
      RunWellFormed(rules, s, items, q);
      LaterIds(before, lost);
      RestartAfterAttempts(rules, next, items, attempts[1..], m);
      RestartAfterKill(rules, s, items, q, m, lost);
      Recorded(rules, s, items, q);
      Composed(s, before, lost, Lost(attempts[1..]), RunItems(rules, AfterAttempts(rules, s, items, attempts), items, m).state,
               RunItems(rules, next, items, m).state, RunItems(rules, s, items, m).state);
    }
  }

  lemma LaterIds(s: State, lost: nat)
    requires WellFormed(s)
    ensures WellFormed(Interrupted(s, lost))
  {
  }

  /** Every import since the start has its target. */
  lemma Recorded(rules: Rules, s: State, items: seq<Item>, n: nat)
    requires WellFormed(s) && NeverZero(rules) && KeysDiffer(items) && n <= |items| && !RunItems(rules, s, items, n).stopped
    ensures Shifted(s, 0, RunItems(rules, s, items, n).state, RunItems(rules, s, items, n).state)
  {
    hide Shifted, WellFormed, NeverZero, KeysDiffer, Step, KeyOf;
    assert RunItems(rules, s, items, 0) == Run(s, NOTHING, false);
    assert s.(next := s.next + 0) == s;
    RestartAfterKill(rules, s, items, 0, n, 0);
  }

  lemma NoAttempt(rules: Rules, s: State, items: seq<Item>, m: nat)
    requires WellFormed(s) && NeverZero(rules) && KeysDiffer(items) && m <= |items|
    ensures Renumbered(s, 0, RunItems(rules, s, items, m).state, RunItems(rules, s, items, m).state)
  {
    hide RunItems, WellFormed, NeverZero, KeysDiffer, After;
    var q := RefusedAt(rules, s, items, m);
    Recorded(rules, s, items, q);
    var end := RunItems(rules, s, items, m).state;
    forall k | k in end.journal && k !in s.journal ensures RenumberedRecord(0, end, end, k) { assert ShiftedRecord(0, end, end, k); }
  }
}
