/** The final preflight and the per-domain and per-group checks of the final reconciliation
    (preflightFinalMigration, reconcileFinalMigration and their helpers in
    cmd/aicrm-v1-domain-import/final_reconcile.go), over one snapshot of the database. */
module FinalReconcile {
  import opened Wrappers
  import opened FinalDomains
  import Sets
  import Sorting

  datatype Disposition = Imported | Archived | Quarantined | Unrecognised

  datatype Receipt = Receipt(version: Version, table: string, digestsValid: bool, disposition: Disposition, targetProof: bool, verified: bool)

  datatype Counts = Counts(selected: int, receipts: int, imported: int, archived: int, quarantined: int, verified: int)

  datatype Stored = Stored(counts: Counts, digestValid: bool)

  /** tables gives the declared row count of each archived table, records the rows really there. */
  datatype Snapshot = Snapshot(archiveReady: bool, receipts: seq<Receipt>, stored: map<Version, Stored>, tables: map<string, nat>, records: map<string, nat>)

  const ZERO := Counts(0, 0, 0, 0, 0, 0)

  function Plus(a: Counts, b: Counts): Counts {
    Counts(a.selected + b.selected, a.receipts + b.receipts, a.imported + b.imported, a.archived + b.archived,
           a.quarantined + b.quarantined, a.verified + b.verified)
  }

  function SourceTables(d: Domain): seq<string> {
    if d == CAMPAIGN then ["public/campaigns", "public/campaign_steps"]
    else if d == SURVEY then
      ["public/questionnaires", "public/questionnaire_questions", "public/questionnaire_options", "public/questionnaire_submissions",
       "public/questionnaire_submission_answers"]
    else if d == MEDIA then ["public/miniprogram_library"]
    else if d == RADAR then ["public/radar_links"]
    else if d == SHOP then ["public/wechat_shop_orders"]
    else []
  }

  // ----- Current receipts

  predicate Concerns(r: Receipt, d: Domain) {
    r.version == VersionOf(d) && (SourceTables(d) == [] || r.table in SourceTables(d))
  }

  function RowsFor(receipts: seq<Receipt>, d: Domain): seq<Receipt> {
    if receipts == [] then []
    else
      var front, last := RowsFor(receipts[..|receipts| - 1], d), receipts[|receipts| - 1];
      if Concerns(last, d) then front + [last] else front
  }

  predicate RowValid(r: Receipt) {
    r.digestsValid && r.disposition != Unrecognised && (r.disposition == Imported ==> r.targetProof)
  }

  function One(condition: bool): int {
    if condition then 1 else 0
  }

  function CountsOf(r: Receipt): Counts {
    Counts(0, 1, One(r.disposition == Imported), One(r.disposition == Archived), One(r.disposition == Quarantined), One(r.verified))
  }

  function Tally(rows: seq<Receipt>): Counts {
    if rows == [] then ZERO else Plus(Tally(rows[..|rows| - 1]), CountsOf(rows[|rows| - 1]))
  }

  function Current(s: Snapshot, d: Domain): Option<Counts> {
    var rows := RowsFor(s.receipts, d);
    if forall r :: r in rows ==> RowValid(r) then Some(Tally(rows)) else None
  }

  // ----- The counts as numbers of receipts

  /** The receipt was written under the domain's version, and about one of its source tables if it has any. */
  predicate Under(d: Domain, r: Receipt) {
    r.version == VersionOf(d) && (|SourceTables(d)| > 0 ==> r.table in SourceTables(d))
  }

  /** Both digests are there, the disposition is known, and an import names its target. */
  predicate Sound(r: Receipt) {
    r.digestsValid && (r.disposition == Archived || r.disposition == Quarantined || (r.disposition == Imported && r.targetProof))
  }

  /** Each receipt that is meant is counted once and under its own disposition. */
  ghost predicate CountedIn(receipts: seq<Receipt>, meant: Receipt -> bool, c: Counts) {
    && c.receipts == |Sets.Where(receipts, meant)|
    && c.imported == |Sets.Where(receipts, (r: Receipt) => meant(r) && r.disposition == Imported)|
    && c.archived == |Sets.Where(receipts, (r: Receipt) => meant(r) && r.disposition == Archived)|
    && c.quarantined == |Sets.Where(receipts, (r: Receipt) => meant(r) && r.disposition == Quarantined)|
    && c.verified == |Sets.Where(receipts, (r: Receipt) => meant(r) && r.verified)|
  }

  ghost predicate CountedAs(receipts: seq<Receipt>, d: Domain, c: Counts) {
    CountedIn(receipts, (r: Receipt) => Under(d, r), c)
  }

  ghost predicate AllSound(receipts: seq<Receipt>, d: Domain) {
    forall r :: r in receipts && Under(d, r) ==> Sound(r)
  }

  lemma ConcernsIs(d: Domain, r: Receipt)
    ensures Concerns(r, d) <==> Under(d, r)
    ensures RowValid(r) <==> Sound(r)
  {
    hide SourceTables, VersionOf;
  }

  lemma {:induction false} RowsForHas(receipts: seq<Receipt>, d: Domain, r: Receipt)
    ensures r in RowsFor(receipts, d) <==> r in receipts && Concerns(r, d)
  {
    hide Concerns;
    if receipts != [] {
      RowsForHas(receipts[..|receipts| - 1], d, r);
      assert receipts == receipts[..|receipts| - 1] + [receipts[|receipts| - 1]];
    }
  }

  lemma TallyMore(rows: seq<Receipt>, r: Receipt)
    ensures Tally(rows + [r]) == Plus(Tally(rows), CountsOf(r))
  {
    assert (rows + [r])[..|rows|] == rows;
  }

  lemma NothingCounted(meant: Receipt -> bool)
    ensures CountedIn([], meant, ZERO)
  {
  }

  lemma OneMoreCounted(receipts: seq<Receipt>, r: Receipt, meant: Receipt -> bool, c: Counts)
    requires CountedIn(receipts, meant, c)
    ensures CountedIn(receipts + [r], meant, if meant(r) then Plus(c, CountsOf(r)) else c)
  {
    hide Sets.Where;
    Sets.WhereMore(receipts, r, meant);
    Sets.WhereMore(receipts, r, (r: Receipt) => meant(r) && r.disposition == Imported);
    Sets.WhereMore(receipts, r, (r: Receipt) => meant(r) && r.disposition == Archived);
    Sets.WhereMore(receipts, r, (r: Receipt) => meant(r) && r.disposition == Quarantined);
    Sets.WhereMore(receipts, r, (r: Receipt) => meant(r) && r.verified);
  }

  lemma {:induction false} TallyCounts(receipts: seq<Receipt>, d: Domain)
    ensures CountedAs(receipts, d, Tally(RowsFor(receipts, d)))
  {
    hide CountedIn, Tally, Under, Concerns;
    var meant := (r: Receipt) => Under(d, r);
    if receipts == [] {
      NothingTallied();
      NothingCounted(meant);
    } else {
      var front, last := receipts[..|receipts| - 1], receipts[|receipts| - 1];
      assert receipts == front + [last];
      TallyCounts(front, d);
      ConcernsIs(d, last);
      TallyMore(RowsFor(front, d), last);
      OneMoreCounted(front, last, meant, Tally(RowsFor(front, d)));
    }
  }

  lemma CurrentCounts(s: Snapshot, d: Domain)
    ensures Current(s, d).Some? <==> AllSound(s.receipts, d)
    ensures Current(s, d).Some? ==> CountedAs(s.receipts, d, Current(s, d).value) && Current(s, d).value.selected == 0
  {
    hide RowsFor, Concerns, Under, Tally, RowValid, Sound;
    TallyCounts(s.receipts, d);
    forall r ensures r in RowsFor(s.receipts, d) <==> r in s.receipts && Under(d, r) {
      RowsForHas(s.receipts, d, r);
      ConcernsIs(d, r);
    }
    forall r ensures RowValid(r) <==> Sound(r) { ConcernsIs(d, r); }
    SelectedNone(RowsFor(s.receipts, d));
  }

  lemma {:induction false} SelectedNone(rows: seq<Receipt>)
    ensures Tally(rows).selected == 0
  {
    if rows != [] { SelectedNone(rows[..|rows| - 1]); }
  }

  /** It succeeds exactly when every receipt of the domain is sound, and counts each under its own disposition. */
  method LoadCurrentReceiptCounts(s: Snapshot, d: Domain) returns (counts: Option<Counts>)
    ensures counts == Current(s, d)
    ensures counts.Some? <==> AllSound(s.receipts, d)
    ensures counts.Some? ==> CountedAs(s.receipts, d, counts.value)
  {
    hide RowsFor, Tally, AllSound, CountedAs;
    CurrentCounts(s, d);
    var rows := RowsFor(s.receipts, d);
    var c := ZERO;
    NothingTallied();
    assert rows[..0] == [];
    for i := 0 to |rows|
      invariant c == Tally(rows[..i]) && forall j :: 0 <= j < i ==> RowValid(rows[j])
    {
      var r := rows[i];
      assert r in rows;
      OneMoreRow(rows, i);
      if !r.digestsValid { return None; }
      c := c.(receipts := c.receipts + 1);
      if r.verified { c := c.(verified := c.verified + 1); }
      match r.disposition {
        case Imported =>
          if !r.targetProof { return None; }
          c := c.(imported := c.imported + 1);
        case Archived => c := c.(archived := c.archived + 1);
        case Quarantined => c := c.(quarantined := c.quarantined + 1);
        case Unrecognised => return None;
      }
    }
    assert rows[..|rows|] == rows;
    counts := Some(c);
  }

  lemma NothingTallied()
    ensures Tally([]) == ZERO
  {
  }

  lemma OneMoreRow(rows: seq<Receipt>, i: nat)
    requires i < |rows|
    ensures Tally(rows[..i + 1]) == Plus(Tally(rows[..i]), CountsOf(rows[i]))
  {
    assert rows[..i + 1][..i] == rows[..i];
  }

  /** Valid rows always split into the three dispositions: that check of reconcileFinalDomain never fails. */
  lemma {:induction false} TallyBalances(rows: seq<Receipt>)
    requires forall r :: r in rows ==> RowValid(r)
    ensures Tally(rows).receipts == Tally(rows).imported + Tally(rows).archived + Tally(rows).quarantined == |rows|
    ensures Tally(rows).selected == 0
  {
    if rows != [] {
      assert rows == rows[..|rows| - 1] + [rows[|rows| - 1]];
      assert RowValid(rows[|rows| - 1]);
      TallyBalances(rows[..|rows| - 1]);
    }
  }

  // ----- Archived source rows and stored reconciliations

  function SumOver(m: map<string, nat>, tables: seq<string>): nat {
    if tables == [] then 0 else (if tables[0] in m then m[tables[0]] else 0) + SumOver(m, tables[1..])
  }

  /** The archived rows of the tables, when all are archived and as many as declared. */
  function SourceCount(s: Snapshot, tables: seq<string>): Option<nat> {
    if (forall t :: t in tables ==> t in s.tables) && SumOver(s.tables, tables) == SumOver(s.records, tables)
    then Some(SumOver(s.tables, tables)) else None
  }

  datatype Lookup = Missing | Invalid | Found(counts: Counts)

  function StoredFor(s: Snapshot, v: Version): Lookup {
    if v !in s.stored then Missing
    else
      var c := s.stored[v].counts;
      if c.selected == c.receipts == c.imported + c.archived + c.quarantined && c.receipts == c.verified && s.stored[v].digestValid
      then Found(c) else Invalid
  }

  predicate SameReceipts(a: Counts, b: Counts) {
    a.receipts == b.receipts && a.imported == b.imported && a.archived == b.archived && a.quarantined == b.quarantined && a.verified == b.verified
  }

  /** What reconcileFinalDomain counts for a domain; None when it reports an error. */
  function DomainCounts(s: Snapshot, d: Domain): Option<Counts> {
    match Current(s, d)
    case None => None
    case Some(c) =>
      if c.receipts != c.verified then None
      else if SourceTables(d) != [] then
        var n := SourceCount(s, SourceTables(d));
        if n.None? || n.value != c.receipts || !StoredFor(s, VersionOf(d)).Found? then None else Some(c.(selected := n.value))
      else
        match StoredFor(s, VersionOf(d))
        case Found(stored) => if SameReceipts(c, stored) then Some(c.(selected := stored.selected)) else None
        case _ => None
  }

  method ReconcileFinalDomain(s: Snapshot, d: Domain) returns (counts: Option<Counts>)
    ensures counts == DomainCounts(s, d)
  {
    hide Current, StoredFor, SourceCount;
    var current := LoadCurrentReceiptCounts(s, d);
    if current.None? { return None; }
    var c := current.value;
    CurrentBalances(s, d);
    if c.receipts != c.verified || c.receipts != c.imported + c.archived + c.quarantined { return None; }
    var tables := SourceTables(d);
    if |tables| > 0 {
      var n := SourceCount(s, tables);
      if n.None? || n.value != c.receipts { return None; }
      c := c.(selected := n.value);
    }
    var stored := StoredFor(s, VersionOf(d));
    if !stored.Found? { return None; }
    if |tables| == 0 {
      if !SameReceipts(c, stored.counts) { return None; }
      c := c.(selected := stored.counts.selected);
    }
    counts := Some(c);
  }

  lemma CurrentBalances(s: Snapshot, d: Domain)
    ensures Current(s, d).Some? ==> Current(s, d).value.receipts == Current(s, d).value.imported + Current(s, d).value.archived + Current(s, d).value.quarantined
  {
    if Current(s, d).Some? { TallyBalances(RowsFor(s.receipts, d)); }
  }

  // ----- Totals of a scope

  function Total(s: Snapshot, list: seq<Domain>): Option<Counts> {
    if list == [] then Some(ZERO)
    else
      match (DomainCounts(s, list[0]), Total(s, list[1..]))
      case (Some(c), Some(rest)) => Some(Plus(c, rest))
      case _ => None
  }

  lemma {:induction false} TotalOfInserted(s: Snapshot, d: Domain, list: seq<Domain>)
    ensures Total(s, Sorting.Insert(d, list, Before)) == Total(s, [d] + list)
  {
    hide DomainCounts, Before;
    assert ([d] + list)[1..] == list;
    if list != [] && !Before(d, list[0]) {
      TotalOfInserted(s, d, list[1..]);
      assert ([d] + list[1..])[1..] == list[1..];
      var inserted := Sorting.Insert(d, list, Before);
      assert inserted[1..] == Sorting.Insert(d, list[1..], Before);
    }
  }

  /** The total does not depend on the order of the domains. */
  lemma {:induction false} TotalOfSorted(s: Snapshot, list: seq<Domain>)
    ensures Total(s, Sorting.Sort(list, Before)) == Total(s, list)
  {
    hide DomainCounts, Before;
    if list != [] {
      TotalOfSorted(s, list[1..]);
      TotalOfInserted(s, list[0], Sorting.Sort(list[1..], Before));
      assert ([list[0]] + Sorting.Sort(list[1..], Before))[1..] == Sorting.Sort(list[1..], Before);
    }
  }

  lemma {:induction false} TotalOfMore(s: Snapshot, list: seq<Domain>, d: Domain)
    ensures Total(s, list + [d]) ==
            match (Total(s, list), DomainCounts(s, d))
            case (Some(a), Some(c)) => Some(Plus(a, c))
            case _ => None
  {
    hide DomainCounts;
    var more := list + [d];
    if list == [] {
      assert more == [d] && more[1..] == [];
    } else {
      TotalOfMore(s, list[1..], d);
      assert more[1..] == list[1..] + [d];
    }
  }

  lemma {:induction false} TotalNeedsAll(s: Snapshot, list: seq<Domain>)
    ensures Total(s, list).Some? <==> forall d :: d in list ==> DomainCounts(s, d).Some?
  {
    hide DomainCounts;
    if list != [] {
      TotalNeedsAll(s, list[1..]);
      assert list == [list[0]] + list[1..];
    }
  }

  // ----- Preflight

  predicate KnownVersions(s: Snapshot) {
    && (forall r :: r in s.receipts ==> r.version in AllVersions())
    && (forall v :: v in s.stored ==> v in AllVersions())
  }

  predicate NoReceipts(s: Snapshot, v: Version) {
    forall r :: r in s.receipts ==> r.version != v
  }

  /** A scope is sealed by a reconciliation that covers its domains, or entirely absent. */
  predicate ScopeSettled(s: Snapshot, v: Version, domains: seq<Domain>) {
    match StoredFor(s, v)
    case Missing => NoReceipts(s, v)
    case Invalid => false
    case Found(c) => Total(s, domains) == Some(c)
  }

  ghost predicate PreflightPasses(s: Snapshot, groups: map<Version, seq<Domain>>) {
    s.archiveReady && KnownVersions(s) && forall v :: v in groups ==> ScopeSettled(s, v, groups[v])
  }

  method CountReceipts(s: Snapshot, v: Version) returns (n: nat)
    ensures n == 0 <==> NoReceipts(s, v)
  {
    n := 0;
    for i := 0 to |s.receipts|
      invariant n == 0 <==> forall j :: 0 <= j < i ==> s.receipts[j].version != v
    {
      if s.receipts[i].version == v { n := n + 1; }
    }
  }

  method VersionsKnown(s: Snapshot, groups: map<Version, seq<Domain>>) returns (ok: bool)
    requires groups.Keys == AllVersions()
    ensures ok <==> KnownVersions(s)
  {
    hide AllVersions;
    for i := 0 to |s.receipts|
      invariant forall j :: 0 <= j < i ==> s.receipts[j].version in groups
    {
      if s.receipts[i].version !in groups { return false; }
    }
    ok := s.stored.Keys <= groups.Keys;
  }

  /** The check of one sealed scope. */
  method ScopeTotal(s: Snapshot, domains: seq<Domain>) returns (total: Option<Counts>)
    ensures total == Total(s, domains)
  {
    hide DomainCounts, Total;
    var t := ZERO;
    assert domains[..0] == [];
    TotalOfNone(s);
    for i := 0 to |domains|
      invariant Total(s, domains[..i]) == Some(t)
    {
      assert domains[..i + 1] == domains[..i] + [domains[i]];
      TotalOfMore(s, domains[..i], domains[i]);
      var c := ReconcileFinalDomain(s, domains[i]);
      if c.None? {
        TotalNeedsAll(s, domains);
        return None;
      }
      t := Plus(t, c.value);
    }
    assert domains[..|domains|] == domains;
    total := Some(t);
  }

  lemma TotalOfNone(s: Snapshot)
    ensures Total(s, []) == Some(ZERO)
  {
  }

  method CheckScope(s: Snapshot, v: Version, domains: seq<Domain>) returns (ok: bool)
    ensures ok <==> ScopeSettled(s, v, domains)
  {
    hide Total, DomainCounts;
    match StoredFor(s, v) {
      case Missing =>
        var n := CountReceipts(s, v);
        ok := n == 0;
      case Invalid => ok := false;
      case Found(c) =>
        var total := ScopeTotal(s, domains);
        ok := total == Some(c);
    }
  }

  /** preflightFinalMigration: scopes are visited in any order. */
  method Preflight(m: Manifest, s: Snapshot) returns (missing: Option<seq<Domain>>)
    ensures missing.Some? <==> ManifestValid(m) && PreflightPasses(s, Grouped(DomainsOf(m)))
    ensures missing.Some? ==> InNameOrder(missing.value) && forall d: Domain :: d in missing.value <==> VersionOf(d) !in s.stored
  {
    hide ScopeSettled, Grouped, KnownVersions, NoReceipts, ManifestValid, VersionOf, InNameOrder, Before;
    var valid := ValidateManifest(m);
    if !valid { return None; }
    if !s.archiveReady { return None; }
    var groups := GroupByVersion(DomainsOf(m));
    GroupsPartition(m);
    var known := VersionsKnown(s, groups);
    if !known { return None; }
    var rest := groups.Keys;
    var list: seq<Domain> := [];
    while rest != {}
      invariant rest <= groups.Keys
      invariant forall v :: v in groups.Keys - rest ==> ScopeSettled(s, v, groups[v])
      invariant Sets.Distinct(list)
      invariant forall d: Domain :: d in list <==> VersionOf(d) in groups.Keys - rest && VersionOf(d) !in s.stored
      decreases |rest|
    {
      var v := Sets.Any(rest);
      assert |rest - {v}| == |rest| - 1;
      var ok := CheckScope(s, v, groups[v]);
      if !ok { return None; }
      if v !in s.stored {
        Joined(list, groups[v], v);
        list := list + groups[v];
      }
      rest := rest - {v};
    }
    SortedGroup(list);
    forall d: Domain ensures VersionOf(d) in groups.Keys { VersionsOfDomains(VersionOf(d)); }
    missing := Some(Sorting.Sort(list, Before));
  }

  lemma Joined(list: seq<Domain>, group: seq<Domain>, v: Version)
    requires Sets.Distinct(list) && Sets.Distinct(group)
    requires forall d :: d in group ==> VersionOf(d) == v
    requires forall d :: d in list ==> VersionOf(d) != v
    ensures Sets.Distinct(list + group)
  {
    forall i, j | 0 <= i < j < |list + group| ensures (list + group)[i] != (list + group)[j] {
      if i < |list| <= j { assert list[i] in list && group[j - |list|] in group; }
    }
  }

  // ----- The per-domain and per-group checks of the final reconciliation

  ghost predicate FinalPasses(s: Snapshot) {
    && (forall d: Domain :: DomainCounts(s, d).Some?)
    && (forall v :: v in AllVersions() ==> StoredFor(s, v).Found?)
  }

  /** Every group of the manifest is covered exactly by its stored reconciliation. */
  ghost predicate GroupsPass(s: Snapshot, list: seq<Domain>) {
    forall v :: v in Versions(list) ==> StoredFor(s, v).Found? && Total(s, Members(list, v)) == Some(StoredFor(s, v).counts)
  }

  method ValidateGroups(scopes: map<Version, seq<Domain>>, actual: map<Version, Counts>, reconciled: map<Version, Counts>) returns (ok: bool)
    ensures ok <==> |scopes| == SCOPE_COUNT && forall v :: v in scopes ==>
              scopes[v] != [] && v in actual && v in reconciled && actual[v] == reconciled[v]
  {
    if |scopes| != SCOPE_COUNT { return false; }
    var rest := scopes.Keys;
    while rest != {}
      invariant rest <= scopes.Keys
      invariant forall v :: v in scopes.Keys - rest ==> scopes[v] != [] && v in actual && v in reconciled && actual[v] == reconciled[v]
      decreases |rest|
    {
      var v := Sets.Any(rest);
      assert |rest - {v}| == |rest| - 1;
      if scopes[v] == [] || v !in actual || v !in reconciled || actual[v] != reconciled[v] { return false; }
      rest := rest - {v};
    }
    ok := true;
  }

  method LoadReconciliations(s: Snapshot, versions: set<Version>) returns (reconciled: Option<map<Version, Counts>>)
    ensures reconciled.Some? <==> forall v :: v in versions ==> StoredFor(s, v).Found?
    ensures reconciled.Some? ==> reconciled.value.Keys == versions && forall v :: v in versions ==> reconciled.value[v] == StoredFor(s, v).counts
  {
    hide StoredFor;
    var rest := versions;
    var found: map<Version, Counts> := map[];
    while rest != {}
      invariant rest <= versions && found.Keys == versions - rest
      invariant forall v :: v in versions - rest ==> StoredFor(s, v).Found? && found[v] == StoredFor(s, v).counts
      decreases |rest|
    {
      var v := Sets.Any(rest);
      assert |rest - {v}| == |rest| - 1;
      var stored := StoredFor(s, v);
      if !stored.Found? { return None; }
      found := found[v := stored.counts];
      rest := rest - {v};
    }
    reconciled := Some(found);
  }

  /** The totals of the versions of a list. */
  ghost predicate Sums(s: Snapshot, list: seq<Domain>, sums: map<Version, Counts>) {
    sums.Keys == Versions(list) && forall v :: v in sums ==> Total(s, FinalDomains.Members(list, v)) == Some(sums[v])
  }

  /** The loop over the manifest: every domain is checked and added to the total of its version. */
  method AddUp(s: Snapshot, list: seq<Domain>) returns (totals: Option<map<Version, Counts>>)
    ensures totals.Some? <==> forall d :: d in list ==> DomainCounts(s, d).Some?
    ensures totals.Some? ==> Sums(s, list, totals.value)
  {
    hide DomainCounts, VersionOf, Sums;
    var sums: map<Version, Counts> := map[];
    NothingSummed(s);
    assert list[..0] == [];
    for i := 0 to |list|
      invariant Sums(s, list[..i], sums)
      invariant forall j :: 0 <= j < i ==> DomainCounts(s, list[j]).Some?
    {
      var v := VersionOf(list[i]);
      assert list[..i + 1] == list[..i] + [list[i]];
      var c := ReconcileFinalDomain(s, list[i]);
      if c.None? { return None; }
      MoreSums(s, list[..i], list[i], sums, c.value);
      sums := sums[v := Plus(if v in sums then sums[v] else ZERO, c.value)];
    }
    assert list[..|list|] == list;
    totals := Some(sums);
  }

  lemma NothingSummed(s: Snapshot)
    ensures Sums(s, [], map[])
  {
  }

  /** A further domain is added to the total of its version and to no other. */
  lemma MoreSums(s: Snapshot, list: seq<Domain>, d: Domain, sums: map<Version, Counts>, c: Counts)
    requires Sums(s, list, sums) && DomainCounts(s, d) == Some(c)
    ensures Sums(s, list + [d], sums[VersionOf(d) := Plus(if VersionOf(d) in sums then sums[VersionOf(d)] else ZERO, c)])
  {
    hide DomainCounts, Total, VersionOf;
    var more, own := list + [d], FinalDomains.Members(list, VersionOf(d));
    assert more[..|list|] == list;
    assert Versions(more) == Versions(list) + {VersionOf(d)};
    assert FinalDomains.Members(more, VersionOf(d)) == own + [d];
    NoMembers(list, VersionOf(d));
    TotalOfNone(s);
    TotalOfMore(s, own, d);
  }

  /** Facts about the groups of a valid manifest that the checks use. */
  lemma ManifestFacts(m: Manifest)
    requires ManifestValid(m)
    ensures forall d: Domain :: d in DomainsOf(m) && VersionOf(d) in Grouped(DomainsOf(m))
    ensures Grouped(DomainsOf(m)).Keys == Versions(DomainsOf(m)) == AllVersions() && |Grouped(DomainsOf(m))| == SCOPE_COUNT
    ensures forall v :: v in Grouped(DomainsOf(m)) ==> Grouped(DomainsOf(m))[v] != [] && exists d: Domain :: VersionOf(d) == v
    ensures forall v, d :: v in Grouped(DomainsOf(m)) ==> (d in Grouped(DomainsOf(m))[v] <==> VersionOf(d) == v)
  {
    hide Grouped, ManifestValid, AllVersions;
    GroupsPartition(m);
    GroupKeys(DomainsOf(m));
    forall d: Domain ensures d in DomainsOf(m) && VersionOf(d) in Grouped(DomainsOf(m)) {
      ListsEveryDomain(m, d);
      VersionsOfDomains(VersionOf(d));
    }
    forall v | v in Grouped(DomainsOf(m)) ensures exists d: Domain :: VersionOf(d) == v { VersionsOfDomains(v); }
  }

  lemma GroupKeys(list: seq<Domain>)
    ensures Grouped(list).Keys == Versions(list)
  {
  }

  /** reconcileFinalMigration up to and including validateFinalReconciliationGroups. */
  method ReconcileDomainsAndGroups(m: Manifest, s: Snapshot) returns (ok: bool)
    ensures ok <==> ManifestValid(m) && s.archiveReady && FinalPasses(s) && GroupsPass(s, DomainsOf(m))
  {
    hide DomainCounts, StoredFor, Grouped, ManifestValid, GroupsPass, FinalPasses, Sums;
    var valid := ValidateManifest(m);
    if !valid || !s.archiveReady { return false; }
    var list := DomainsOf(m);
    var groups := GroupByVersion(list);
    LoadedIff(m, s);
    var totals := AddUp(s, list);
    if totals.None? { return false; }
    var reconciled := LoadReconciliations(s, groups.Keys);
    if reconciled.None? { return false; }
    ok := ValidateGroups(groups, totals.value, reconciled.value);
    GroupsDecide(m, s, groups, totals.value, reconciled.value);
  }

  /** Once everything is loaded the comparison of the groups decides. */
  lemma GroupsDecide(m: Manifest, s: Snapshot, groups: map<Version, seq<Domain>>, totals: map<Version, Counts>, reconciled: map<Version, Counts>)
    requires ManifestValid(m) && groups == Grouped(DomainsOf(m)) && Sums(s, DomainsOf(m), totals)
    requires reconciled.Keys == groups.Keys && forall v :: v in groups ==> StoredFor(s, v).Found? && reconciled[v] == StoredFor(s, v).counts
    ensures (|groups| == SCOPE_COUNT && forall v :: v in groups ==> groups[v] != [] && v in totals && v in reconciled && totals[v] == reconciled[v])
            <==> GroupsPass(s, DomainsOf(m))
  {
    hide DomainCounts, StoredFor, Grouped, ManifestValid, GroupsPass, AllVersions, Versions, VersionOf, Sums;
    ManifestFacts(m);
    GroupsPassIff(s, DomainsOf(m), groups, totals, reconciled);
  }

  /** Every domain counted and every scope stored: what the two loading loops establish. */
  lemma LoadedIff(m: Manifest, s: Snapshot)
    requires ManifestValid(m)
    ensures FinalPasses(s) <==>
            && (forall d :: d in DomainsOf(m) ==> DomainCounts(s, d).Some?)
            && (forall v :: v in Grouped(DomainsOf(m)).Keys ==> StoredFor(s, v).Found?)
  {
    hide DomainCounts, StoredFor, Grouped, ManifestValid, AllVersions, Versions, VersionOf;
    ManifestFacts(m);
  }

  lemma GroupsPassIff(s: Snapshot, list: seq<Domain>, groups: map<Version, seq<Domain>>, totals: map<Version, Counts>, reconciled: map<Version, Counts>)
    requires groups.Keys == reconciled.Keys == Versions(list) && Sums(s, list, totals)
    requires forall v :: v in Versions(list) ==> StoredFor(s, v).Found? && reconciled[v] == StoredFor(s, v).counts
    ensures totals.Keys == groups.Keys && (GroupsPass(s, list) <==> forall v :: v in groups ==> totals[v] == reconciled[v])
  {
    hide Total, StoredFor, FinalDomains.Members;
    if forall v :: v in groups ==> totals[v] == reconciled[v] {
      forall v | v in Versions(list) ensures Total(s, FinalDomains.Members(list, v)) == Some(StoredFor(s, v).counts) { assert v in groups; }
    }
  }

  lemma SettledMeansCovered(s: Snapshot, groups: map<Version, seq<Domain>>, list: seq<Domain>)
    requires groups.Keys == Versions(list) == AllVersions() && forall v :: v in groups ==> exists d: Domain :: VersionOf(d) == v
    requires forall v :: v in groups ==> Total(s, groups[v]) == Total(s, FinalDomains.Members(list, v))
    requires forall d: Domain :: VersionOf(d) in groups && d in groups[VersionOf(d)]
    requires forall d: Domain :: VersionOf(d) in s.stored
    requires forall v :: v in groups ==> ScopeSettled(s, v, groups[v])
    ensures FinalPasses(s) && GroupsPass(s, list)
  {
    hide DomainCounts, Total, FinalDomains.Members, AllVersions, VersionOf, Versions;
    forall v | v in groups ensures StoredFor(s, v).Found? && Total(s, groups[v]) == Some(StoredFor(s, v).counts) {
      assert ScopeSettled(s, v, groups[v]);
      var d: Domain :| VersionOf(d) == v;
    }
    forall d: Domain ensures DomainCounts(s, d).Some? { TotalNeedsAll(s, groups[VersionOf(d)]); }
  }

  lemma CoveredMeansSettled(s: Snapshot, groups: map<Version, seq<Domain>>, list: seq<Domain>)
    requires groups.Keys == Versions(list) == AllVersions()
    requires forall v :: v in groups ==> Total(s, groups[v]) == Total(s, FinalDomains.Members(list, v))
    requires forall d: Domain :: VersionOf(d) in groups
    requires FinalPasses(s) && GroupsPass(s, list)
    ensures forall v :: v in groups ==> ScopeSettled(s, v, groups[v])
    ensures forall d: Domain :: VersionOf(d) in s.stored
  {
    hide Total, FinalDomains.Members, AllVersions, VersionOf, DomainCounts, Versions;
    forall v | v in groups ensures ScopeSettled(s, v, groups[v]) && v in s.stored {
      assert StoredFor(s, v).Found?;
    }
  }

  /** Main result: a preflight with nothing missing and the domain and group checks of the final
      reconciliation agree on every snapshot whose import versions are known, whatever the order of
      the manifest. */
  lemma NothingMissingIff(m: Manifest, s: Snapshot)
    requires ManifestValid(m) && s.archiveReady && KnownVersions(s)
    ensures PreflightPasses(s, Grouped(DomainsOf(m))) && (forall d: Domain :: VersionOf(d) in s.stored)
            <==> FinalPasses(s) && GroupsPass(s, DomainsOf(m))
  {
    hide DomainCounts, ScopeSettled, KnownVersions, GroupsPass, ManifestValid, Grouped, AllVersions, Versions, VersionOf;
    var list := DomainsOf(m);
    var groups := Grouped(list);
    ManifestFacts(m);
    SameTotals(s, list);
    if PreflightPasses(s, groups) && forall d: Domain :: VersionOf(d) in s.stored {
      SettledMeansCovered(s, groups, list);
    }
    if FinalPasses(s) && GroupsPass(s, list) {
      CoveredMeansSettled(s, groups, list);
    }
  }

  /** Sorting a group leaves its total alone. */
  lemma SameTotals(s: Snapshot, list: seq<Domain>)
    ensures forall v :: v in Grouped(list) ==> Total(s, Grouped(list)[v]) == Total(s, FinalDomains.Members(list, v))
  {
    hide Total, FinalDomains.Members, Grouped;
    forall v | v in Grouped(list) ensures Total(s, Grouped(list)[v]) == Total(s, FinalDomains.Members(list, v)) {
      GroupOf(list, v);
      TotalOfSorted(s, FinalDomains.Members(list, v));
    }
  }

  lemma GroupOf(list: seq<Domain>, v: Version)
    ensures v in Grouped(list) ==> Grouped(list)[v] == Sorting.Sort(FinalDomains.Members(list, v), Before)
  {
  }
}
