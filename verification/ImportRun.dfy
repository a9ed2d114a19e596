/** One import from end to end: resolve, walk, compare the digest, reconcile, and commit or discard
    (importWhitelist in cmd/aicrm-whitelist-import/importer.go). */
module ImportRun {
  import opened Wrappers
  import opened Snapshot
  import opened Target
  import opened ImportPlan
  import opened ImportEffects
  import opened ImportWalk
  import opened Reconcile
  import opened SubjectRows
  import opened SubjectIdentities
  import opened ImportGates
  import ImportTables
  import Reencoding
  import Resolution
  import ResolutionPass

  /** The subjects of a snapshot are accepted by the greedy pass. */
  ghost predicate Resolvable(src: Snapshot) {
    && AllKindsSupported(src)
    && Resolution.Resolves(SubjectRowsOf(src), MaxCustomerID(Rows(src, Customers)))
  }

  /** The inputs of the walk an import performs. */
  ghost predicate InputsOf(x: Inputs, src: Snapshot, binding: string, sha: string -> string, printer: Reencoding.Printer) {
    x.src == src && x.binding == binding && x.sha == sha && x.printer == printer && ResolvedFrom(x)
  }

  /** What a run that may still commit has computed. */
  ghost predicate Commits(x: Inputs, accepts: (Database, Write) -> bool, before: Database, expected: string) {
    var end := Advance(accepts, Progress([], map[], Some(before)), Plan(x));
    && Permitted(x) && end.Some? && x.sha(end.value.stream) == expected
    && end.value.target.Some? && Reconcilable(end.value.target.value)
  }

  class TargetStore {
    /** What other transactions can see. */
    var committed: Database
    const accepts: (Database, Write) -> bool

    constructor (initial: Database, accepts: (Database, Write) -> bool)
      ensures committed == initial && this.accepts == accepts
    {
      committed := initial;
      this.accepts := accepts;
    }

    /** Succeeds exactly when the resolution, the walk, the digest and the gates all agree; only then
        does anything become visible, and then all of it. */
    method ImportWhitelist(src: Snapshot, binding: string, sha: string -> string, printer: Reencoding.Printer, expected: string)
      returns (result: Result<map<CountKey, nat>, string>, ghost x: Inputs)
      requires PositiveIDs(Rows(src, Customers))
      modifies this
      ensures Resolvable(src) ==> InputsOf(x, src, binding, sha, printer)
      ensures result.Ok? <==> Resolvable(src) && Commits(x, accepts, old(committed), expected)
      ensures result.Err? ==> committed == old(committed)
      ensures result.Ok? ==>
                var end := Advance(accepts, Progress([], map[], Some(old(committed))), Plan(x)).value;
                Some(committed) == end.target && result.value == end.counts
    {
      hide Plan, Permitted, Advance, SubjectRowsOf, Resolution.Resolves, AllKindsSupported, MaxCustomerID, Reconcilable;
      var resolved := ResolveQuestionnaireCustomers(src);
      if resolved.Err? {
        x := Inputs(src, ResolutionPass.Subjects(map[], map[], map[], []), binding, sha, printer);
        return Err(resolved.error), x;
      }
      var inputs := Inputs(src, resolved.value, binding, sha, printer);
      x := inputs;
      var walker := new Walker(Some(committed), accepts);
      var ok := walker.WalkSource(inputs);
      if !ok { return Err("walk failed"), x; }
      if sha(walker.hasher.written) != expected {
        return Err("source digest mismatch"), x;
      }
      if walker.target.None? { return Err("no target"), x; }
      var report := ReconcileWhitelist(walker.target.value);
      if report.Err? { return Err(report.error), x; }
      committed := walker.target.value;
      result := Ok(walker.counts);
    }
  }

  /** Main result: given the digest of the dry run, an import into an empty target whose source keeps
      its foreign keys commits exactly when the walk is permitted, the target takes every write, and the
      amounts of the product orders add up to a bigint. The digest check, the hard gates and the agents'
      lists cannot stop it. */
  lemma CommitsIff(x: Inputs, accepts: (Database, Write) -> bool, anything: (Database, Write) -> bool, expected: string)
    requires Typed(x.src) && IdentitiesReal(x.src) && ResolvedFrom(x) && CollisionFree(x)
    requires Advance(anything, Progress([], map[], None), Plan(x)).Some?
    requires expected == x.sha(Advance(anything, Progress([], map[], None), Plan(x)).value.stream)
    ensures Commits(x, accepts, EMPTY_TARGET, expected)
            <==> && Permitted(x) && Advance(accepts, Progress([], map[], Some(EMPTY_TARGET)), Plan(x)).Some?
                 && Bigint(ImportTables.SourceTotal(x))
  {
    hide Plan, Permitted, Advance, Typed, IdentitiesReal, ResolvedFrom, CollisionFree, GatesClosed, After, Reconcilable, Bigint, ImportTables.SourceTotal;
    if Permitted(x) && Advance(accepts, Progress([], map[], Some(EMPTY_TARGET)), Plan(x)).Some? {
      SuccessfulWalkClosesGates(x, accepts);
      DigestModeAgrees(accepts, anything, EMPTY_TARGET, Plan(x));
      ImportTables.ReconcilableIff(x);
    }
  }
}
