/** Giving every submission and order a customer in one greedy pass
    (resolveQuestionnaireRows in cmd/aicrm-whitelist-import/importer.go). */
module Resolution {
  import opened Wrappers
  import opened References
  import Sets

  datatype Synthetic = Synthetic(id: int, createdAt: int, updatedAt: int)

  /** The state after a prefix of the rows: the customer of each row so far, the
      owner of each reference, the customers invented, and the references listed
      per customer in order of first appearance. */
  datatype State = State(
    chosen: seq<int>,
    owner: map<Reference, int>,
    synthetic: seq<Synthetic>,
    references: map<int, seq<Reference>>)

  const EMPTY := State([], map[], [], map[])

  // ----- The pass, row by row

  function Owners(owner: map<Reference, int>, references: seq<Reference>): set<int> {
    set r | r in references && r in owner :: owner[r]
  }

  function CandidateCustomers(owner: map<Reference, int>, row: Row): set<int> {
    (if Matched(row) then {row.existingCustomer} else {}) + Owners(owner, Of(row))
  }

  function Listed(references: map<int, seq<Reference>>, customer: int): seq<Reference> {
    if customer in references then references[customer] else []
  }

  /** Appends the references not yet listed. */
  function Merge(known: seq<Reference>, more: seq<Reference>): seq<Reference> {
    if more == [] then known
    else
      var front := Merge(known, more[..|more| - 1]);
      var last := more[|more| - 1];
      if last in front then front else front + [last]
  }

  function Touch(synthetic: seq<Synthetic>, index: int, createdAt: int): seq<Synthetic> {
    if 0 <= index < |synthetic| && createdAt > synthetic[index].updatedAt
    then synthetic[index := synthetic[index].(updatedAt := createdAt)]
    else synthetic
  }

  function Own(owner: map<Reference, int>, references: seq<Reference>, customer: int): map<Reference, int> {
    owner + map r | r in references :: customer
  }

  /** The one candidate if there is one, otherwise the next unused id. */
  ghost function Assign(candidates: set<int>, next: int): int {
    if exists c :: c in candidates then (var c :| c in candidates; c) else next
  }

  lemma AssignIsCandidate(candidates: set<int>, next: int)
    requires |candidates| <= 1
    ensures candidates == {} || candidates == {Assign(candidates, next)}
  {
    if candidates != {} {
      var c := Sets.Pick(candidates);
      assert c in candidates;
      Sets.AtMostOne(candidates, Assign(candidates, next));
    }
  }

  ghost function Step(s: State, row: Row, maxCustomerID: int): Option<State> {
    if !ValidMatch(row) || |CandidateCustomers(s.owner, row)| > 1 then None
    else
      var customer := Assign(CandidateCustomers(s.owner, row), maxCustomerID + 1 + |s.synthetic|);
      var synthetic :=
        if CandidateCustomers(s.owner, row) == {} then s.synthetic + [Synthetic(customer, row.createdAt, row.createdAt)]
        else Touch(s.synthetic, customer - maxCustomerID - 1, row.createdAt);
      Some(State(
        s.chosen + [customer],
        Own(s.owner, Of(row), customer),
        synthetic,
        s.references[customer := Merge(Listed(s.references, customer), Of(row))]))
  }

  /** The outcome for the first n rows; None is the importer's refusal to merge. */
  ghost function Resolve(rows: seq<Row>, n: nat, maxCustomerID: int): Option<State>
    requires n <= |rows|
  {
    if n == 0 then Some(EMPTY)
    else
      var before := Resolve(rows, n - 1, maxCustomerID);
      if before.None? then None else Step(before.value, rows[n - 1], maxCustomerID)
  }

  ghost predicate Resolves(rows: seq<Row>, maxCustomerID: int) {
    Resolve(rows, |rows|, maxCustomerID).Some?
  }

  ghost function Outcome(rows: seq<Row>, maxCustomerID: int): State
    requires Resolves(rows, maxCustomerID)
  {
    Resolve(rows, |rows|, maxCustomerID).value
  }

  /** What the schema guarantees about matches: they name customers that exist. */
  predicate MatchesInRange(rows: seq<Row>, maxCustomerID: int) {
    maxCustomerID >= 0 && forall i :: 0 <= i < |rows| && Matched(rows[i]) ==> rows[i].existingCustomer <= maxCustomerID
  }

  lemma {:induction false} ResolvesPrefix(rows: seq<Row>, maxCustomerID: int, n: nat, m: nat)
    requires n <= m <= |rows| && Resolve(rows, m, maxCustomerID).Some?
    ensures Resolve(rows, n, maxCustomerID).Some?
  {
    hide Of, Step;
    if n < m { ResolvesPrefix(rows, maxCustomerID, n, m - 1); }
  }

  // ----- Ownership: what the bookkeeping always says

  ghost predicate Owned(rows: seq<Row>, n: nat, maxCustomerID: int, s: State)
    requires n <= |rows|
  {
    && |s.chosen| == n
    && (forall i, r :: 0 <= i < n && r in Of(rows[i]) ==> r in s.owner && s.owner[r] == s.chosen[i])
    && (forall r :: r in s.owner ==> 1 <= s.owner[r] <= maxCustomerID + |s.synthetic|)
    && (forall i :: 0 <= i < n && Matched(rows[i]) ==> s.chosen[i] == rows[i].existingCustomer)
    && (forall i :: 0 <= i < n ==> 1 <= s.chosen[i] <= maxCustomerID + |s.synthetic|)
  }

  /** In a row that is accepted, everything that names a customer names the same one. */
  ghost predicate Agreed(s0: State, row: Row, maxCustomerID: int, s: State) {
    && |s.chosen| == |s0.chosen| + 1
    && (forall i :: 0 <= i < |s0.chosen| ==> s.chosen[i] == s0.chosen[i])
    && var customer := s.chosen[|s0.chosen|];
    && (forall r :: r in Of(row) && r in s0.owner ==> s0.owner[r] == customer)
    && (Matched(row) ==> row.existingCustomer == customer >= 1)
    && s.owner == Own(s0.owner, Of(row), customer)
    && |s0.synthetic| <= |s.synthetic|
    && ((exists r :: r in Of(row) && r in s0.owner && s0.owner[r] == customer)
        || (Matched(row) && row.existingCustomer == customer)
        || (customer == maxCustomerID + |s.synthetic| && |s.synthetic| == |s0.synthetic| + 1))
  }

  lemma StepAgrees(s0: State, row: Row, maxCustomerID: int, s: State)
    requires Step(s0, row, maxCustomerID) == Some(s)
    ensures Agreed(s0, row, maxCustomerID, s)
  {
    hide Of;
    var candidates := CandidateCustomers(s0.owner, row);
    var customer := s.chosen[|s0.chosen|];
    forall r | r in Of(row) && r in s0.owner ensures s0.owner[r] in candidates {}
    assert Matched(row) ==> row.existingCustomer in candidates;
    AssignIsCandidate(candidates, maxCustomerID + 1 + |s0.synthetic|);
    assert candidates == {} || customer in candidates;
  }

  lemma OwnedStep(rows: seq<Row>, n: nat, maxCustomerID: int, s0: State, s: State)
    requires 0 < n <= |rows| && MatchesInRange(rows, maxCustomerID)
    requires Owned(rows, n - 1, maxCustomerID, s0) && Agreed(s0, rows[n - 1], maxCustomerID, s)
    ensures Owned(rows, n, maxCustomerID, s)
  {
    hide Of;
    var customer := s.chosen[n - 1];
    assert 1 <= customer <= maxCustomerID + |s.synthetic|;
    forall i, r | 0 <= i < n && r in Of(rows[i]) ensures r in s.owner && s.owner[r] == s.chosen[i] {}
  }

  lemma {:induction false} OwnershipHolds(rows: seq<Row>, n: nat, maxCustomerID: int)
    requires n <= |rows| && MatchesInRange(rows, maxCustomerID) && Resolve(rows, n, maxCustomerID).Some?
    ensures Owned(rows, n, maxCustomerID, Resolve(rows, n, maxCustomerID).value)
  {
    hide Of, Step, Agreed, MatchesInRange;
    if n > 0 {
      var s0, s := Resolve(rows, n - 1, maxCustomerID).value, Resolve(rows, n, maxCustomerID).value;
      OwnershipHolds(rows, n - 1, maxCustomerID);
      StepAgrees(s0, rows[n - 1], maxCustomerID, s);
      OwnedStep(rows, n, maxCustomerID, s0, s);
    }
  }

  lemma {:induction false} OwnerHasRow(rows: seq<Row>, n: nat, maxCustomerID: int, r: Reference) returns (i: nat)
    requires n <= |rows| && Resolve(rows, n, maxCustomerID).Some? && r in Resolve(rows, n, maxCustomerID).value.owner
    ensures i < n && r in Of(rows[i])
  {
    hide Of;
    StepAgrees(Resolve(rows, n - 1, maxCustomerID).value, rows[n - 1], maxCustomerID, Resolve(rows, n, maxCustomerID).value);
    if r in Of(rows[n - 1]) {
      i := n - 1;
    } else {
      i := OwnerHasRow(rows, n - 1, maxCustomerID, r);
    }
  }
}
