/** The greedy pass computes the connected components of the subject graph, and it
    succeeds exactly when no row joins two components its predecessors had formed. */
module Components {
  import opened Wrappers
  import opened References
  import opened SubjectGraph
  import opened Resolution
  import Sets

  /** The customer a node stands for: an existing customer for itself, a row for the
      owner of its first reference. */
  function CustomerOf(s: State, a: Node): int {
    match a
    case CustomerNode(id) => id
    case RowNode(row) => if Of(row) != [] && Of(row)[0] in s.owner then s.owner[Of(row)[0]] else 0
  }

  /** Nodes present once the given rows have been read. */
  predicate Known(rows: set<Row>, maxCustomerID: int, a: Node) {
    match a
    case CustomerNode(id) => id <= maxCustomerID
    case RowNode(row) => row in rows
  }

  lemma CustomerOfRow(rows: seq<Row>, n: nat, maxCustomerID: int, s: State, i: nat)
    requires i < n <= |rows| && Owned(rows, n, maxCustomerID, s)
    ensures CustomerOf(s, RowNode(rows[i])) == s.chosen[i]
  {
    hide Of;
    OfShape(rows[i]);
    assert Of(rows[i])[0] in Of(rows[i]);
  }

  lemma SharedReferenceSameCustomer(rows: seq<Row>, n: nat, maxCustomerID: int, s: State, i: nat, j: nat)
    requires i < n <= |rows| && j < n && Owned(rows, n, maxCustomerID, s) && SharesReference(rows[i], rows[j])
    ensures s.chosen[i] == s.chosen[j]
  {
    hide Of;
    var r :| r in Of(rows[i]) && r in Of(rows[j]);
    assert s.owner[r] == s.chosen[i];
  }

  lemma AdjacentSameCustomer(rows: seq<Row>, n: nat, maxCustomerID: int, s: State, a: Node, b: Node)
    requires n <= |rows| && Owned(rows, n, maxCustomerID, s) && Adjacent(FirstRows(rows, n), a, b)
    ensures CustomerOf(s, a) == CustomerOf(s, b)
  {
    hide Of;
    if a.RowNode? {
      var i :| 0 <= i < n && rows[i] == a.row;
      CustomerOfRow(rows, n, maxCustomerID, s, i);
      if b.RowNode? {
        var j :| 0 <= j < n && rows[j] == b.row;
        CustomerOfRow(rows, n, maxCustomerID, s, j);
        SharedReferenceSameCustomer(rows, n, maxCustomerID, s, i, j);
      }
    } else {
      var j :| 0 <= j < n && rows[j] == b.row;
      CustomerOfRow(rows, n, maxCustomerID, s, j);
    }
  }

  lemma LinkedSameCustomer(rows: seq<Row>, n: nat, maxCustomerID: int, s: State, a: Node, b: Node)
    requires n <= |rows| && Owned(rows, n, maxCustomerID, s) && Linked(FirstRows(rows, n), a, b)
    ensures CustomerOf(s, a) == CustomerOf(s, b)
  {
    hide Of, Owned, CustomerOf, Adjacent;
    var rs := FirstRows(rows, n);
    var p :| Joins(rs, p, a, b);
    forall x, y | Adjacent(rs, x, y) ensures CustomerOf(s, x) == CustomerOf(s, y) {
      AdjacentSameCustomer(rows, n, maxCustomerID, s, x, y);
    }
    LabelAlongPath(rs, p, x => CustomerOf(s, x));
  }

  /** A row that did not need a new customer is adjacent to a node already carrying its customer. */
  lemma EarlierNeighbour(rows: seq<Row>, n: nat, maxCustomerID: int, s0: State, s: State) returns (a: Node)
    requires n < |rows| && MatchesInRange(rows, maxCustomerID) && Resolve(rows, n, maxCustomerID) == Some(s0)
    requires Owned(rows, n, maxCustomerID, s0) && Agreed(s0, rows[n], maxCustomerID, s)
    requires s.chosen[n] <= maxCustomerID + |s0.synthetic|
    ensures Adjacent(FirstRows(rows, n + 1), RowNode(rows[n]), a) && Known(FirstRows(rows, n), maxCustomerID, a)
    ensures CustomerOf(s0, a) == s.chosen[n]
  {
    hide Of, Resolve;
    var customer := s.chosen[n];
    if r :| r in Of(rows[n]) && r in s0.owner && s0.owner[r] == customer {
      var i := OwnerHasRow(rows, n, maxCustomerID, r);
      a := RowNode(rows[i]);
      CustomerOfRow(rows, n, maxCustomerID, s0, i);
    } else {
      a := CustomerNode(customer);
    }
  }

  lemma KnownStays(rows: seq<Row>, n: nat, maxCustomerID: int, s0: State, s: State, a: Node)
    requires n < |rows|
    requires Owned(rows, n, maxCustomerID, s0) && Owned(rows, n + 1, maxCustomerID, s) && Agreed(s0, rows[n], maxCustomerID, s)
    requires Known(FirstRows(rows, n), maxCustomerID, a)
    ensures CustomerOf(s, a) == CustomerOf(s0, a) <= maxCustomerID + |s0.synthetic|
  {
    hide Of;
    if a.RowNode? {
      var i :| 0 <= i < n && rows[i] == a.row;
      CustomerOfRow(rows, n, maxCustomerID, s0, i);
      CustomerOfRow(rows, n + 1, maxCustomerID, s, i);
    }
  }

  lemma NewRowLinked(rows: seq<Row>, n: nat, maxCustomerID: int, b: Node)
    requires n < |rows| && MatchesInRange(rows, maxCustomerID) && Resolve(rows, n + 1, maxCustomerID).Some?
    requires Known(FirstRows(rows, n), maxCustomerID, b)
    requires CustomerOf(Resolve(rows, n + 1, maxCustomerID).value, b) == CustomerOf(Resolve(rows, n + 1, maxCustomerID).value, RowNode(rows[n]))
    ensures Linked(FirstRows(rows, n + 1), RowNode(rows[n]), b)
    decreases n, 2
  {
    hide Of, Step, Owned, Agreed, CustomerOf, Adjacent, Linked, Known;
    var s0, s := Resolve(rows, n, maxCustomerID).value, Resolve(rows, n + 1, maxCustomerID).value;
    StepAgrees(s0, rows[n], maxCustomerID, s);
    OwnershipHolds(rows, n, maxCustomerID);
    OwnershipHolds(rows, n + 1, maxCustomerID);
    CustomerOfRow(rows, n + 1, maxCustomerID, s, n);
    KnownStays(rows, n, maxCustomerID, s0, s, b);
    var a := EarlierNeighbour(rows, n, maxCustomerID, s0, s);
    SameCustomerLinked(rows, n, maxCustomerID, a, b);
    var rs := FirstRows(rows, n + 1);
    LinkedMonotone(FirstRows(rows, n), rs, a, b);
    AdjacentLinked(rs, RowNode(rows[n]), a);
    LinkedTransitive(rs, RowNode(rows[n]), a, b);
  }

  lemma {:induction false} SameCustomerLinked(rows: seq<Row>, n: nat, maxCustomerID: int, a: Node, b: Node)
    requires n <= |rows| && MatchesInRange(rows, maxCustomerID) && Resolve(rows, n, maxCustomerID).Some?
    requires Known(FirstRows(rows, n), maxCustomerID, a) && Known(FirstRows(rows, n), maxCustomerID, b)
    requires CustomerOf(Resolve(rows, n, maxCustomerID).value, a) == CustomerOf(Resolve(rows, n, maxCustomerID).value, b)
    ensures Linked(FirstRows(rows, n), a, b)
    decreases n, 1
  {
    hide Of, Step, Owned, Agreed, Adjacent, Linked;
    var rs := FirstRows(rows, n);
    if a == b {
      LinkedToItself(rs, a);
    } else if n > 0 {
      var rs0 := FirstRows(rows, n - 1);
      assert forall x :: x in rs && x !in rs0 ==> x == rows[n - 1];
      if Known(rs0, maxCustomerID, a) && Known(rs0, maxCustomerID, b) {
        var s0, s := Resolve(rows, n - 1, maxCustomerID).value, Resolve(rows, n, maxCustomerID).value;
        StepAgrees(s0, rows[n - 1], maxCustomerID, s);
        OwnershipHolds(rows, n - 1, maxCustomerID);
        OwnershipHolds(rows, n, maxCustomerID);
        KnownStays(rows, n - 1, maxCustomerID, s0, s, a);
        KnownStays(rows, n - 1, maxCustomerID, s0, s, b);
        SameCustomerLinked(rows, n - 1, maxCustomerID, a, b);
        LinkedMonotone(rs0, rs, a, b);
      } else if Known(rs0, maxCustomerID, b) {
        NewRowLinked(rows, n - 1, maxCustomerID, b);
      } else {
        NewRowLinked(rows, n - 1, maxCustomerID, a);
        LinkedSymmetric(rs, b, a);
      }
    }
  }

  /** Main result: rows and existing customers end up with the same customer exactly when a
      chain of shared references and shared matches joins them. */
  lemma PassComputesComponents(rows: seq<Row>, n: nat, maxCustomerID: int, a: Node, b: Node)
    requires n <= |rows| && MatchesInRange(rows, maxCustomerID) && Resolve(rows, n, maxCustomerID).Some?
    requires Known(FirstRows(rows, n), maxCustomerID, a) && Known(FirstRows(rows, n), maxCustomerID, b)
    ensures
      var s := Resolve(rows, n, maxCustomerID).value;
      CustomerOf(s, a) == CustomerOf(s, b) <==> Linked(FirstRows(rows, n), a, b)
  {
    hide Of, Step, Owned, Linked, CustomerOf, Known;
    var s := Resolve(rows, n, maxCustomerID).value;
    OwnershipHolds(rows, n, maxCustomerID);
    if CustomerOf(s, a) == CustomerOf(s, b) {
      SameCustomerLinked(rows, n, maxCustomerID, a, b);
    }
    if Linked(FirstRows(rows, n), a, b) {
      LinkedSameCustomer(rows, n, maxCustomerID, s, a, b);
    }
  }

  /** The same for the customers written to the result. */
  lemma SameCustomerIffLinked(rows: seq<Row>, maxCustomerID: int, i: nat, j: nat)
    requires MatchesInRange(rows, maxCustomerID) && Resolves(rows, maxCustomerID) && i < |rows| && j < |rows|
    ensures |Outcome(rows, maxCustomerID).chosen| == |rows|
    ensures
      var chosen := Outcome(rows, maxCustomerID).chosen;
      chosen[i] == chosen[j] <==> Linked(FirstRows(rows, |rows|), RowNode(rows[i]), RowNode(rows[j]))
  {
    hide Of, Step, Linked, CustomerOf, Resolve;
    var s := Outcome(rows, maxCustomerID);
    OwnershipHolds(rows, |rows|, maxCustomerID);
    CustomerOfRow(rows, |rows|, maxCustomerID, s, i);
    CustomerOfRow(rows, |rows|, maxCustomerID, s, j);
    PassComputesComponents(rows, |rows|, maxCustomerID, RowNode(rows[i]), RowNode(rows[j]));
  }

  // ----- When the pass succeeds

  /** What a row touches when it arrives: earlier rows it shares a reference with, and its match. */
  predicate Touches(earlier: set<Row>, row: Row, a: Node) {
    match a
    case CustomerNode(id) => Matches(row, id)
    case RowNode(r) => r in earlier && SharesReference(row, r)
  }

  /** The row would join two components formed without it. */
  ghost predicate Bridges(earlier: set<Row>, row: Row) {
    exists a, b :: Touches(earlier, row, a) && Touches(earlier, row, b) && !Linked(earlier, a, b)
  }

  ghost predicate Mergeable(rows: seq<Row>, n: nat)
    requires n <= |rows|
  {
    forall k :: 0 <= k < n ==> ValidMatch(rows[k]) && !Bridges(FirstRows(rows, k), rows[k])
  }

  lemma TouchedIsCandidate(rows: seq<Row>, n: nat, maxCustomerID: int, s: State, a: Node)
    requires n < |rows| && Owned(rows, n, maxCustomerID, s) && MatchesInRange(rows, maxCustomerID)
    requires Touches(FirstRows(rows, n), rows[n], a)
    ensures Known(FirstRows(rows, n), maxCustomerID, a) && CustomerOf(s, a) in CandidateCustomers(s.owner, rows[n])
  {
    hide Of;
    if a.RowNode? {
      var i :| 0 <= i < n && rows[i] == a.row;
      CustomerOfRow(rows, n, maxCustomerID, s, i);
      var r :| r in Of(rows[n]) && r in Of(rows[i]);
      assert s.owner[r] == s.chosen[i];
    }
  }

  lemma CandidateIsTouched(rows: seq<Row>, n: nat, maxCustomerID: int, c: int) returns (a: Node)
    requires n < |rows| && MatchesInRange(rows, maxCustomerID) && Resolve(rows, n, maxCustomerID).Some?
    requires c in CandidateCustomers(Resolve(rows, n, maxCustomerID).value.owner, rows[n])
    ensures Touches(FirstRows(rows, n), rows[n], a) && CustomerOf(Resolve(rows, n, maxCustomerID).value, a) == c
  {
    hide Of, Resolve;
    var s := Resolve(rows, n, maxCustomerID).value;
    if Matches(rows[n], c) {
      a := CustomerNode(c);
    } else {
      var r :| r in Of(rows[n]) && r in s.owner && s.owner[r] == c;
      var i := OwnerHasRow(rows, n, maxCustomerID, r);
      OwnershipHolds(rows, n, maxCustomerID);
      a := RowNode(rows[i]);
      CustomerOfRow(rows, n, maxCustomerID, s, i);
    }
  }

  lemma OneCandidateIffNoBridge(rows: seq<Row>, n: nat, maxCustomerID: int)
    requires n < |rows| && MatchesInRange(rows, maxCustomerID) && Resolve(rows, n, maxCustomerID).Some?
    ensures |CandidateCustomers(Resolve(rows, n, maxCustomerID).value.owner, rows[n])| <= 1 <==> !Bridges(FirstRows(rows, n), rows[n])
  {
    hide Of, Resolve, Linked, Touches, CandidateCustomers, CustomerOf, Owned;
    var s := Resolve(rows, n, maxCustomerID).value;
    var candidates, earlier := CandidateCustomers(s.owner, rows[n]), FirstRows(rows, n);
    OwnershipHolds(rows, n, maxCustomerID);
    if Bridges(earlier, rows[n]) {
      var a, b :| Touches(earlier, rows[n], a) && Touches(earlier, rows[n], b) && !Linked(earlier, a, b);
      TouchedIsCandidate(rows, n, maxCustomerID, s, a);
      TouchedIsCandidate(rows, n, maxCustomerID, s, b);
      PassComputesComponents(rows, n, maxCustomerID, a, b);
      assert {CustomerOf(s, a), CustomerOf(s, b)} <= candidates;
      Sets.TwoMembers(candidates, CustomerOf(s, a), CustomerOf(s, b));
    }
    if |candidates| > 1 {
      var c, d := Sets.PickTwo(candidates);
      var a := CandidateIsTouched(rows, n, maxCustomerID, c);
      var b := CandidateIsTouched(rows, n, maxCustomerID, d);
      TouchedIsCandidate(rows, n, maxCustomerID, s, a);
      TouchedIsCandidate(rows, n, maxCustomerID, s, b);
      PassComputesComponents(rows, n, maxCustomerID, a, b);
    }
  }

  lemma StepAccepts(s: State, row: Row, maxCustomerID: int)
    ensures Step(s, row, maxCustomerID).Some? <==> ValidMatch(row) && |CandidateCustomers(s.owner, row)| <= 1
  {
    hide Of;
  }

  /** Main result: the pass succeeds exactly when every match is valid and no row joins two
      components already formed by earlier rows and existing customers. */
  lemma {:induction false} SucceedsIffNoBridge(rows: seq<Row>, n: nat, maxCustomerID: int)
    requires n <= |rows| && MatchesInRange(rows, maxCustomerID)
    ensures Resolve(rows, n, maxCustomerID).Some? <==> Mergeable(rows, n)
  {
    hide Of, Bridges, CandidateCustomers, Step, FirstRows, Owned;
    if n > 0 {
      SucceedsIffNoBridge(rows, n - 1, maxCustomerID);
      var before := Resolve(rows, n - 1, maxCustomerID);
      if before.Some? {
        OneCandidateIffNoBridge(rows, n - 1, maxCustomerID);
        StepAccepts(before.value, rows[n - 1], maxCustomerID);
      }
    }
  }
}
