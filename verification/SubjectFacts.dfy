/** What a successful pass says about the customers it invents and the references it lists. */
module SubjectFacts {
  import opened Wrappers
  import opened References
  import opened SubjectGraph
  import opened Resolution
  import opened Components
  import Sets

  // ----- Invented customers

  /** A customer is invented exactly for the components that hold no existing customer. */
  lemma InventedIffUnmatched(rows: seq<Row>, maxCustomerID: int, i: nat)
    requires MatchesInRange(rows, maxCustomerID) && Resolves(rows, maxCustomerID) && i < |rows|
    ensures |Outcome(rows, maxCustomerID).chosen| == |rows|
    ensures Outcome(rows, maxCustomerID).chosen[i] > maxCustomerID
            <==> (forall c :: c <= maxCustomerID ==> !Linked(FirstRows(rows, |rows|), RowNode(rows[i]), CustomerNode(c)))
  {
    hide Of, Step, Linked, Resolve, CustomerOf;
    var s, rs := Outcome(rows, maxCustomerID), FirstRows(rows, |rows|);
    OwnershipHolds(rows, |rows|, maxCustomerID);
    CustomerOfRow(rows, |rows|, maxCustomerID, s, i);
    var customer := s.chosen[i];
    forall c | c <= maxCustomerID
      ensures Linked(rs, RowNode(rows[i]), CustomerNode(c)) <==> customer == c
    {
      PassComputesComponents(rows, |rows|, maxCustomerID, RowNode(rows[i]), CustomerNode(c));
      assert CustomerOf(s, CustomerNode(c)) == c by { CustomerOfCustomer(s, c); }
    }
    if customer <= maxCustomerID {
      assert Linked(rs, RowNode(rows[i]), CustomerNode(customer));
    }
  }

  lemma CustomerOfCustomer(s: State, c: int)
    ensures CustomerOf(s, CustomerNode(c)) == c
  {
  }

  ghost predicate FirstIs(chosen: seq<int>, n: nat, f: int, customer: int)
    requires n <= |chosen|
  {
    0 <= f < n && chosen[f] == customer && forall i :: 0 <= i < f ==> chosen[i] != customer
  }

  ghost predicate LatestIs(rows: seq<Row>, chosen: seq<int>, n: nat, customer: int, latest: int)
    requires n <= |rows| && n <= |chosen|
  {
    && (exists i :: 0 <= i < n && chosen[i] == customer && rows[i].createdAt == latest)
    && (forall i :: 0 <= i < n && chosen[i] == customer ==> rows[i].createdAt <= latest)
  }

  /** The k-th invented customer takes the k-th unused id, the creation time of the first row of
      its component and the latest time of any of its rows. */
  ghost predicate Dated(rows: seq<Row>, n: nat, chosen: seq<int>, customer: int, y: Synthetic)
    requires n <= |rows| && n <= |chosen|
  {
    && y.id == customer
    && (exists f :: FirstIs(chosen, n, f, customer) && y.createdAt == rows[f].createdAt)
    && LatestIs(rows, chosen, n, customer, y.updatedAt)
  }

  lemma DatedKept(rows: seq<Row>, n: nat, chosen: seq<int>, more: seq<int>, customer: int, y: Synthetic)
    requires n < |rows| && |chosen| == n && |more| == n + 1 && forall i :: 0 <= i < n ==> more[i] == chosen[i]
    requires Dated(rows, n, chosen, customer, y)
    ensures
      var z := if more[n] == customer && rows[n].createdAt > y.updatedAt then y.(updatedAt := rows[n].createdAt) else y;
      Dated(rows, n + 1, more, customer, z)
  {
    hide Of;
    var f :| FirstIs(chosen, n, f, customer) && y.createdAt == rows[f].createdAt;
    assert FirstIs(more, n + 1, f, customer);
    var i :| 0 <= i < n && chosen[i] == customer && rows[i].createdAt == y.updatedAt;
    assert more[i] == customer;
  }

  lemma SyntheticAfter(s0: State, row: Row, maxCustomerID: int, s: State)
    requires Step(s0, row, maxCustomerID) == Some(s)
    ensures |s.chosen| == |s0.chosen| + 1 && |s0.synthetic| <= |s.synthetic| <= |s0.synthetic| + 1
    ensures forall k :: 0 <= k < |s0.synthetic| ==>
              s.synthetic[k] ==
              if s.chosen[|s0.chosen|] == maxCustomerID + 1 + k && row.createdAt > s0.synthetic[k].updatedAt
              then s0.synthetic[k].(updatedAt := row.createdAt) else s0.synthetic[k]
    ensures |s.synthetic| > |s0.synthetic| ==>
              var customer := maxCustomerID + |s.synthetic|;
              s.chosen[|s0.chosen|] == customer && s.synthetic[|s0.synthetic|] == Synthetic(customer, row.createdAt, row.createdAt)
  {
    hide Of, CandidateCustomers, Own, Merge;
  }

  lemma DatedNew(rows: seq<Row>, n: nat, maxCustomerID: int, s0: State, s: State)
    requires n < |rows| && Owned(rows, n, maxCustomerID, s0) && |s.chosen| == n + 1
    requires forall i :: 0 <= i < n ==> s.chosen[i] == s0.chosen[i]
    requires s.chosen[n] == maxCustomerID + 1 + |s0.synthetic|
    ensures Dated(rows, n + 1, s.chosen, s.chosen[n], Synthetic(s.chosen[n], rows[n].createdAt, rows[n].createdAt))
  {
    hide Of;
    assert FirstIs(s.chosen, n + 1, n, s.chosen[n]);
  }

  lemma {:induction false} InventedCustomers(rows: seq<Row>, n: nat, maxCustomerID: int, k: nat)
    requires n <= |rows| && MatchesInRange(rows, maxCustomerID) && Resolve(rows, n, maxCustomerID).Some?
    requires k < |Resolve(rows, n, maxCustomerID).value.synthetic|
    ensures |Resolve(rows, n, maxCustomerID).value.chosen| == n
    ensures
      var s := Resolve(rows, n, maxCustomerID).value;
      Dated(rows, n, s.chosen, maxCustomerID + 1 + k, s.synthetic[k])
  {
    hide Of, Dated, Step;
    var s0, s := Resolve(rows, n - 1, maxCustomerID).value, Resolve(rows, n, maxCustomerID).value;
    var row := rows[n - 1];
    OwnershipHolds(rows, n - 1, maxCustomerID);
    StepAgrees(s0, row, maxCustomerID, s);
    SyntheticAfter(s0, row, maxCustomerID, s);
    if k < |s0.synthetic| {
      InventedCustomers(rows, n - 1, maxCustomerID, k);
      DatedKept(rows, n - 1, s0.chosen, s.chosen, maxCustomerID + 1 + k, s0.synthetic[k]);
    } else {
      DatedNew(rows, n - 1, maxCustomerID, s0, s);
    }
  }

  /** A customer that was not invented was matched by some row. */
  lemma ExistingWasMatched(rows: seq<Row>, maximum: int, i: nat) returns (m: nat)
    requires MatchesInRange(rows, maximum) && Resolves(rows, maximum) && i < |rows|
    requires |Outcome(rows, maximum).chosen| == |rows| && Outcome(rows, maximum).chosen[i] <= maximum
    ensures m < |rows| && Matched(rows[m]) && rows[m].existingCustomer == Outcome(rows, maximum).chosen[i]
  {
    hide Of, Resolve, CustomerOf, Step;
    var s := Outcome(rows, maximum);
    OwnershipHolds(rows, |rows|, maximum);
    CustomerOfRow(rows, |rows|, maximum, s, i);
    var a, b := RowNode(rows[i]), CustomerNode(s.chosen[i]);
    CustomerOfCustomer(s, s.chosen[i]);
    PassComputesComponents(rows, |rows|, maximum, a, b);
    var rs := FirstRows(rows, |rows|);
    var p: seq<Node> :| Joins(rs, p, a, b);
    assert Adjacent(rs, p[|p| - 2], p[|p| - 1]);
    m :| 0 <= m < |rows| && rows[m] == p[|p| - 2].row;
  }

  // ----- Listed references

  lemma {:induction false} MergeHas(known: seq<Reference>, more: seq<Reference>, r: Reference)
    ensures r in Merge(known, more) <==> r in known || r in more
  {
    if more != [] {
      MergeHas(known, more[..|more| - 1], r);
      assert more == more[..|more| - 1] + [more[|more| - 1]];
    }
  }

  lemma {:induction false} MergeDistinct(known: seq<Reference>, more: seq<Reference>)
    requires Sets.Distinct(known)
    ensures Sets.Distinct(Merge(known, more))
  {
    if more != [] { MergeDistinct(known, more[..|more| - 1]); }
  }

  ghost predicate ListsExactly(rows: seq<Row>, n: nat, chosen: seq<int>, listed: seq<Reference>, customer: int, r: Reference)
    requires n <= |rows| && |chosen| == n
  {
    Sets.Distinct(listed) && (r in listed <==> exists i :: 0 <= i < n && chosen[i] == customer && r in Of(rows[i]))
  }

  lemma ListsExactlyKept(rows: seq<Row>, n: nat, chosen: seq<int>, more: seq<int>, listed: seq<Reference>, customer: int, r: Reference)
    requires n < |rows| && |chosen| == n && |more| == n + 1 && forall i :: 0 <= i < n ==> more[i] == chosen[i]
    requires ListsExactly(rows, n, chosen, listed, customer, r)
    ensures ListsExactly(rows, n + 1, more, if more[n] == customer then Merge(listed, Of(rows[n])) else listed, customer, r)
  {
    hide Of, Merge, Sets.Distinct;
    MergeDistinct(listed, Of(rows[n]));
    MergeHas(listed, Of(rows[n]), r);
    if i :| 0 <= i < n && chosen[i] == customer && r in Of(rows[i]) {
      assert more[i] == customer;
    }
  }

  /** Each customer's list holds exactly the references of its rows, each once. */
  lemma {:induction false} ListedReferences(rows: seq<Row>, n: nat, maxCustomerID: int, customer: int, r: Reference)
    requires n <= |rows| && MatchesInRange(rows, maxCustomerID) && Resolve(rows, n, maxCustomerID).Some?
    ensures |Resolve(rows, n, maxCustomerID).value.chosen| == n
    ensures
      var s := Resolve(rows, n, maxCustomerID).value;
      ListsExactly(rows, n, s.chosen, Listed(s.references, customer), customer, r)
  {
    hide Of, ListsExactly, Step, Listed;
    if n > 0 {
      var s0, s := Resolve(rows, n - 1, maxCustomerID).value, Resolve(rows, n, maxCustomerID).value;
      ListedReferences(rows, n - 1, maxCustomerID, customer, r);
      StepAgrees(s0, rows[n - 1], maxCustomerID, s);
      ReferencesAfter(s0, rows[n - 1], maxCustomerID, s, customer);
      ListsExactlyKept(rows, n - 1, s0.chosen, s.chosen, Listed(s0.references, customer), customer, r);
    } else {
      NothingListed(rows, customer, r);
    }
  }

  lemma NothingListed(rows: seq<Row>, customer: int, r: Reference)
    ensures ListsExactly(rows, 0, EMPTY.chosen, Listed(EMPTY.references, customer), customer, r)
  {
  }

  lemma ReferencesAfter(s0: State, row: Row, maxCustomerID: int, s: State, customer: int)
    requires Step(s0, row, maxCustomerID) == Some(s)
    ensures |s.chosen| == |s0.chosen| + 1
    ensures Listed(s.references, customer) ==
            if s.chosen[|s0.chosen|] == customer then Merge(Listed(s0.references, customer), Of(row)) else Listed(s0.references, customer)
  {
    hide Of, Merge, CandidateCustomers, Own;
  }

  /** No reference is listed for two customers. */
  lemma ReferenceListsDisjoint(rows: seq<Row>, maxCustomerID: int, c: int, d: int, r: Reference)
    requires MatchesInRange(rows, maxCustomerID) && Resolves(rows, maxCustomerID)
    requires r in Listed(Outcome(rows, maxCustomerID).references, c) && r in Listed(Outcome(rows, maxCustomerID).references, d)
    ensures c == d
  {
    hide Of, Step, Resolve, Listed;
    var s := Outcome(rows, maxCustomerID);
    OwnershipHolds(rows, |rows|, maxCustomerID);
    ListedReferences(rows, |rows|, maxCustomerID, c, r);
    ListedReferences(rows, |rows|, maxCustomerID, d, r);
    var i :| 0 <= i < |rows| && s.chosen[i] == c && r in Of(rows[i]);
    var j :| 0 <= j < |rows| && s.chosen[j] == d && r in Of(rows[j]);
    assert s.owner[r] == c && s.owner[r] == d;
  }
}
