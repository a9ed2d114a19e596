/** The pass as the importer runs it, over string-keyed maps that it updates row by row,
    proved equal to the specification in module Resolution. */
module ResolutionPass {
  import opened Wrappers
  import opened References
  import opened Resolution
  import Sets

  /** What the importer keeps of a successful pass. */
  datatype Subjects = Subjects(
    bySubmission: map<int, int>,
    byOrder: map<int, int>,
    references: map<int, seq<Reference>>,
    synthetic: seq<Synthetic>)

  /** Customers by submission or order id; a later row with the same id wins. */
  function Keyed(rows: seq<Row>, chosen: seq<int>, n: nat, orders: bool): map<int, int>
    requires n <= |rows| && n <= |chosen|
  {
    if n == 0 then map[]
    else
      var before := Keyed(rows, chosen, n - 1, orders);
      if IsOrder(rows[n - 1]) == orders then before[rows[n - 1].submissionID := chosen[n - 1]] else before
  }

  ghost function SubjectsOf(rows: seq<Row>, maxCustomerID: int): Subjects
    requires Resolves(rows, maxCustomerID) && |Outcome(rows, maxCustomerID).chosen| == |rows|
  {
    var s := Outcome(rows, maxCustomerID);
    Subjects(Keyed(rows, s.chosen, |rows|, false), Keyed(rows, s.chosen, |rows|, true), s.references, s.synthetic)
  }

  // ----- The string-keyed maps against the specification's maps

  ghost predicate OwnersAgree(owners: map<string, int>, owner: map<Reference, int>) {
    && (forall r :: r in owner ==> r.entity in ENTITIES && Key(r) in owners && owners[Key(r)] == owner[r] > 0)
    && (forall k :: k in owners ==> exists r :: r in owner && Key(r) == k)
  }

  function KeysOf(references: seq<Reference>): set<string> {
    set r | r in references :: Key(r)
  }

  ghost predicate SeenAgrees(seen: map<int, set<string>>, references: map<int, seq<Reference>>) {
    && seen.Keys == references.Keys
    && (forall c :: c in references ==> seen[c] == KeysOf(references[c]))
    && (forall c, r :: c in references && r in references[c] ==> r.entity in ENTITIES)
  }

  ghost predicate IndexesAgree(indexes: map<int, nat>, maxCustomerID: int, count: nat) {
    forall c :: if maxCustomerID < c <= maxCustomerID + count then c in indexes && indexes[c] == c - maxCustomerID - 1 else c !in indexes
  }

  lemma OwnerLookup(owners: map<string, int>, owner: map<Reference, int>, r: Reference)
    requires OwnersAgree(owners, owner) && r.entity in ENTITIES
    ensures Key(r) in owners <==> r in owner
  {
    hide Key;
    if Key(r) in owners {
      var q :| q in owner && Key(q) == Key(r);
      KeyInjective(q, r);
    }
  }

  method CollectCandidates(owners: map<string, int>, ghost owner: map<Reference, int>, row: Row, references: seq<Reference>)
    returns (candidates: set<int>)
    requires OwnersAgree(owners, owner)
    requires forall r :: r in references ==> r.entity in ENTITIES
    ensures candidates == (if Matched(row) then {row.existingCustomer} else {}) + Owners(owner, references)
  {
    hide Key;
    candidates := {};
    if row.matchCount == 1 {
      candidates := candidates + {row.existingCustomer};
    }
    ghost var matched := candidates;
    for i := 0 to |references|
      invariant candidates == matched + Owners(owner, references[..i])
    {
      OwnerLookup(owners, owner, references[i]);
      var key := Key(references[i]);
      var found := if key in owners then owners[key] else 0;
      if found > 0 {
        candidates := candidates + {found};
      }
      assert references[..i + 1] == references[..i] + [references[i]];
    }
    assert references[..|references|] == references;
  }

  lemma KeysOfOneMore(references: seq<Reference>, r: Reference)
    ensures KeysOf(references + [r]) == KeysOf(references) + {Key(r)}
  {
    hide Key;
    assert forall q :: q in references + [r] <==> q in references || q == r;
  }

  lemma KeyListed(references: seq<Reference>, r: Reference)
    requires r.entity in ENTITIES && forall q :: q in references ==> q.entity in ENTITIES
    ensures Key(r) in KeysOf(references) <==> r in references
  {
    hide Key;
    if Key(r) in KeysOf(references) {
      var q :| q in references && Key(q) == Key(r);
      KeyInjective(q, r);
    }
  }

  /** The closing loop over a row's references: each is owned, and listed once. */
  method RecordReferences(owners: map<string, int>, seenBefore: set<string>, listedBefore: seq<Reference>, references: seq<Reference>, customer: int)
    returns (owners': map<string, int>, seen: set<string>, listed: seq<Reference>)
    requires forall r :: r in references || r in listedBefore ==> r.entity in ENTITIES
    requires seenBefore == KeysOf(listedBefore)
    ensures owners'.Keys == owners.Keys + KeysOf(references)
    ensures forall k :: k in owners' ==> owners'[k] == if k in KeysOf(references) then customer else owners[k]
    ensures listed == Merge(listedBefore, references) && seen == KeysOf(listed)
    ensures forall r :: r in listed ==> r.entity in ENTITIES
  {
    hide Key, KeysOf;
    owners', seen, listed := owners, seenBefore, listedBefore;
    assert KeysOf([]) == {} by { NoKeys(); }
    for i := 0 to |references|
      invariant owners'.Keys == owners.Keys + KeysOf(references[..i])
      invariant forall k :: k in owners' ==> owners'[k] == if k in KeysOf(references[..i]) then customer else owners[k]
      invariant listed == Merge(listedBefore, references[..i]) && seen == KeysOf(listed)
      invariant forall r :: r in listed ==> r.entity in ENTITIES
    {
      var reference := references[i];
      var key := Key(reference);
      assert references[..i + 1] == references[..i] + [reference];
      assert references[..i + 1][..i] == references[..i];
      KeysOfOneMore(references[..i], reference);
      KeysOfOneMore(listed, reference);
      KeyListed(listed, reference);
      owners' := owners'[key := customer];
      if key !in seen {
        seen := seen + {key};
        listed := listed + [reference];
      }
    }
    assert references[..|references|] == references;
  }

  lemma NoKeys()
    ensures KeysOf([]) == {}
  {
  }

  // ----- The pass

  lemma OwnersAfter(owners: map<string, int>, owner: map<Reference, int>, references: seq<Reference>, customer: int, owners': map<string, int>)
    requires OwnersAgree(owners, owner) && customer > 0
    requires forall r :: r in references ==> r.entity in ENTITIES
    requires owners'.Keys == owners.Keys + KeysOf(references)
    requires forall k :: k in owners' ==> owners'[k] == if k in KeysOf(references) then customer else owners[k]
    ensures OwnersAgree(owners', Own(owner, references, customer))
  {
    hide Key;
    var owner' := Own(owner, references, customer);
    forall r | r in owner' ensures r.entity in ENTITIES && Key(r) in owners' && owners'[Key(r)] == owner'[r] > 0 {
      KeyListed(references, r);
    }
    forall k | k in owners' ensures exists r :: r in owner' && Key(r) == k {
      if k in KeysOf(references) {
        var r :| r in references && Key(r) == k;
        assert r in owner';
      } else {
        var r :| r in owner && Key(r) == k;
        assert r in owner';
      }
    }
  }

  lemma CustomerPositive(s: State, owners: map<string, int>, row: Row, maxCustomerID: int)
    requires OwnersAgree(owners, s.owner) && ValidMatch(row) && maxCustomerID >= 0
    requires |CandidateCustomers(s.owner, row)| <= 1
    ensures forall c :: c in CandidateCustomers(s.owner, row) ==> c > 0
  {
    hide Of, Key;
  }

  /** The importer's working maps. */
  datatype Tables = Tables(
    owners: map<string, int>,
    seen: map<int, set<string>>,
    indexes: map<int, nat>,
    next: int,
    synthetic: seq<Synthetic>,
    references: map<int, seq<Reference>>)

  ghost predicate Represents(t: Tables, s: State, maxCustomerID: int) {
    && t.references == s.references && t.synthetic == s.synthetic
    && t.next == maxCustomerID + 1 + |s.synthetic|
    && OwnersAgree(t.owners, s.owner)
    && SeenAgrees(t.seen, s.references)
    && IndexesAgree(t.indexes, maxCustomerID, |s.synthetic|)
  }

  lemma EmptyRepresented(maxCustomerID: int)
    ensures Represents(Tables(map[], map[], map[], maxCustomerID + 1, [], map[]), EMPTY, maxCustomerID)
  {
  }

  /** Gives the row a customer: the one candidate, or the next unused id. */
  method ChooseCustomer(t: Tables, row: Row, candidates: set<int>, ghost s: State, maxCustomerID: int)
    returns (customer: int, next: int, synthetic: seq<Synthetic>, indexes: map<int, nat>)
    requires Represents(t, s, maxCustomerID) && maxCustomerID >= 0
    requires |candidates| <= 1 && forall c :: c in candidates ==> c > 0
    ensures customer == Assign(candidates, maxCustomerID + 1 + |s.synthetic|) > 0
    ensures synthetic ==
            if candidates == {} then s.synthetic + [Synthetic(customer, row.createdAt, row.createdAt)]
            else Touch(s.synthetic, customer - maxCustomerID - 1, row.createdAt)
    ensures next == maxCustomerID + 1 + |synthetic| && IndexesAgree(indexes, maxCustomerID, |synthetic|)
  {
    hide Of, Key, KeysOf, OwnersAgree, SeenAgrees;
    AssignIsCandidate(candidates, t.next);
    customer, next, synthetic, indexes := 0, t.next, t.synthetic, t.indexes;
    if candidates != {} {
      customer := Sets.Any(candidates);
    }
    if customer == 0 {
      customer := next;
      next := next + 1;
      indexes := indexes[customer := |synthetic|];
      synthetic := synthetic + [Synthetic(customer, row.createdAt, row.createdAt)];
    } else if customer in indexes && row.createdAt > synthetic[indexes[customer]].updatedAt {
      synthetic := synthetic[indexes[customer] := synthetic[indexes[customer]].(updatedAt := row.createdAt)];
    }
  }

  /** The loop body: refuses the row exactly when the specification's step does. */
  method PlaceRow(t: Tables, row: Row, ghost s: State, maxCustomerID: int) returns (result: Result<(Tables, int), string>)
    requires Represents(t, s, maxCustomerID) && maxCustomerID >= 0
    ensures result.Ok? <==> Step(s, row, maxCustomerID).Some?
    ensures result.Ok? ==>
              var s' := Step(s, row, maxCustomerID).value;
              Represents(result.value.0, s', maxCustomerID) && s'.chosen == s.chosen + [result.value.1]
  {
    hide Of, Key, KeysOf, OwnersAgree, IndexesAgree, Merge, CandidateCustomers, Touch, Own, Assign, Step, Represents, SeenAgrees;
    StepAccepted(s, row, maxCustomerID);
    RepresentedTables(t, s, maxCustomerID);
    if row.matchCount > 1 || (row.matchCount == 1 && row.existingCustomer < 1) {
      return Err("identity mapping count");
    }
    var references := QuestionnaireReferences(row);
    OfShape(row);
    var candidates := CollectCandidates(t.owners, s.owner, row, references);
    assert candidates == CandidateCustomers(s.owner, row) by { CandidatesAre(s.owner, row); }
    if |candidates| > 1 {
      return Err("conflicting subject references");
    }
    CustomerPositive(s, t.owners, row, maxCustomerID);
    var customer, next, synthetic, indexes := ChooseCustomer(t, row, candidates, s, maxCustomerID);
    var seenBefore := if customer in t.seen then t.seen[customer] else {};
    SeenBefore(t, s, customer, seenBefore, maxCustomerID);
    var owners, seen, listed := RecordReferences(t.owners, seenBefore, Listed(t.references, customer), references, customer);
    OwnersAfter(t.owners, s.owner, references, customer, owners);
    var after := Tables(owners, t.seen[customer := seen], indexes, next, synthetic, t.references[customer := listed]);
    Placed(t, row, s, maxCustomerID, after, customer);
    result := Ok((after, customer));
  }

  lemma StepAccepted(s: State, row: Row, maxCustomerID: int)
    ensures Step(s, row, maxCustomerID).Some? <==> row.matchCount <= 1 && (row.matchCount == 1 ==> row.existingCustomer >= 1) && |CandidateCustomers(s.owner, row)| <= 1
    ensures ValidMatch(row) <==> row.matchCount <= 1 && (row.matchCount == 1 ==> row.existingCustomer >= 1)
  {
    hide CandidateCustomers, Of, Own, Touch, Merge;
  }

  lemma RepresentedTables(t: Tables, s: State, maxCustomerID: int)
    requires Represents(t, s, maxCustomerID)
    ensures OwnersAgree(t.owners, s.owner) && t.references == s.references
  {
    hide OwnersAgree;
  }

  lemma SeenBefore(t: Tables, s: State, customer: int, seenBefore: set<string>, maxCustomerID: int)
    requires Represents(t, s, maxCustomerID) && seenBefore == if customer in t.seen then t.seen[customer] else {}
    ensures seenBefore == KeysOf(Listed(t.references, customer)) && forall r :: r in Listed(t.references, customer) ==> r.entity in ENTITIES
  {
    hide KeysOf, OwnersAgree, IndexesAgree;
    NoKeys();
  }

  /** The tables after a row represent the state after the row's step. */
  lemma Placed(t: Tables, row: Row, s: State, maxCustomerID: int, after: Tables, customer: int)
    requires Represents(t, s, maxCustomerID) && Step(s, row, maxCustomerID).Some?
    requires customer == Assign(CandidateCustomers(s.owner, row), maxCustomerID + 1 + |s.synthetic|)
    requires after.synthetic ==
             if CandidateCustomers(s.owner, row) == {} then s.synthetic + [Synthetic(customer, row.createdAt, row.createdAt)]
             else Touch(s.synthetic, customer - maxCustomerID - 1, row.createdAt)
    requires after.next == maxCustomerID + 1 + |after.synthetic| && IndexesAgree(after.indexes, maxCustomerID, |after.synthetic|)
    requires OwnersAgree(after.owners, Own(s.owner, Of(row), customer))
    requires after.references == t.references[customer := Merge(Listed(t.references, customer), Of(row))]
    requires after.seen == t.seen[customer := KeysOf(after.references[customer])]
    requires forall r :: r in after.references[customer] ==> r.entity in ENTITIES
    ensures Represents(after, Step(s, row, maxCustomerID).value, maxCustomerID)
    ensures Step(s, row, maxCustomerID).value.chosen == s.chosen + [customer]
  {
    hide CandidateCustomers, Of, Own, Touch, Merge, Assign, KeysOf, OwnersAgree, IndexesAgree;
  }

  lemma CandidatesAre(owner: map<Reference, int>, row: Row)
    ensures CandidateCustomers(owner, row) == (if Matched(row) then {row.existingCustomer} else {}) + Owners(owner, Of(row))
  {
  }

  /** resolveQuestionnaireRows: accepts exactly the lists the specification accepts, with its result. */
  method ResolveQuestionnaireRows(rows: seq<Row>, maxCustomerID: int) returns (result: Result<Subjects, string>)
    requires maxCustomerID >= 0
    ensures result.Ok? <==> Resolves(rows, maxCustomerID)
    ensures result.Ok? ==> |Outcome(rows, maxCustomerID).chosen| == |rows| && result.value == SubjectsOf(rows, maxCustomerID)
  {
    hide Of, Represents, Step;
    var bySubmission: map<int, int>, byOrder: map<int, int> := map[], map[];
    var t := Tables(map[], map[], map[], maxCustomerID + 1, [], map[]);
    EmptyRepresented(maxCustomerID);
    ghost var s := EMPTY;
    for n := 0 to |rows|
      invariant Resolve(rows, n, maxCustomerID) == Some(s) && |s.chosen| == n
      invariant Represents(t, s, maxCustomerID)
      invariant bySubmission == Keyed(rows, s.chosen, n, false) && byOrder == Keyed(rows, s.chosen, n, true)
    {
      var placed := PlaceRow(t, rows[n], s, maxCustomerID);
      if placed.Err? {
        if Resolves(rows, maxCustomerID) { ResolvesPrefix(rows, maxCustomerID, n + 1, |rows|); }
        return Err(placed.error);
      }
      ghost var s' := Step(s, rows[n], maxCustomerID).value;
      var customer := placed.value.1;
      KeyedStable(rows, s.chosen, s'.chosen, n, false);
      KeyedStable(rows, s.chosen, s'.chosen, n, true);
      if IsOrder(rows[n]) {
        byOrder := byOrder[rows[n].submissionID := customer];
      } else {
        bySubmission := bySubmission[rows[n].submissionID := customer];
      }
      t, s := placed.value.0, s';
    }
    assert t.references == s.references && t.synthetic == s.synthetic by { RepresentedParts(t, s, maxCustomerID); }
    result := Ok(Subjects(bySubmission, byOrder, t.references, t.synthetic));
  }

  lemma RepresentedParts(t: Tables, s: State, maxCustomerID: int)
    requires Represents(t, s, maxCustomerID)
    ensures t.references == s.references && t.synthetic == s.synthetic
  {
  }

  lemma {:induction false} KeyedStable(rows: seq<Row>, chosen: seq<int>, more: seq<int>, n: nat, orders: bool)
    requires n <= |rows| && n <= |chosen| <= |more| && forall i :: 0 <= i < n ==> chosen[i] == more[i]
    ensures Keyed(rows, chosen, n, orders) == Keyed(rows, more, n, orders)
  {
    if n > 0 { KeyedStable(rows, chosen, more, n - 1, orders); }
  }
}
