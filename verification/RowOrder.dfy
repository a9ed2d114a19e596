/** The pass depends on row order, so this module says what no order can change: a set of
    rows can be resolved in some order exactly when its matches are valid and no component
    holds two different existing customers. */
module RowOrder {
  import opened References
  import opened SubjectGraph
  import opened Resolution
  import opened Components
  import Sets

  ghost predicate Lists(rows: seq<Row>, s: set<Row>) {
    |rows| == |s| && FirstRows(rows, |rows|) == s
  }

  ghost predicate OneCustomerPerComponent(s: set<Row>) {
    forall c, d :: Linked(s, CustomerNode(c), CustomerNode(d)) ==> c == d
  }

  predicate InRange(s: set<Row>, maxCustomerID: int) {
    maxCustomerID >= 0 && forall r :: r in s && Matched(r) ==> r.existingCustomer <= maxCustomerID
  }

  predicate AllValid(s: set<Row>) {
    forall r :: r in s ==> ValidMatch(r)
  }

  /** No order of the rows can merge two existing customers. */
  lemma ResolvedMeansOneCustomer(rows: seq<Row>, maxCustomerID: int, c: int, d: int)
    requires MatchesInRange(rows, maxCustomerID) && Resolves(rows, maxCustomerID)
    requires c <= maxCustomerID && d <= maxCustomerID
    requires Linked(FirstRows(rows, |rows|), CustomerNode(c), CustomerNode(d))
    ensures c == d
  {
    hide Of, Linked, Resolve;
    PassComputesComponents(rows, |rows|, maxCustomerID, CustomerNode(c), CustomerNode(d));
  }

  /** A customer node joined to anything else is matched by a row. */
  lemma LinkedCustomerInRange(s: set<Row>, maxCustomerID: int, c: int, b: Node)
    requires InRange(s, maxCustomerID) && Linked(s, CustomerNode(c), b) && b != CustomerNode(c)
    ensures c <= maxCustomerID
  {
    hide Of;
    var p :| Joins(s, p, CustomerNode(c), b);
    assert Adjacent(s, p[0], p[1]);
  }

  // ----- Building a good order

  predicate Active(placed: set<Row>, a: Node) {
    a.CustomerNode? || a.row in placed
  }

  /** Nodes already placed are joined by placed rows whenever they are joined at all. */
  ghost predicate Settled(s: set<Row>, placed: set<Row>) {
    forall a, b :: Active(placed, a) && Active(placed, b) && Linked(s, a, b) ==> Linked(placed, a, b)
  }

  lemma SettledMeansNoBridge(s: set<Row>, placed: set<Row>, r: Row)
    requires placed <= s && r in s && Settled(s, placed)
    ensures !Bridges(placed, r)
  {
    hide Of, Linked, SharesReference;
    forall a, b | Touches(placed, r, a) && Touches(placed, r, b) ensures Linked(placed, a, b) {
      TouchedIsAdjacent(s, placed, r, a);
      TouchedIsAdjacent(s, placed, r, b);
      AdjacentLinked(s, RowNode(r), a);
      AdjacentLinked(s, RowNode(r), b);
      LinkedSymmetric(s, RowNode(r), a);
      LinkedTransitive(s, a, RowNode(r), b);
      assert Active(placed, a) && Active(placed, b);
    }
  }

  lemma TouchedIsAdjacent(s: set<Row>, placed: set<Row>, r: Row, a: Node)
    requires placed <= s && r in s && Touches(placed, r, a)
    ensures Adjacent(s, RowNode(r), a)
  {
    hide Of;
  }

  /** A chain that leaves the active nodes does so along one edge. */
  lemma {:induction false} LeavesActive(s: set<Row>, placed: set<Row>, p: seq<Node>) returns (a: Node, r: Row)
    requires IsPath(s, p) && Active(placed, p[0]) && !Active(placed, p[|p| - 1])
    ensures Active(placed, a) && r in s && r !in placed && Adjacent(s, a, RowNode(r))
  {
    hide Of;
    var last := |p| - 1;
    assert Adjacent(s, p[last - 1], p[last]);
    if Active(placed, p[last - 1]) {
      a, r := p[last - 1], p[last].row;
    } else {
      var front := p[..last];
      forall i | 0 < i < |front| ensures Adjacent(s, front[i - 1], front[i]) {
        assert Adjacent(s, p[i - 1], p[i]);
      }
      a, r := LeavesActive(s, placed, front);
    }
  }

  /** The next row: one next to an active node if there is such a row, otherwise any row. */
  lemma NextRow(s: set<Row>, placed: set<Row>) returns (r: Row)
    requires placed < s
    ensures r in s && r !in placed
    ensures
      || (exists m :: Active(placed, m) && Adjacent(s, m, RowNode(r)))
      || (forall a :: Active(placed, a) ==> !Linked(s, a, RowNode(r)))
  {
    hide Of, SharesReference;
    if m, x :| x in s && x !in placed && Active(placed, m) && Adjacent(s, m, RowNode(x)) {
      r := x;
    } else {
      assert s == placed + (s - placed);
      r := Sets.Pick(s - placed);
      forall a | Active(placed, a) ensures !Linked(s, a, RowNode(r)) {
        if p :| Joins(s, p, a, RowNode(r)) {
          var b, y := LeavesActive(s, placed, p);
          assert false;
        }
      }
    }
  }

  lemma NewlyActiveLinked(s: set<Row>, placed: set<Row>, r: Row, m: Node, a: Node)
    requires placed <= s && r in s && Settled(s, placed) && Active(placed, m) && Adjacent(s, m, RowNode(r))
    requires Active(placed, a) && Linked(s, a, RowNode(r))
    ensures Linked(placed + {r}, a, RowNode(r))
  {
    hide Of, Linked;
    AdjacentLinked(s, m, RowNode(r));
    LinkedSymmetric(s, m, RowNode(r));
    LinkedTransitive(s, a, RowNode(r), m);
    LinkedMonotone(placed, placed + {r}, a, m);
    AdjacentLinked(placed + {r}, m, RowNode(r));
    LinkedTransitive(placed + {r}, a, m, RowNode(r));
  }

  lemma SettledStep(s: set<Row>, placed: set<Row>, r: Row)
    requires placed < s && r in s && Settled(s, placed)
    requires
      || (exists m :: Active(placed, m) && Adjacent(s, m, RowNode(r)))
      || (forall a :: Active(placed, a) ==> !Linked(s, a, RowNode(r)))
    ensures Settled(s, placed + {r})
  {
    hide Of, Linked, Adjacent;
    var more := placed + {r};
    forall a, b | Active(more, a) && Active(more, b) && Linked(s, a, b) ensures Linked(more, a, b) {
      if a == b {
        LinkedToItself(more, a);
      } else if Active(placed, a) && Active(placed, b) {
        LinkedMonotone(placed, more, a, b);
      } else if Active(placed, a) {
        var m :| Active(placed, m) && Adjacent(s, m, RowNode(r));
        NewlyActiveLinked(s, placed, r, m, a);
      } else {
        LinkedSymmetric(s, a, b);
        var m :| Active(placed, m) && Adjacent(s, m, RowNode(r));
        NewlyActiveLinked(s, placed, r, m, b);
        LinkedSymmetric(more, b, a);
      }
    }
  }

  lemma MergeableMore(placed: seq<Row>, r: Row)
    requires Mergeable(placed, |placed|) && ValidMatch(r) && !Bridges(FirstRows(placed, |placed|), r)
    ensures Mergeable(placed + [r], |placed| + 1)
  {
    hide Bridges, FirstRows;
    var longer := placed + [r];
    forall k | 0 <= k <= |placed| ensures ValidMatch(longer[k]) && !Bridges(FirstRows(longer, k), longer[k]) {
      FirstRowsExtended(placed, r, k);
      assert k < |placed| ==> ValidMatch(placed[k]) && !Bridges(FirstRows(placed, k), placed[k]);
    }
  }

  lemma PlaceOne(s: set<Row>, placed: seq<Row>, r: Row)
    requires FirstRows(placed, |placed|) <= s && |FirstRows(placed, |placed|)| == |placed|
    requires r in s && r !in FirstRows(placed, |placed|)
    ensures FirstRows(placed + [r], |placed| + 1) == FirstRows(placed, |placed|) + {r}
    ensures FirstRows(placed + [r], |placed| + 1) <= s && |FirstRows(placed + [r], |placed| + 1)| == |placed| + 1 <= |s|
  {
    hide FirstRows;
    FirstRowsExtended(placed, r, |placed|);
    Sets.SubsetSize(FirstRows(placed + [r], |placed| + 1), s);
  }

  lemma {:induction false} GoodOrder(s: set<Row>, placed: seq<Row>) returns (rows: seq<Row>)
    requires AllValid(s) && FirstRows(placed, |placed|) <= s && |FirstRows(placed, |placed|)| == |placed|
    requires Settled(s, FirstRows(placed, |placed|)) && Mergeable(placed, |placed|)
    ensures Lists(rows, s) && Mergeable(rows, |rows|)
    decreases |s| - |placed|
  {
    hide Of, Settled, Mergeable, Adjacent, Active, Linked, FirstRows;
    var done := FirstRows(placed, |placed|);
    if done == s {
      rows := placed;
    } else {
      var r := NextRow(s, done);
      SettledMeansNoBridge(s, done, r);
      SettledStep(s, done, r);
      MergeableMore(placed, r);
      PlaceOne(s, placed, r);
      rows := GoodOrder(s, placed + [r]);
    }
  }

  lemma NothingPlaced(s: set<Row>)
    requires OneCustomerPerComponent(s)
    ensures Settled(s, {})
  {
    hide Of, Linked;
    forall a, b | Active({}, a) && Active({}, b) && Linked(s, a, b) ensures Linked({}, a, b) {
      assert a == CustomerNode(a.id) && b == CustomerNode(b.id);
      LinkedToItself({}, a);
    }
  }

  /** Main result: some order of the rows resolves exactly when every match is valid and no
      component holds two existing customers; so such a component is refused in every order. */
  lemma SomeOrderResolvesIff(s: set<Row>, maxCustomerID: int)
    requires InRange(s, maxCustomerID)
    ensures (exists rows :: Lists(rows, s) && Resolves(rows, maxCustomerID)) <==> AllValid(s) && OneCustomerPerComponent(s)
  {
    hide Of, Linked, Settled, Bridges, Resolve;
    if rows :| Lists(rows, s) && Resolves(rows, maxCustomerID) {
      SucceedsIffNoBridge(rows, |rows|, maxCustomerID);
      forall c, d | Linked(s, CustomerNode(c), CustomerNode(d)) ensures c == d {
        if c != d {
          LinkedCustomerInRange(s, maxCustomerID, c, CustomerNode(d));
          LinkedSymmetric(s, CustomerNode(c), CustomerNode(d));
          LinkedCustomerInRange(s, maxCustomerID, d, CustomerNode(c));
          ResolvedMeansOneCustomer(rows, maxCustomerID, c, d);
        }
      }
    }
    if AllValid(s) && OneCustomerPerComponent(s) {
      NothingPlaced(s);
      assert FirstRows([], 0) == {};
      var rows := GoodOrder(s, []);
      SucceedsIffNoBridge(rows, |rows|, maxCustomerID);
    }
  }

  // ----- When every order will do

  /** The rows among two nodes. */
  function Among(a: Node, b: Node): set<Row> {
    (if a.RowNode? then {a.row} else {}) + (if b.RowNode? then {b.row} else {})
  }

  /** Whatever a row touches was joined without it, by the touched rows alone. */
  ghost predicate Tight(s: set<Row>) {
    forall r, a, b :: r in s && Touches(s - {r}, r, a) && Touches(s - {r}, r, b) ==> Linked(Among(a, b), a, b)
  }

  /** Any beginning can be continued to a list of all rows. */
  lemma {:induction false} Continued(s: set<Row>, placed: seq<Row>) returns (rows: seq<Row>)
    requires FirstRows(placed, |placed|) <= s && |FirstRows(placed, |placed|)| == |placed|
    ensures Lists(rows, s) && |placed| <= |rows| && rows[..|placed|] == placed
    decreases |s| - |placed|
  {
    hide FirstRows;
    var done := FirstRows(placed, |placed|);
    if done == s {
      rows := placed;
    } else {
      assert s == done + (s - done);
      var r := Sets.Pick(s - done);
      PlaceOne(s, placed, r);
      rows := Continued(s, placed + [r]);
      assert rows[..|placed|] == rows[..|placed| + 1][..|placed|];
    }
  }

  lemma NoneFirst(placed: seq<Row>)
    ensures placed == [] ==> FirstRows(placed, |placed|) == {}
  {
  }

  lemma PrefixRows(rows: seq<Row>, n: nat)
    requires n <= |rows|
    ensures FirstRows(rows, n) == FirstRows(rows[..n], n)
  {
    assert forall i :: 0 <= i < n ==> rows[..n][i] == rows[i];
  }

  /** A list of the rows of a finite set, each once. */
  lemma ListOf(s: set<Row>) returns (rows: seq<Row>)
    ensures Lists(rows, s)
  {
    NoneFirst([]);
    rows := Continued(s, []);
  }

  /** Two nodes a row touches without their being joined by the touched rows alone: placing those
      rows first and the row next makes it a bridge. */
  lemma LooseOrder(s: set<Row>, r: Row, a: Node, b: Node) returns (rows: seq<Row>)
    requires r in s && Touches(s - {r}, r, a) && Touches(s - {r}, r, b) && !Linked(Among(a, b), a, b)
    ensures Lists(rows, s) && !Mergeable(rows, |rows|)
  {
    hide SharesReference, Linked, FirstRows;
    var early := Among(a, b);
    var front := ListOf(early);
    PlaceOne(s, front, r);
    rows := Continued(s, front + [r]);
    var n := |front|;
    assert rows[n] == rows[..n + 1][n] == r && rows[..n] == rows[..n + 1][..n] == front;
    PrefixRows(rows, n);
    assert FirstRows(rows, n) == early;
    assert Touches(early, r, a) && Touches(early, r, b);
    assert Bridges(FirstRows(rows, n), rows[n]);
  }

  lemma EarlierRows(rows: seq<Row>, s: set<Row>, k: nat)
    requires Lists(rows, s) && k < |rows|
    ensures rows[k] in s && FirstRows(rows, k) <= s - {rows[k]}
  {
    Sets.MembersSize(rows);
    assert Sets.Members(rows) == FirstRows(rows, |rows|);
  }

  lemma TightMeansMergeable(rows: seq<Row>, s: set<Row>)
    requires Lists(rows, s) && AllValid(s) && Tight(s)
    ensures Mergeable(rows, |rows|)
  {
    hide SharesReference, Linked, FirstRows, Lists;
    forall k | 0 <= k < |rows| ensures ValidMatch(rows[k]) && !Bridges(FirstRows(rows, k), rows[k]) {
      EarlierRows(rows, s, k);
      var r, earlier := rows[k], FirstRows(rows, k);
      forall a, b | Touches(earlier, r, a) && Touches(earlier, r, b) ensures Linked(earlier, a, b) {
        assert Touches(s - {r}, r, a) && Touches(s - {r}, r, b);
        LinkedMonotone(Among(a, b), earlier, a, b);
      }
    }
  }

  lemma InvalidStops(rows: seq<Row>, s: set<Row>)
    requires Lists(rows, s) && Mergeable(rows, |rows|)
    ensures AllValid(s)
  {
    hide Bridges;
    forall r | r in s ensures ValidMatch(r) {
      var k :| 0 <= k < |rows| && rows[k] == r;
      assert ValidMatch(rows[k]);
    }
  }

  lemma InRangeRows(rows: seq<Row>, s: set<Row>, maxCustomerID: int)
    requires Lists(rows, s) && InRange(s, maxCustomerID)
    ensures MatchesInRange(rows, maxCustomerID)
  {
    forall i | 0 <= i < |rows| && Matched(rows[i]) ensures rows[i].existingCustomer <= maxCustomerID {
      assert rows[i] in FirstRows(rows, |rows|);
    }
  }

  /** Main result: every order of the rows resolves exactly when every match is valid and whatever a
      row touches is joined by the touched rows alone. */
  lemma EveryOrderResolvesIff(s: set<Row>, maxCustomerID: int)
    requires InRange(s, maxCustomerID)
    ensures (forall rows :: Lists(rows, s) ==> Resolves(rows, maxCustomerID)) <==> AllValid(s) && Tight(s)
  {
    hide Mergeable, Lists, Resolve, InRange, Linked, Touches, Among;
    forall rows | Lists(rows, s) ensures Resolves(rows, maxCustomerID) <==> Mergeable(rows, |rows|) {
      InRangeRows(rows, s, maxCustomerID);
      SucceedsIffNoBridge(rows, |rows|, maxCustomerID);
    }
    if AllValid(s) && Tight(s) {
      forall rows | Lists(rows, s) { TightMeansMergeable(rows, s); }
    } else if !AllValid(s) {
      var rows := ListOf(s);
      if Mergeable(rows, |rows|) { InvalidStops(rows, s); }
    } else {
      var r, a, b :| r in s && Touches(s - {r}, r, a) && Touches(s - {r}, r, b) && !Linked(Among(a, b), a, b);
      var rows := LooseOrder(s, r, a, b);
    }
  }

  // ----- Two small inputs

  /** A submission known only by its union id, and one matched to customer 1 with the same union id. */
  const UNMATCHED := Row("questionnaire", 1, 0, 0, "u", "", "", "", 0)
  const MATCHED := Row("questionnaire", 2, 1, 1, "u", "", "", "p", 0)

  lemma TheyShareAReference()
    ensures SharesReference(UNMATCHED, MATCHED) && SharesReference(MATCHED, UNMATCHED)
  {
    var r := Reference("unionid", "u");
    PresentElements(Candidates(UNMATCHED), r);
    PresentElements(Candidates(MATCHED), r);
    assert r in Of(UNMATCHED) && r in Of(MATCHED);
  }

  /** The same two rows resolve in one order and are refused in the other. */
  lemma OrderMatters()
    ensures Resolves([MATCHED, UNMATCHED], 1) && !Resolves([UNMATCHED, MATCHED], 1)
  {
    hide Of, Resolve;
    TheyShareAReference();
    var good, bad := [MATCHED, UNMATCHED], [UNMATCHED, MATCHED];
    SucceedsIffNoBridge(good, 2, 1);
    SucceedsIffNoBridge(bad, 2, 1);
    assert FirstRows(good, 0) == FirstRows(bad, 0) == {};
    assert FirstRows(good, 1) == {MATCHED} && FirstRows(bad, 1) == {UNMATCHED};
    forall a, b | Touches({}, MATCHED, a) && Touches({}, MATCHED, b) ensures Linked({}, a, b) {
      LinkedToItself({}, a);
    }
    forall a, b | Touches({MATCHED}, UNMATCHED, a) && Touches({MATCHED}, UNMATCHED, b) ensures Linked({MATCHED}, a, b) {
      LinkedToItself({MATCHED}, a);
    }
    var x, y := RowNode(UNMATCHED), CustomerNode(1);
    assert Touches({UNMATCHED}, MATCHED, x) && Touches({UNMATCHED}, MATCHED, y);
    forall p ensures !Joins({UNMATCHED}, p, x, y) {
      if |p| > 1 {
        assert p[|p| - 1] == y ==> !Adjacent({UNMATCHED}, p[|p| - 2], p[|p| - 1]);
      }
    }
    assert Bridges({UNMATCHED}, MATCHED);
  }
}
