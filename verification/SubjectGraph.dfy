/** The graph the importer's clustering is judged against: rows and existing
    customers are nodes; rows sharing a reference are joined, and a row is joined
    to the one existing customer it matches. It does not mention the algorithm. */
module SubjectGraph {
  import opened References

  datatype Node = RowNode(row: Row) | CustomerNode(id: int)

  predicate SharesReference(a: Row, b: Row) {
    exists r :: r in Of(a) && r in Of(b)
  }

  predicate Matches(row: Row, id: int) {
    Matched(row) && row.existingCustomer == id
  }

  ghost predicate Adjacent(rows: set<Row>, a: Node, b: Node) {
    match a
    case RowNode(r) =>
      && r in rows
      && (match b case RowNode(s) => s in rows && SharesReference(r, s) case CustomerNode(id) => Matches(r, id))
    case CustomerNode(id) => b.RowNode? && b.row in rows && Matches(b.row, id)
  }

  ghost predicate IsPath(rows: set<Row>, p: seq<Node>) {
    |p| > 0 && forall i :: 0 < i < |p| ==> Adjacent(rows, p[i - 1], p[i])
  }

  ghost predicate Joins(rows: set<Row>, p: seq<Node>, a: Node, b: Node) {
    IsPath(rows, p) && p[0] == a && p[|p| - 1] == b
  }

  /** A chain of shared references and shared existing customers leads from a to b. */
  ghost predicate Linked(rows: set<Row>, a: Node, b: Node) {
    exists p :: Joins(rows, p, a, b)
  }

  /** The first n rows, as a set. */
  function FirstRows(rows: seq<Row>, n: nat): set<Row>
    requires n <= |rows|
  {
    set i | 0 <= i < n :: rows[i]
  }

  lemma FirstRowsExtended(rows: seq<Row>, row: Row, k: nat)
    requires k <= |rows|
    ensures FirstRows(rows + [row], k) == FirstRows(rows, k)
    ensures FirstRows(rows + [row], |rows| + 1) == FirstRows(rows, |rows|) + {row}
  {
    var longer := rows + [row];
    assert forall i :: 0 <= i < |rows| ==> longer[i] == rows[i];
    assert longer[|rows|] == row;
    forall x | x in FirstRows(rows, |rows|) + {row} ensures x in FirstRows(longer, |longer|) {
      if x == row {
        assert longer[|rows|] == x;
      } else {
        var i :| 0 <= i < |rows| && rows[i] == x;
        assert longer[i] == x;
      }
    }
    forall x | x in FirstRows(rows, k) ensures x in FirstRows(longer, k) {
      var i :| 0 <= i < k && rows[i] == x;
      assert longer[i] == x;
    }
  }

  lemma LinkedToItself(rows: set<Row>, a: Node)
    ensures Linked(rows, a, a)
  {
    assert Joins(rows, [a], a, a);
  }

  lemma AdjacentLinked(rows: set<Row>, a: Node, b: Node)
    requires Adjacent(rows, a, b)
    ensures Linked(rows, a, b)
  {
    assert Joins(rows, [a, b], a, b);
  }

  lemma LinkedTransitive(rows: set<Row>, a: Node, b: Node, c: Node)
    requires Linked(rows, a, b) && Linked(rows, b, c)
    ensures Linked(rows, a, c)
  {
    var p :| Joins(rows, p, a, b);
    var q :| Joins(rows, q, b, c);
    var pq := p + q[1..];
    forall i | 0 < i < |pq| ensures Adjacent(rows, pq[i - 1], pq[i]) {
      if i >= |p| {
        assert pq[i] == q[i - |p| + 1] && pq[i - 1] == q[i - |p|];
      }
    }
    assert Joins(rows, pq, a, c);
  }

  lemma LinkedSymmetric(rows: set<Row>, a: Node, b: Node)
    requires Linked(rows, a, b)
    ensures Linked(rows, b, a)
  {
    var p :| Joins(rows, p, a, b);
    var q := seq(|p|, i requires 0 <= i < |p| => p[|p| - 1 - i]);
    forall i | 0 < i < |q| ensures Adjacent(rows, q[i - 1], q[i]) {
      assert Adjacent(rows, p[|p| - 1 - i], p[|p| - i]);
    }
    assert Joins(rows, q, b, a);
  }

  lemma LinkedMonotone(rows: set<Row>, more: set<Row>, a: Node, b: Node)
    requires rows <= more && Linked(rows, a, b)
    ensures Linked(more, a, b)
  {
    var p :| Joins(rows, p, a, b);
    assert forall i :: 0 < i < |p| && Adjacent(rows, p[i - 1], p[i]) ==> Adjacent(more, p[i - 1], p[i]);
    assert Joins(more, p, a, b);
  }

  /** A labelling of nodes that never changes across an edge never changes along a chain. */
  lemma {:induction false} LabelAlongPath(rows: set<Row>, p: seq<Node>, tag: Node -> int)
    requires IsPath(rows, p)
    requires forall a, b :: Adjacent(rows, a, b) ==> tag(a) == tag(b)
    ensures tag(p[0]) == tag(p[|p| - 1])
    decreases |p|
  {
    if |p| > 1 {
      var front := p[..|p| - 1];
      forall i | 0 < i < |front| ensures Adjacent(rows, front[i - 1], front[i]) {
        assert Adjacent(rows, p[i - 1], p[i]);
      }
      LabelAlongPath(rows, front, tag);
      assert Adjacent(rows, p[|p| - 2], p[|p| - 1]);
    }
  }
}
