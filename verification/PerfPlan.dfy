/** Query plans as evidence: walking a plan tree, sorting and removing repeats
    (walkPlan, uniqueStrings and decodePlanEvidence in cmd/aicrm-contact-perf/main.go). */
module PerfPlan {
  import Sorting
  import Text

  /** A node of EXPLAIN's JSON; block counts that are not numbers read as negative. */
  datatype PlanNode = PlanNode(kind: string, relation: string, hit: int, read: int, children: seq<PlanNode>)

  predicate ForbiddenScan(n: PlanNode) {
    n.kind == "Seq Scan" && n.relation in {"customers", "customer_tags"}
  }

  // ----- What a walk collects, children in order

  function Kinds(n: PlanNode): seq<string> {
    (if n.kind != "" then [n.kind] else []) + KindsOf(n, |n.children|)
  }

  function KindsOf(n: PlanNode, k: nat): seq<string>
    requires k <= |n.children|
    decreases n, 0, k
  {
    if k == 0 then [] else KindsOf(n, k - 1) + Kinds(n.children[k - 1])
  }

  function Scans(n: PlanNode): seq<string> {
    (if ForbiddenScan(n) then [n.relation] else []) + ScansOf(n, |n.children|)
  }

  function ScansOf(n: PlanNode, k: nat): seq<string>
    requires k <= |n.children|
    decreases n, 0, k
  {
    if k == 0 then [] else ScansOf(n, k - 1) + Scans(n.children[k - 1])
  }

  function Clamp(i: int): nat {
    if i < 0 then 0 else i
  }

  /** Shared blocks over the whole tree, by one of the two counters. */
  function Blocks(n: PlanNode, hits: bool): nat
    decreases n
  {
    Clamp(if hits then n.hit else n.read) + BlocksOf(n, |n.children|, hits)
  }

  function BlocksOf(n: PlanNode, k: nat, hits: bool): nat
    requires k <= |n.children|
    decreases n, 0, k
  {
    if k == 0 then 0 else BlocksOf(n, k - 1, hits) + Blocks(n.children[k - 1], hits)
  }

  class Evidence {
    var nodeTypes: seq<string>
    var forbidden: seq<string>
    var hit: int
    var read: int

    constructor ()
      ensures nodeTypes == [] && forbidden == [] && hit == 0 && read == 0
    {
      nodeTypes, forbidden, hit, read := [], [], 0, 0;
    }
  }

  /** What a node itself adds. */
  method Note(n: PlanNode, evidence: Evidence)
    modifies evidence
    ensures evidence.nodeTypes == old(evidence.nodeTypes) + if n.kind != "" then [n.kind] else []
    ensures evidence.forbidden == old(evidence.forbidden) + if ForbiddenScan(n) then [n.relation] else []
    ensures evidence.hit == old(evidence.hit) + Clamp(n.hit) && evidence.read == old(evidence.read) + Clamp(n.read)
  {
    if n.kind != "" { evidence.nodeTypes := evidence.nodeTypes + [n.kind]; }
    if n.kind == "Seq Scan" && (n.relation == "customers" || n.relation == "customer_tags") {
      evidence.forbidden := evidence.forbidden + [n.relation];
    }
    evidence.hit := evidence.hit + Clamp(n.hit);
    evidence.read := evidence.read + Clamp(n.read);
  }

  method WalkPlan(n: PlanNode, evidence: Evidence)
    modifies evidence
    ensures evidence.nodeTypes == old(evidence.nodeTypes) + Kinds(n)
    ensures evidence.forbidden == old(evidence.forbidden) + Scans(n)
    ensures evidence.hit == old(evidence.hit) + Blocks(n, true) && evidence.read == old(evidence.read) + Blocks(n, false)
    decreases n
  {
    hide ForbiddenScan, Clamp;
    Note(n, evidence);
    ghost var types, scans, hit, read := evidence.nodeTypes, evidence.forbidden, evidence.hit, evidence.read;
    for i := 0 to |n.children|
      invariant evidence.nodeTypes == types + KindsOf(n, i) && evidence.forbidden == scans + ScansOf(n, i)
      invariant evidence.hit == hit + BlocksOf(n, i, true) && evidence.read == read + BlocksOf(n, i, false)
    {
      hide Kinds, Scans, Blocks;
      WalkPlan(n.children[i], evidence);
    }
  }

  // ----- Nodes of a tree

  predicate InTree(d: PlanNode, n: PlanNode) {
    d == n || exists i :: 0 <= i < |n.children| && InTree(d, n.children[i])
  }

  lemma {:induction false} ScansFound(n: PlanNode)
    ensures Scans(n) == [] <==> forall d :: InTree(d, n) ==> !ForbiddenScan(d)
    decreases n
  {
    ScansFoundBelow(n, |n.children|);
    if Scans(n) == [] {
      forall d | InTree(d, n) ensures !ForbiddenScan(d) {}
    } else if !ForbiddenScan(n) {
      var i :| 0 <= i < |n.children| && Scans(n.children[i]) != [];
      ScansFound(n.children[i]);
      var d :| InTree(d, n.children[i]) && ForbiddenScan(d);
      assert InTree(d, n);
    } else {
      assert InTree(n, n);
    }
  }

  lemma {:induction false} ScansFoundBelow(n: PlanNode, k: nat)
    requires k <= |n.children|
    ensures ScansOf(n, k) == [] <==> forall i :: 0 <= i < k ==> Scans(n.children[i]) == []
    ensures ScansOf(n, k) == [] ==> forall i, d :: 0 <= i < k && InTree(d, n.children[i]) ==> !ForbiddenScan(d)
    decreases n, 0, k
  {
    if k > 0 {
      ScansFoundBelow(n, k - 1);
      ScansFound(n.children[k - 1]);
    }
  }

  lemma {:induction false} KindFound(n: PlanNode, kind: string)
    ensures kind in Kinds(n) <==> kind != "" && exists d :: InTree(d, n) && d.kind == kind
    decreases n
  {
    KindFoundBelow(n, |n.children|, kind);
    if kind in Kinds(n) {
      if n.kind == kind && kind != "" {
        assert InTree(n, n);
      } else {
        var i :| 0 <= i < |n.children| && kind in Kinds(n.children[i]);
        KindFound(n.children[i], kind);
        var d :| InTree(d, n.children[i]) && d.kind == kind;
        assert InTree(d, n);
      }
    }
    if d :| InTree(d, n) && d.kind == kind {
      if d != n {
        var i :| 0 <= i < |n.children| && InTree(d, n.children[i]);
        KindFound(n.children[i], kind);
        if kind != "" { assert kind in KindsOf(n, |n.children|); }
      } else if kind != "" {
        assert Kinds(n)[0] == kind;
      }
    }
  }

  lemma {:induction false} KindFoundBelow(n: PlanNode, k: nat, kind: string)
    requires k <= |n.children|
    ensures kind in KindsOf(n, k) <==> exists i :: 0 <= i < k && kind in Kinds(n.children[i])
  {
    if k > 0 { KindFoundBelow(n, k - 1, kind); }
  }

  // ----- Removing adjacent repeats in place

  function Unique(s: seq<string>): (r: seq<string>)
    ensures |r| <= |s| && (s != [] ==> r != [] && r[|r| - 1] == s[|s| - 1])
  {
    if s == [] then []
    else
      var front, last := Unique(s[..|s| - 1]), s[|s| - 1];
      if front != [] && front[|front| - 1] == last then front else front + [last]
  }

  /** uniqueStrings: the result shares the array it reads, overwriting entries already passed. */
  method UniqueStrings(values: array<string>) returns (n: nat)
    modifies values
    ensures n <= values.Length && values[..n] == Unique(old(values[..]))
  {
    hide Unique;
    ghost var was := values[..];
    if values.Length == 0 {
      UniqueOfNone();
      return 0;
    }
    n := 1;
    UniqueOfOne(was);
    ghost var kept := [was[0]];
    for i := 1 to values.Length
      invariant 1 <= n <= i && |kept| == n && kept == Unique(was[..i])
      invariant forall j :: 0 <= j < n ==> values[j] == kept[j]
      invariant forall j :: i <= j < values.Length ==> values[j] == was[j]
    {
      UniqueOfMore(was, i);
      if values[i] != values[n - 1] {
        kept := kept + [values[i]];
        values[n] := values[i];
        n := n + 1;
      }
    }
    assert was[..values.Length] == was;
  }

  lemma UniqueOfNone()
    ensures Unique([]) == []
  {
  }

  lemma UniqueOfOne(s: seq<string>)
    requires s != []
    ensures Unique(s[..1]) == [s[0]]
  {
    assert s[..1][..0] == [];
  }

  lemma UniqueOfMore(s: seq<string>, i: nat)
    requires 0 < i < |s|
    ensures
      var front := Unique(s[..i]);
      front != [] && Unique(s[..i + 1]) == if front[|front| - 1] == s[i] then front else front + [s[i]]
  {
    assert s[..i + 1][..i] == s[..i];
  }

  predicate Increasing(s: seq<string>) {
    forall i, j :: 0 <= i < j < |s| ==> Text.Leq(s[i], s[j]) && s[i] != s[j]
  }

  lemma {:induction false} UniqueMembers(s: seq<string>)
    ensures forall v :: v in Unique(s) <==> v in s
  {
    if s != [] {
      var front, last := s[..|s| - 1], s[|s| - 1];
      UniqueMembers(front);
      assert s == front + [last];
    }
  }

  /** On an ordered list it leaves each string once, in order. */
  lemma {:induction false} UniqueOfSorted(s: seq<string>)
    requires Sorting.Sorted(s, Text.Leq)
    ensures Increasing(Unique(s)) && forall v :: v in Unique(s) <==> v in s
  {
    hide Text.Leq, Unique;
    UniqueMembers(s);
    if s == [] {
      UniqueOfNone();
    } else if |s| == 1 {
      UniqueOfOne(s);
      assert s[..1] == s;
    } else {
      var n := |s| - 1;
      var front, last := s[..n], s[n];
      UniqueOfSorted(front);
      UniqueOfMore(s, n);
      assert s[..n + 1] == s;
      var u := Unique(front);
      if Unique(s) != u {
        forall i | 0 <= i < |u| ensures Text.Leq(u[i], last) && u[i] != last {
          assert u[i] in front;
          var j :| 0 <= j < |front| && front[j] == u[i];
          assert Text.Leq(s[j], s[n]);
          LastIsLargest(u, i, last);
        }
      }
    }
  }

  lemma LastIsLargest(u: seq<string>, i: nat, last: string)
    requires Increasing(u) && i < |u| && Text.Leq(u[|u| - 1], last) && u[|u| - 1] != last
    ensures u[i] != last
  {
    Text.LeqTotal(u[|u| - 1], last);
    assert i < |u| - 1 ==> Text.Leq(u[i], u[|u| - 1]);
  }
}
