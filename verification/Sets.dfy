/** Facts about finite sets that several models need. */
module Sets {

  lemma Inhabited<T(!new)>(s: set<T>)
    ensures s == {} || exists x :: x in s
  {
    if forall x :: x !in s { assert s == {}; }
  }

  lemma Pick<T(!new)>(s: set<T>) returns (x: T)
    requires s != {}
    ensures x in s
  {
    Inhabited(s);
    x :| x in s;
  }

  /** Any member: what a loop over a map or set yields next. */
  method Any<T(!new, ==)>(s: set<T>) returns (x: T)
    requires s != {}
    ensures x in s
  {
    ghost var some := Pick(s);
    assert some in s;
    x :| x in s;
  }

  lemma AtMostOne<T>(s: set<T>, x: T)
    requires |s| <= 1 && x in s
    ensures s == {x}
  {
    assert |s - {x}| == |s| - 1;
  }

  lemma TwoMembers<T>(s: set<T>, x: T, y: T)
    requires x in s && y in s && x != y
    ensures |s| > 1
  {
    assert |s - {x}| == |s| - 1;
    assert |s - {x} - {y}| == |s - {x}| - 1;
  }

  lemma PickTwo<T(!new)>(s: set<T>) returns (x: T, y: T)
    requires |s| > 1
    ensures x in s && y in s && x != y
  {
    x := Pick(s);
    assert |s - {x}| == |s| - 1;
    y := Pick(s - {x});
  }

  lemma SubsetSize<T>(s: set<T>, t: set<T>)
    requires s <= t
    ensures |s| <= |t|
    ensures |s| == |t| ==> s == t
  {
    assert t == s + (t - s) && |t| == |s| + |t - s|;
  }

  lemma {:induction false} HasLeast(s: set<int>) returns (m: int)
    requires s != {}
    ensures m in s && forall x :: x in s ==> m <= x
    decreases |s|
  {
    var x0 := Pick(s);
    var rest := s - {x0};
    assert |rest| == |s| - 1;
    m := x0;
    if rest != {} {
      var k := HasLeast(rest);
      if k < x0 { m := k; }
    }
    assert forall x :: x in s ==> x == x0 || x in rest;
  }

  ghost predicate IsLeast(s: set<int>, m: int) {
    m in s && forall x :: x in s ==> m <= x
  }

  ghost function Least(s: set<int>): (m: int)
    requires s != {}
    ensures IsLeast(s, m)
  {
    assert exists k :: IsLeast(s, k) by {
      var k := HasLeast(s);
      assert IsLeast(s, k);
    }
    var m :| IsLeast(s, m);
    m
  }

  ghost predicate Ascending(ids: seq<int>) {
    forall i, j :: 0 <= i < j < |ids| ==> ids[i] < ids[j]
  }

  /** The members in ascending order. */
  ghost function Ascend(s: set<int>): (ids: seq<int>)
    ensures Ascending(ids) && forall x :: x in ids <==> x in s
    decreases |s|
  {
    if s == {} then []
    else
      var m := Least(s);
      assert |s - {m}| == |s| - 1;
      [m] + Ascend(s - {m})
  }

  /** There is only one ascending list of the same members. */
  lemma {:induction false} AscendUnique(s: set<int>, ids: seq<int>)
    requires Ascending(ids) && forall x :: x in ids <==> x in s
    ensures ids == Ascend(s)
    decreases |s|
  {
    if ids == [] {
      if s != {} { var x := Pick(s); }
    } else {
      assert ids[0] in ids;
      var m := Least(s);
      var k :| 0 <= k < |ids| && ids[k] == m;
      assert ids[0] == m;
      assert |s - {m}| == |s| - 1;
      var rest := ids[1..];
      forall x ensures x in rest <==> x in s - {m} {
        if x in rest {
          var i :| 0 <= i < |rest| && rest[i] == x;
          assert ids[i + 1] == x && ids[0] < ids[i + 1];
        }
      }
      AscendUnique(s - {m}, rest);
      assert ids == [m] + rest;
    }
  }

  predicate Distinct<T(==)>(items: seq<T>) {
    forall i, j :: 0 <= i < j < |items| ==> items[i] != items[j]
  }

  function Members<T>(items: seq<T>): set<T> {
    set i | 0 <= i < |items| :: items[i]
  }

  /** A list has as many members as entries exactly when nothing repeats. */
  lemma {:induction false} MembersSize<T>(items: seq<T>)
    ensures |Members(items)| <= |items|
    ensures |Members(items)| == |items| <==> forall i, j :: 0 <= i < j < |items| ==> items[i] != items[j]
  {
    if items != [] {
      var front, last := items[..|items| - 1], items[|items| - 1];
      MembersSize(front);
      assert Members(items) == Members(front) + {last};
      if last in front {
        var i :| 0 <= i < |front| && front[i] == last;
        assert items[i] == items[|items| - 1];
        assert Members(items) == Members(front);
      } else {
        assert last !in Members(front);
      }
    }
  }

  /** One more entry. */
  lemma MembersOfMore<T>(items: seq<T>, i: nat)
    requires i < |items|
    ensures Members(items[..i + 1]) == Members(items[..i]) + {items[i]}
    ensures Distinct(items[..i + 1]) <==> Distinct(items[..i]) && items[i] !in Members(items[..i])
  {
    var before, after := items[..i], items[..i + 1];
    assert after == before + [items[i]];
    forall x ensures x in Members(after) <==> x in Members(before) + {items[i]} {
      if x in Members(before) {
        var j :| 0 <= j < |before| && before[j] == x;
        assert after[j] == x;
      }
      if x == items[i] { assert after[i] == x; }
    }
    if Distinct(after) {
      forall j, k | 0 <= j < k < |before| ensures before[j] != before[k] { assert after[j] != after[k]; }
      forall j | 0 <= j < |before| ensures before[j] != items[i] { assert after[j] != after[i]; }
    }
  }

  /** Two lists of one length with the same members repeat nothing or both repeat something. */
  lemma SameMembersDistinct<T(!new)>(a: seq<T>, b: seq<T>)
    requires |a| == |b| && Distinct(a) && forall x :: x in a <==> x in b
    ensures Distinct(b)
  {
    MembersSize(a);
    MembersSize(b);
    forall x ensures x in Members(a) <==> x in Members(b) {
      assert (x in Members(a) <==> x in a) && (x in Members(b) <==> x in b);
    }
    assert Members(a) == Members(b);
  }

  // ----- Counting positions

  /** The positions of a list at which something holds. */
  function Where<T>(items: seq<T>, p: T -> bool): set<int> {
    set i | 0 <= i < |items| && p(items[i])
  }

  lemma WhereMore<T>(items: seq<T>, x: T, p: T -> bool)
    ensures |Where(items + [x], p)| == |Where(items, p)| + if p(x) then 1 else 0
  {
    var more := items + [x];
    assert forall i :: 0 <= i < |items| ==> more[i] == items[i];
    if p(x) {
      assert Where(more, p) == Where(items, p) + {|items|};
    } else {
      assert Where(more, p) == Where(items, p);
    }
  }

  lemma WhereNone<T>(p: T -> bool)
    ensures |Where([], p)| == 0
  {
    assert Where([], p) == {};
  }

  lemma WhereAlike<T(!new)>(items: seq<T>, p: T -> bool, q: T -> bool)
    requires forall x :: x in items ==> p(x) == q(x)
    ensures Where(items, p) == Where(items, q)
  {
  }

  lemma WhereEither<T(!new)>(items: seq<T>, p: T -> bool, q: T -> bool, either: T -> bool)
    requires forall x :: either(x) <==> p(x) || q(x)
    requires forall x :: !(p(x) && q(x))
    ensures |Where(items, either)| == |Where(items, p)| + |Where(items, q)|
  {
    assert Where(items, either) == Where(items, p) + Where(items, q);
    assert Where(items, p) !! Where(items, q);
  }
}
