/** The matrix of scenarios and their ids (scenarios and scenarioID in
    cmd/aicrm-contact-perf/main.go). */
module PerfMatrix {
  import Decimal
  import Text

  datatype TimeMode = TimeNone | TimeAfter | TimeBefore | TimeClosed

  datatype Scenario = Scenario(
    selectorMask: nat, deleted: bool, added: TimeMode, interact: TimeMode, nextPage: bool, limit: int)

  const MASKS := 32
  const COMBINATIONS := 4096
  const DEFAULT_LIMIT := 50
  const MAXIMUM_LIMIT := 200
  const MODES := [TimeNone, TimeAfter, TimeBefore, TimeClosed]
  const LIMITS := [DEFAULT_LIMIT, MAXIMUM_LIMIT]

  predicate InMatrix(s: Scenario) {
    s.selectorMask < MASKS && s.limit in LIMITS
  }

  function Rank(m: TimeMode): (k: nat)
    ensures k < 4 && MODES[k] == m
  {
    match m
    case TimeNone => 0
    case TimeAfter => 1
    case TimeBefore => 2
    case TimeClosed => 3
  }

  function Bit(b: bool): nat {
    if b then 1 else 0
  }

  /** Where the nested loops produce a scenario. */
  function Position(s: Scenario): nat {
    ((((s.selectorMask * 2 + Bit(s.deleted)) * 4 + Rank(s.added)) * 4 + Rank(s.interact)) * 2 + Bit(s.nextPage)) * 2
    + Bit(s.limit == MAXIMUM_LIMIT)
  }

  /** A list holding every scenario of the matrix once, each at its position. */
  ghost predicate Complete(list: seq<Scenario>) {
    && |list| == COMBINATIONS
    && (forall k :: 0 <= k < |list| ==> InMatrix(list[k]) && Position(list[k]) == k)
  }

  predicate Prefix(list: seq<Scenario>, n: nat) {
    |list| == n && forall k :: 0 <= k < n ==> InMatrix(list[k]) && Position(list[k]) == k
  }

  /** Where a block of four begins. */
  function Block(mask: nat, deleted: nat, added: nat, interact: nat): nat {
    ((mask * 2 + deleted) * 4 + added) * 4 + interact
  }

  lemma RankOfMode(k: nat)
    requires k < 4
    ensures Rank(MODES[k]) == k
  {
  }

  lemma Extended(list: seq<Scenario>, four: seq<Scenario>, n: nat)
    requires Prefix(list, 4 * n) && |four| == 4
    requires forall k :: 0 <= k < 4 ==> InMatrix(four[k]) && Position(four[k]) == 4 * n + k
    ensures Prefix(list + four, 4 * (n + 1))
  {
  }

  method Scenarios() returns (list: seq<Scenario>)
    ensures Complete(list)
  {
    list := [];
    assert Prefix(list, 0);
    for mask: nat := 0 to MASKS
      invariant Prefix(list, 4 * Block(mask, 0, 0, 0))
    {
      for deleted: nat := 0 to 2
        invariant Prefix(list, 4 * Block(mask, deleted, 0, 0))
      {
        for added: nat := 0 to 4
          invariant Prefix(list, 4 * Block(mask, deleted, added, 0))
        {
          for interact: nat := 0 to 4
            invariant Prefix(list, 4 * Block(mask, deleted, added, interact))
          {
            hide Prefix, Position, Rank;
            RankOfMode(added);
            RankOfMode(interact);
            var four := PagesAndLimits(mask, deleted == 1, MODES[added], MODES[interact]);
            Extended(list, four, Block(mask, deleted, added, interact));
            list := list + four;
          }
        }
      }
    }
  }

  /** The two innermost loops. */
  method PagesAndLimits(mask: nat, deleted: bool, added: TimeMode, interact: TimeMode) returns (list: seq<Scenario>)
    requires mask < MASKS
    ensures |list| == 4
    ensures forall k :: 0 <= k < 4 ==>
              && InMatrix(list[k])
              && Position(list[k]) == 4 * Block(mask, Bit(deleted), Rank(added), Rank(interact)) + k
  {
    list := [];
    for page := 0 to 2
      invariant |list| == page * 2
      invariant forall k :: 0 <= k < |list| ==>
                  && InMatrix(list[k])
                  && Position(list[k]) == 4 * Block(mask, Bit(deleted), Rank(added), Rank(interact)) + k
    {
      for l := 0 to 2
        invariant |list| == page * 2 + l
        invariant forall k :: 0 <= k < |list| ==>
                    && InMatrix(list[k])
                    && Position(list[k]) == 4 * Block(mask, Bit(deleted), Rank(added), Rank(interact)) + k
      {
        list := list + [Scenario(mask, deleted, added, interact, page == 1, LIMITS[l])];
      }
    }
  }

  lemma PositionBelow(s: Scenario)
    requires InMatrix(s)
    ensures Position(s) < COMBINATIONS
  {
  }

  lemma SplitTwo(a: nat, b: nat, c: nat, d: nat)
    requires a * 2 + b == c * 2 + d && b < 2 && d < 2
    ensures a == c && b == d
  {
  }

  lemma SplitFour(a: nat, b: nat, c: nat, d: nat)
    requires a * 4 + b == c * 4 + d && b < 4 && d < 4
    ensures a == c && b == d
  {
  }

  /** Different scenarios of the matrix stand at different positions. */
  lemma PositionInjective(s: Scenario, t: Scenario)
    requires InMatrix(s) && InMatrix(t) && Position(s) == Position(t)
    ensures s == t
  {
    hide Rank;
    var d, e := s.selectorMask * 2 + Bit(s.deleted), t.selectorMask * 2 + Bit(t.deleted);
    var a, b := d * 4 + Rank(s.added), e * 4 + Rank(t.added);
    var i, j := a * 4 + Rank(s.interact), b * 4 + Rank(t.interact);
    var p, q := i * 2 + Bit(s.nextPage), j * 2 + Bit(t.nextPage);
    SplitTwo(p, Bit(s.limit == MAXIMUM_LIMIT), q, Bit(t.limit == MAXIMUM_LIMIT));
    SplitTwo(i, Bit(s.nextPage), j, Bit(t.nextPage));
    SplitFour(a, Rank(s.interact), b, Rank(t.interact));
    SplitFour(d, Rank(s.added), e, Rank(t.added));
    SplitTwo(s.selectorMask, Bit(s.deleted), t.selectorMask, Bit(t.deleted));
  }

  /** The loops leave out no scenario and repeat none. */
  lemma EveryScenarioOnce(list: seq<Scenario>, s: Scenario)
    requires Complete(list) && InMatrix(s)
    ensures Position(s) < |list| && list[Position(s)] == s
    ensures forall k :: 0 <= k < |list| && list[k] == s ==> k == Position(s)
  {
    PositionBelow(s);
    PositionInjective(list[Position(s)], s);
  }

  // ----- Ids

  function ModeText(m: TimeMode): string {
    match m
    case TimeNone => "none"
    case TimeAfter => "after"
    case TimeBefore => "before"
    case TimeClosed => "closed"
  }

  function PageName(next: bool): string {
    if next then "next" else "first"
  }

  function BoolText(b: bool): string {
    if b then "true" else "false"
  }

  /** %02d of a selector mask. */
  function TwoDigits(n: nat): string {
    if n < 10 then "0" + Decimal.FormatNat(n) else Decimal.FormatNat(n)
  }

  function Tail(s: Scenario): string {
    "interact-" + (ModeText(s.interact) + "-" + ("page-" + (PageName(s.nextPage) + "-" + ("limit-" + Decimal.FormatInt(s.limit)))))
  }

  function ScenarioID(s: Scenario): string {
    "selectors-" + (TwoDigits(s.selectorMask) + "-" + ("deleted-" + (BoolText(s.deleted) + "-" + ("added-" + (ModeText(s.added) + "-" + Tail(s))))))
  }

  lemma ModeTextPlain(m: TimeMode)
    ensures '-' !in ModeText(m)
  {
  }

  lemma ModeTextInjective(m: TimeMode, n: TimeMode)
    requires ModeText(m) == ModeText(n)
    ensures m == n
  {
    assert ModeText(m)[0] == ModeText(n)[0] && ModeText(m)[1] == ModeText(n)[1];
  }

  lemma TwoDigitsPlain(n: nat)
    ensures '-' !in TwoDigits(n)
  {
    var digits := Decimal.FormatNat(n);
    assert !Decimal.IsDigit('-');
    assert forall i :: 0 <= i < |digits| ==> digits[i] != '-';
  }

  lemma TwoDigitsInjective(m: nat, n: nat)
    requires m < 100 && n < 100 && TwoDigits(m) == TwoDigits(n)
    ensures m == n
  {
    TwoDigitsAre(m);
    TwoDigitsAre(n);
    assert Decimal.DigitChar(m / 10) == Decimal.DigitChar(n / 10) && Decimal.DigitChar(m % 10) == Decimal.DigitChar(n % 10);
    assert Decimal.DigitValue(Decimal.DigitChar(m / 10)) == m / 10 && Decimal.DigitValue(Decimal.DigitChar(m % 10)) == m % 10;
  }

  lemma TwoDigitsAre(n: nat)
    requires n < 100
    ensures |TwoDigits(n)| == 2 && TwoDigits(n)[0] == Decimal.DigitChar(n / 10) && TwoDigits(n)[1] == Decimal.DigitChar(n % 10)
  {
    if n < 10 {
      assert Decimal.FormatNat(n) == [Decimal.DigitChar(n)];
    } else {
      assert Decimal.FormatNat(n) == Decimal.FormatNat(n / 10) + [Decimal.DigitChar(n % 10)];
      assert Decimal.FormatNat(n / 10) == [Decimal.DigitChar(n / 10)];
    }
  }

  lemma TailInjective(s: Scenario, t: Scenario)
    requires Tail(s) == Tail(t)
    ensures s.interact == t.interact && s.nextPage == t.nextPage && s.limit == t.limit
  {
    hide Decimal.FormatInt, ModeText;
    ModeTextPlain(s.interact);
    ModeTextPlain(t.interact);
    var a, b := "page-" + (PageName(s.nextPage) + "-" + ("limit-" + Decimal.FormatInt(s.limit))),
                "page-" + (PageName(t.nextPage) + "-" + ("limit-" + Decimal.FormatInt(t.limit)));
    Text.SplitHere("interact-", ModeText(s.interact) + "-" + a, "interact-", ModeText(t.interact) + "-" + b);
    Text.SplitAt(ModeText(s.interact), a, ModeText(t.interact), b, '-');
    ModeTextInjective(s.interact, t.interact);
    Text.SplitHere("page-", PageName(s.nextPage) + "-" + ("limit-" + Decimal.FormatInt(s.limit)),
                   "page-", PageName(t.nextPage) + "-" + ("limit-" + Decimal.FormatInt(t.limit)));
    Text.SplitAt(PageName(s.nextPage), "limit-" + Decimal.FormatInt(s.limit), PageName(t.nextPage), "limit-" + Decimal.FormatInt(t.limit), '-');
    assert PageName(s.nextPage)[0] == PageName(t.nextPage)[0];
    Text.SplitHere("limit-", Decimal.FormatInt(s.limit), "limit-", Decimal.FormatInt(t.limit));
    Decimal.FormatIntInjective(s.limit, t.limit);
  }

  /** No two scenarios of the matrix share an id. */
  lemma ScenarioIDInjective(s: Scenario, t: Scenario)
    requires InMatrix(s) && InMatrix(t) && ScenarioID(s) == ScenarioID(t)
    ensures s == t
  {
    hide Tail, ModeText, TwoDigits;
    var c, d := ModeText(s.added) + "-" + Tail(s), ModeText(t.added) + "-" + Tail(t);
    var a, b := BoolText(s.deleted) + "-" + ("added-" + c), BoolText(t.deleted) + "-" + ("added-" + d);
    Text.SplitHere("selectors-", TwoDigits(s.selectorMask) + "-" + ("deleted-" + a), "selectors-", TwoDigits(t.selectorMask) + "-" + ("deleted-" + b));
    TwoDigitsPlain(s.selectorMask);
    TwoDigitsPlain(t.selectorMask);
    Text.SplitAt(TwoDigits(s.selectorMask), "deleted-" + a, TwoDigits(t.selectorMask), "deleted-" + b, '-');
    TwoDigitsInjective(s.selectorMask, t.selectorMask);
    Text.SplitHere("deleted-", a, "deleted-", b);
    Text.SplitAt(BoolText(s.deleted), "added-" + c, BoolText(t.deleted), "added-" + d, '-');
    assert BoolText(s.deleted)[0] == BoolText(t.deleted)[0];
    Text.SplitHere("added-", c, "added-", d);
    ModeTextPlain(s.added);
    ModeTextPlain(t.added);
    Text.SplitAt(ModeText(s.added), Tail(s), ModeText(t.added), Tail(t), '-');
    ModeTextInjective(s.added, t.added);
    TailInjective(s, t);
  }
}
