/** The fields of a generated customer one by one, and that the hot cohorts answer every scenario of the gate
    (deterministicCustomer in cmd/aicrm-contact-perf-data/main.go, queryForScenario in
    cmd/aicrm-contact-perf/main.go). */
module SeedMeaning {
  import opened Wrappers
  import opened Mix
  import opened SeedData
  import opened SeedCustomers
  import PerfCase
  import PerfMatrix
  import Words

  // ----- Fields

  /** The day, counted from 2026-01-01, and the second of the day. */
  predicate OnDay(t: int, day: int, second: int) {
    0 <= second < 86_400 && t == day * 86_400 + second
  }

  lemma InstantIs(start: nat, days: nat, entropy: nat)
    ensures OnDay(Instant(start, days, entropy), start + days, entropy % 86_400)
  {
  }

  /** An ordinary customer: which random value decides each field, and how. */
  lemma OrdinaryFields(seed: int, index: int)
    requires Seed(seed) && 1_000 <= index < 200_000
    ensures var r := RecordOf(seed, index);
            && r.name == index % 128 && r.gender == SeededValue(seed, index, 1) % 3
            && r.stageID == SeededValue(seed, index, 7) % 8 + 1 && r.ownerStaffID == SeededValue(seed, index, 8) % 64 + 1
            && r.channelID == SeededValue(seed, index, 9) % 12 + 1
            && OnDay(r.addedAt, SeededValue(seed, index, 1) % 244, SeededValue(seed, index, 2) % 86_400)
            && OnDay(r.lastInteractAt, 31 + SeededValue(seed, index, 3) % 210, SeededValue(seed, index, 4) % 86_400)
            && OnDay(r.updatedAt, 31 + SeededValue(seed, index, 5) % 192, SeededValue(seed, index, 6) % 86_400)
            && r.createdAt == r.addedAt - 86_400
    ensures var r, f := RecordOf(seed, index), SeededValue(seed, index, 14) % 50;
            r.tagIDs == [f + 1, (f + 17) % 50 + 1, (f + 34) % 50 + 1]
    ensures var r, n := RecordOf(seed, index), SeededValue(seed, index, 10) % 32;
            r.bucket == "bucket-" + [Digit(n / 10), Digit(n % 10)]
  {
    hide SeededValue, OrdinaryDeleted;
    InstantIs(0, SeededValue(seed, index, 1) % 244, SeededValue(seed, index, 2));
    InstantIs(31, SeededValue(seed, index, 3) % 210, SeededValue(seed, index, 4));
    InstantIs(31, SeededValue(seed, index, 5) % 192, SeededValue(seed, index, 6));
  }

  function Digit(n: nat): char
    requires n < 10
  {
    "0123456789"[n]
  }

  /** A customer of a hot cohort. */
  lemma HotFields(seed: int, index: int)
    requires Seed(seed) && 0 <= index < 1_000
    ensures var r, k := RecordOf(seed, index), index % 500;
            && r.name == 17 && r.stageID == 3 && r.ownerStaffID == 7 && r.channelID == 5 && r.tagIDs == [11, 12, 13]
            && r.gender == SeededValue(seed, index, 1) % 3 && r.isDeleted == (index >= 500)
            && r.bucket == (if index >= 500 then "hot-deleted" else "hot-active")
            && OnDay(r.addedAt, 90 + k % 122, SeededValue(seed, index, 11) % 86_400)
            && OnDay(r.lastInteractAt, 120 + k % 103, SeededValue(seed, index, 12) % 86_400)
            && OnDay(r.updatedAt, 223, SeededValue(seed, index, 13) % 86_400)
            && r.createdAt == r.addedAt - 86_400
  {
    hide SeededValue, Instant, OnDay, RecordOf;
    var k := index % 500;
    HotRecordIs(seed, index);
    InstantIs(90, k % 122, SeededValue(seed, index, 11));
    InstantIs(120, k % 103, SeededValue(seed, index, 12));
    InstantIs(223, 0, SeededValue(seed, index, 13));
  }

  lemma HotRecordIs(seed: int, index: int)
    requires Seed(seed) && 0 <= index < 1_000
    ensures RecordOf(seed, index) == HotRecord(seed, index, index >= 500, index % 500)
  {
    hide SeededValue, HotRecord;
  }

  /** The tag table gives every customer the tags of its record, under its number counted from one, and nothing else. */
  lemma TagTable(seed: int, customer: int, tag: int)
    requires Seed(seed)
    ensures (customer, tag) in TagRows(seed) <==> 1 <= customer <= 200_000 && tag in RecordOf(seed, customer - 1).tagIDs
  {
    hide RecordOf;
    var rows := TagRows(seed);
    if (customer, tag) in rows {
      var k :| 0 <= k < |rows| && rows[k] == (customer, tag);
      ThreeTags(seed, k);
      assert rows[k] == TagRow(seed, k);
    }
    if 1 <= customer <= 200_000 && tag in RecordOf(seed, customer - 1).tagIDs {
      var tags := RecordOf(seed, customer - 1).tagIDs;
      var j :| 0 <= j < |tags| && tags[j] == tag;
      var k := (customer - 1) * 3 + j;
      RecordValid(seed, customer - 1);
      assert k / 3 == customer - 1 && k % 3 == j;
      ThreeTags(seed, k);
      assert rows[k] == TagRow(seed, k);
    }
  }

  /** Who is counted for a hot query: deletion, a name like the keyword, owner, stage, channel, both windows and the tag. */
  lemma HotCounted(similar: int -> bool, seed: int, deleted: bool, i: int)
    requires Seed(seed)
    ensures i in HotSet(similar, seed, deleted) <==>
            && 0 <= i < 200_000
            && var r := RecordOf(seed, i);
               && r.isDeleted == deleted && similar(r.name) && r.ownerStaffID == 7 && r.stageID == 3 && r.channelID == 5 && 11 in r.tagIDs
               && 90 * 86_400 <= r.addedAt < 212 * 86_400 && 120 * 86_400 <= r.lastInteractAt < 223 * 86_400
  {
    hide RecordOf;
  }

  /** Who is counted before, within and behind the two windows: April to July, and May to 11 August. */
  lemma WindowCounted(seed: int, i: int)
    requires Seed(seed) && 0 <= i < 200_000
    ensures var r := RecordOf(seed, i);
            && (i in AddedSet(seed, Before) <==> r.addedAt < 90 * 86_400)
            && (i in AddedSet(seed, Within) <==> 90 * 86_400 <= r.addedAt < 212 * 86_400)
            && (i in AddedSet(seed, Behind) <==> 212 * 86_400 <= r.addedAt)
            && (i in InteractSet(seed, Before) <==> r.lastInteractAt < 120 * 86_400)
            && (i in InteractSet(seed, Within) <==> 120 * 86_400 <= r.lastInteractAt < 223 * 86_400)
            && (i in InteractSet(seed, Behind) <==> 223 * 86_400 <= r.lastInteractAt)
  {
    hide RecordOf;
    assert Customer(i);
  }

  /** Who is deleted among the ordinary customers, for a seed that is not negative. */
  lemma DeletedFormula(seed: int, index: int)
    requires 0 <= seed < 0x8000_0000_0000_0000 && 1_000 <= index < 200_000
    ensures RecordOf(seed, index).isDeleted <==> ((index - 1_000) * 7_919 + seed) % 199_000 < 9_500
  {
    hide SeededValue;
    NoOverflowIff(seed);
  }

  /** Nobody outside the range. */
  lemma NobodyElse(seed: int, index: int)
    requires Seed(seed) && (index < 0 || index >= 200_000)
    ensures RecordOf(seed, index) == NO_RECORD
  {
  }

  lemma Next(index: nat)
    requires index < 200_000
    ensures Words.Plus(index, 1) == index + 1
  {
  }

  /** The word that is mixed: seed, index and salt, each spread by a constant of its own. */
  lemma ValueUnmixed(seed: int, index: nat, salt: nat)
    requires Seed(seed) && index < 200_000
    ensures Unmixed(SeededValue(seed, index, salt)) ==
            Words.Xor(Words.Xor(if seed < 0 then seed + 0x1_0000_0000_0000_0000 else seed, Words.Times(index + 1, 0x9e37_79b9_7f4a_7c15)),
                      Words.Times(salt, 0xbf58_476d_1ce4_e5b9))
  {
    hide Mixed, Unmixed, Words.Xor, Words.Times, Words.Plus;
    SeededInputIsWord(seed, index, salt);
    MixBijective(SeededInput(seed, index, salt));
    Next(index);
  }

  // ----- The hot cohorts and the scenarios of the gate

  predicate Above(bound: Option<int>, t: int) {
    bound.Some? ==> bound.value <= t
  }

  predicate Below(bound: Option<int>, t: int) {
    bound.Some? ==> t <= bound.value
  }

  predicate Equals(wanted: Option<int>, n: int) {
    wanted.Some? ==> wanted.value == n
  }

  /** The customer is among those a query asks for; the keyword is compared by its number. */
  predicate Answers(q: PerfCase.Query, r: Record) {
    && r.isDeleted == q.deleted && r.updatedAt <= q.watermark && Equals(q.keyword, r.name) && Equals(q.ownerStaffID, r.ownerStaffID)
    && Equals(q.stageID, r.stageID) && Equals(q.channelID, r.channelID) && (q.tagID.Some? ==> q.tagID.value in r.tagIDs)
    && Above(q.addedAfter, r.addedAt) && Below(q.addedBefore, r.addedAt)
    && Above(q.interactAfter, r.lastInteractAt) && Below(q.interactBefore, r.lastInteractAt)
  }

  /** Every customer of a hot cohort answers every scenario that asks for its half, whatever the selectors and
      windows: 500 customers for pages of at most 200. */
  lemma HotAnswersEveryScenario(seed: int, index: int, s: PerfMatrix.Scenario)
    requires Seed(seed) && 0 <= index < 1_000 && s.deleted == (index >= 500)
    ensures Answers(PerfCase.QueryFor(s), RecordOf(seed, index))
  {
    hide SeededValue, RecordOf, PerfCase.HasBit;
    HotCohortMatches(seed, index);
    var r := RecordOf(seed, index);
    assert HotQuery(r);
  }

  /** The most selective scenario asks for exactly the hot query. */
  lemma ClosedScenarioIsHotQuery(s: PerfMatrix.Scenario, r: Record)
    requires s.selectorMask == 31 && s.added == PerfMatrix.TimeClosed && s.interact == PerfMatrix.TimeClosed
    ensures Answers(PerfCase.QueryFor(s), r) <==> HotQuery(r) && r.isDeleted == s.deleted
  {
  }
}
