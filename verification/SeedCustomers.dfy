/** The records of the generated customers and their tags (deterministicCustomer, deterministicTags and
    copyCustomerTags in cmd/aicrm-contact-perf-data/main.go). */
module SeedCustomers {
  import opened Mix
  import opened SeedData
  import opened Counting
  import PerfEvidence
  import Sets

  const STAGES := 8
  const STAFF := 64
  const CHANNELS := 12

  // Whole days after 2026-01-01.
  const FEBRUARY := 31
  const APRIL := 90
  const MAY := 120
  const AUGUST := 212
  const AUGUST_12 := 223
  const WATERMARK := 224 * DAY

  const ADDED_END := AUGUST * DAY - 1
  const INTERACT_END := AUGUST_12 * DAY - 1

  /** name holds the number of the keyword kw000 to kw127. */
  datatype Record = Record(
    name: int, gender: int, stageID: int, ownerStaffID: int, channelID: int, addedAt: int, lastInteractAt: int,
    isDeleted: bool, bucket: string, createdAt: int, updatedAt: int, tagIDs: seq<int>)

  const NO_RECORD := Record(0, 0, 0, 0, 0, 0, 0, false, "", 0, 0, [0, 0, 0])

  function Instant(startDay: nat, days: nat, entropy: nat): (t: nat)
    ensures startDay * DAY <= (startDay + days) * DAY <= t < (startDay + days + 1) * DAY
  {
    (startDay + days) * DAY + entropy % DAY
  }

  function Tags(first: nat): seq<int>
    requires first < TAGS
  {
    [first + 1, (first + 17) % TAGS + 1, (first + 34) % TAGS + 1]
  }

  function DeterministicTags(seed: int, index: nat): seq<int>
    requires Seed(seed)
  {
    Tags(SeededValue(seed, index, 14) % TAGS)
  }

  function OrdinaryRecord(seed: int, index: nat, bucket: string): Record
    requires Seed(seed)
  {
    var value := SeededValue(seed, index, 1);
    var addedAt := Instant(0, value % 244, SeededValue(seed, index, 2));
    Record(index % 128, value % 3, SeededValue(seed, index, 7) % STAGES + 1, SeededValue(seed, index, 8) % STAFF + 1,
           SeededValue(seed, index, 9) % CHANNELS + 1, addedAt, Instant(FEBRUARY, SeededValue(seed, index, 3) % 210, SeededValue(seed, index, 4)),
           OrdinaryDeleted(seed, index), bucket, addedAt - DAY,
           Instant(FEBRUARY, SeededValue(seed, index, 5) % 192, SeededValue(seed, index, 6)), DeterministicTags(seed, index))
  }

  function HotRecord(seed: int, index: nat, deleted: bool, cohortIndex: nat): Record
    requires Seed(seed)
  {
    var addedAt := Instant(APRIL, cohortIndex % 122, SeededValue(seed, index, 11));
    Record(17, SeededValue(seed, index, 1) % 3, 3, 7, 5, addedAt, Instant(MAY, cohortIndex % 103, SeededValue(seed, index, 12)),
           deleted, if deleted then "hot-deleted" else "hot-active", addedAt - DAY,
           Instant(AUGUST_12, cohortIndex % 1, SeededValue(seed, index, 13)), [11, 12, 13])
  }

  /** bucket-NN of an ordinary customer, by its number. */
  function Bucket(n: nat): string {
    "bucket-" + [('0' as int + n / 10 % 10) as char, ('0' as int + n % 10) as char]
  }

  function RecordOf(seed: int, index: int): Record
    requires Seed(seed)
  {
    if !Customer(index) then NO_RECORD
    else
      match HotCohort(index)
      case Hot(deleted, k) => HotRecord(seed, index, deleted, k)
      case Ordinary => OrdinaryRecord(seed, index, Bucket(SeededValue(seed, index, 10) % 32))
  }

  /** deterministicCustomer: an ordinary record, whose fields the hot cohorts overwrite. */
  method DeterministicCustomer(seed: int, index: int) returns (record: Record)
    requires Seed(seed)
    ensures record == RecordOf(seed, index)
  {
    hide SeededValue, OrdinaryDeleted;
    if index < 0 || index >= CUSTOMERS { return NO_RECORD; }
    record := OrdinaryRecord(seed, index, Bucket(SeededValue(seed, index, 10) % 32));
    var cohort := HotCohort(index);
    if cohort.Hot? {
      record := record.(name := 17, stageID := 3, ownerStaffID := 7, channelID := 5);
      record := record.(addedAt := Instant(APRIL, cohort.index % 122, SeededValue(seed, index, 11)));
      record := record.(lastInteractAt := Instant(MAY, cohort.index % 103, SeededValue(seed, index, 12)));
      record := record.(isDeleted := cohort.deleted, bucket := if cohort.deleted then "hot-deleted" else "hot-active");
      record := record.(createdAt := record.addedAt - DAY);
      record := record.(updatedAt := Instant(AUGUST_12, cohort.index % 1, SeededValue(seed, index, 13)));
      record := record.(tagIDs := [11, 12, 13]);
    }
  }

  // ----- References and tags

  lemma TagsDistinct(first: nat)
    requires first < TAGS
    ensures Sets.Distinct(Tags(first)) && forall k :: 0 <= k < 3 ==> 1 <= Tags(first)[k] <= TAGS
  {
  }

  /** Every customer refers to rows that exist and carries three different tags. */
  lemma RecordValid(seed: int, index: int)
    requires Seed(seed) && Customer(index)
    ensures
      var r := RecordOf(seed, index);
      && 1 <= r.stageID <= STAGES && 1 <= r.ownerStaffID <= STAFF && 1 <= r.channelID <= CHANNELS
      && |r.tagIDs| == TAGS_PER_CUSTOMER && Sets.Distinct(r.tagIDs) && (forall k :: 0 <= k < 3 ==> 1 <= r.tagIDs[k] <= TAGS)
      && r.isDeleted == IsDeleted(seed, index) && r.createdAt == r.addedAt - DAY
  {
    hide SeededValue, OrdinaryDeleted, Tags;
    TagsDistinct(SeededValue(seed, index, 14) % TAGS);
    TagsLength(SeededValue(seed, index, 14) % TAGS);
  }

  lemma TagsLength(first: nat)
    requires first < TAGS
    ensures |Tags(first)| == 3
  {
  }

  /** The k-th row copied into customer_tags: customer and tag. */
  function TagRow(seed: int, k: nat): (int, int)
    requires Seed(seed) && k < CUSTOMERS * TAGS_PER_CUSTOMER
    requires |RecordOf(seed, k / TAGS_PER_CUSTOMER).tagIDs| == TAGS_PER_CUSTOMER
  {
    (k / TAGS_PER_CUSTOMER + 1, RecordOf(seed, k / TAGS_PER_CUSTOMER).tagIDs[k % TAGS_PER_CUSTOMER])
  }

  /** No customer is tagged twice with one tag: all 600000 rows differ. */
  lemma TagRowsDiffer(seed: int, k: nat, m: nat)
    requires Seed(seed) && k < m < CUSTOMERS * TAGS_PER_CUSTOMER
    ensures |RecordOf(seed, k / TAGS_PER_CUSTOMER).tagIDs| == |RecordOf(seed, m / TAGS_PER_CUSTOMER).tagIDs| == TAGS_PER_CUSTOMER
    ensures TagRow(seed, k) != TagRow(seed, m)
  {
    hide RecordOf;
    var i, j := k / TAGS_PER_CUSTOMER, m / TAGS_PER_CUSTOMER;
    RecordValid(seed, i);
    RecordValid(seed, j);
    if i == j {
      assert k % TAGS_PER_CUSTOMER < m % TAGS_PER_CUSTOMER;
    }
  }

  // ----- The hot cohort and the queries that look for it

  /** The condition of the hot queries of both performance programs, deletion aside. */
  predicate HotQuery(r: Record) {
    && r.name == 17 && r.ownerStaffID == 7 && r.stageID == 3 && r.channelID == 5
    && APRIL * DAY <= r.addedAt <= ADDED_END && MAY * DAY <= r.lastInteractAt <= INTERACT_END
    && r.updatedAt <= WATERMARK && 11 in r.tagIDs
  }

  lemma HotCohortMatches(seed: int, index: int)
    requires Seed(seed) && 0 <= index < 2 * HOT
    ensures HotQuery(RecordOf(seed, index)) && RecordOf(seed, index).isDeleted == (index >= HOT)
  {
    hide SeededValue;
    var cohortIndex := if index < HOT then index else index - HOT;
    WithinDays(APRIL, cohortIndex % 122, SeededValue(seed, index, 11), AUGUST);
    WithinDays(MAY, cohortIndex % 103, SeededValue(seed, index, 12), AUGUST_12);
    WithinDays(AUGUST_12, cohortIndex % 1, SeededValue(seed, index, 13), 224);
    var r := RecordOf(seed, index);
    assert r.tagIDs[0] == 11;
  }

  lemma WithinDays(startDay: nat, days: nat, entropy: nat, end: nat)
    requires startDay + days < end
    ensures startDay * DAY <= Instant(startDay, days, entropy) < end * DAY
  {
    assert (startDay + days + 1) * DAY <= end * DAY;
  }

  // ----- The dataset the gate demands

  /** similar is pg_trgm's comparison of a keyword with kw017; the gate's hot query looks at the name through it. */
  predicate GateHot(similar: int -> bool, r: Record, deleted: bool) {
    && r.isDeleted == deleted && similar(r.name) && r.ownerStaffID == 7 && r.stageID == 3 && r.channelID == 5
    && APRIL * DAY <= r.addedAt <= ADDED_END && MAY * DAY <= r.lastInteractAt <= INTERACT_END && 11 in r.tagIDs
  }

  function HotSet(similar: int -> bool, seed: int, deleted: bool): set<int>
    requires Seed(seed)
  {
    set i | 0 <= i < CUSTOMERS && Customer(i) && GateHot(similar, RecordOf(seed, i), deleted)
  }

  datatype Window = Before | Within | Behind

  function WindowOf(low: int, high: int, t: int): Window {
    if t < low then Before else if t <= high then Within else Behind
  }

  function AddedWindow(seed: int, i: int): Window
    requires Seed(seed)
  {
    WindowOf(APRIL * DAY, ADDED_END, RecordOf(seed, i).addedAt)
  }

  function InteractWindow(seed: int, i: int): Window
    requires Seed(seed)
  {
    WindowOf(MAY * DAY, INTERACT_END, RecordOf(seed, i).lastInteractAt)
  }

  function AddedSet(seed: int, w: Window): set<int>
    requires Seed(seed)
  {
    set i | 0 <= i < CUSTOMERS && Customer(i) && AddedWindow(seed, i) == w
  }

  function InteractSet(seed: int, w: Window): set<int>
    requires Seed(seed)
  {
    set i | 0 <= i < CUSTOMERS && Customer(i) && InteractWindow(seed, i) == w
  }

  /** The rows copied into customer_tags. */
  function TagRows(seed: int): seq<(int, int)>
    requires Seed(seed)
  {
    seq(CUSTOMERS * TAGS_PER_CUSTOMER, k requires 0 <= k < CUSTOMERS * TAGS_PER_CUSTOMER => (ThreeTags(seed, k); TagRow(seed, k)))
  }

  lemma ThreeTags(seed: int, k: nat)
    requires Seed(seed) && k < CUSTOMERS * TAGS_PER_CUSTOMER
    ensures |RecordOf(seed, k / TAGS_PER_CUSTOMER).tagIDs| == TAGS_PER_CUSTOMER
  {
    hide RecordOf;
    RecordValid(seed, k / TAGS_PER_CUSTOMER);
  }

  /** inspectDataset over the generated tables. */
  function DatasetOf(similar: int -> bool, seed: int): PerfEvidence.Dataset
    requires Seed(seed)
  {
    PerfEvidence.Dataset(
      |Range(0, CUSTOMERS)|, |Sets.Members(TagRows(seed))|, STAFF, STAGES, CHANNELS, TAGS, |DeletedSet(seed)|,
      |HotSet(similar, seed, false)|, |HotSet(similar, seed, true)|,
      |AddedSet(seed, Before)|, |AddedSet(seed, Within)|, |AddedSet(seed, Behind)|,
      |InteractSet(seed, Before)|, |InteractSet(seed, Within)|, |InteractSet(seed, Behind)|)
  }

  lemma HotSetContains(similar: int -> bool, seed: int, deleted: bool)
    requires Seed(seed) && similar(17)
    ensures Range(if deleted then HOT else 0, if deleted then 2 * HOT else HOT) <= HotSet(similar, seed, deleted)
  {
    hide RecordOf, HotQuery;
    var low, high := if deleted then HOT else 0, if deleted then 2 * HOT else HOT;
    forall i | i in Range(low, high) ensures i in HotSet(similar, seed, deleted) {
      InRange(low, i, high);
      HotCohortMatches(seed, i);
      HotMatchesGate(similar, RecordOf(seed, i), deleted);
      assert Customer(i);
    }
  }

  lemma HotMatchesGate(similar: int -> bool, r: Record, deleted: bool)
    requires similar(17) && HotQuery(r) && r.isDeleted == deleted
    ensures GateHot(similar, r, deleted) && WindowOf(APRIL * DAY, ADDED_END, r.addedAt) == Within
            && WindowOf(MAY * DAY, INTERACT_END, r.lastInteractAt) == Within
  {
  }

  lemma HotSizes(similar: int -> bool, seed: int, deleted: bool)
    requires Seed(seed) && similar(17)
    ensures |HotSet(similar, seed, deleted)| >= HOT
  {
    hide HotSet;
    HotSetContains(similar, seed, deleted);
    RangeSize(0, HOT);
    RangeSize(HOT, 2 * HOT);
    Sets.SubsetSize(Range(if deleted then HOT else 0, if deleted then 2 * HOT else HOT), HotSet(similar, seed, deleted));
  }

  lemma AllTagRowsDiffer(seed: int)
    requires Seed(seed)
    ensures |Sets.Members(TagRows(seed))| == CUSTOMERS * TAGS_PER_CUSTOMER
  {
    hide RecordOf, TagRow;
    var rows := TagRows(seed);
    forall k, m | 0 <= k < m < |rows| ensures rows[k] != rows[m] { TagRowsDiffer(seed, k, m); }
    Sets.MembersSize(rows);
  }

  /** Three sets that split the customers. */
  lemma ThreeParts(a: set<int>, b: set<int>, c: set<int>)
    requires a !! b && a !! c && b !! c && a + b + c == Range(0, CUSTOMERS)
    ensures |a| + |b| + |c| == CUSTOMERS
  {
    RangeSize(0, CUSTOMERS);
    assert |a + b| == |a| + |b| && (a + b) !! c;
    assert |a + b + c| == |a + b| + |c|;
  }

  lemma AddedSplits(seed: int)
    requires Seed(seed)
    ensures |AddedSet(seed, Before)| + |AddedSet(seed, Within)| + |AddedSet(seed, Behind)| == CUSTOMERS
  {
    hide AddedWindow;
    forall i ensures i in Range(0, CUSTOMERS) <==> i in AddedSet(seed, Before) + AddedSet(seed, Within) + AddedSet(seed, Behind) {
      InRange(0, i, CUSTOMERS);
      assert 0 <= i < CUSTOMERS ==> Customer(i);
    }
    ThreeParts(AddedSet(seed, Before), AddedSet(seed, Within), AddedSet(seed, Behind));
  }

  lemma InteractSplits(seed: int)
    requires Seed(seed)
    ensures |InteractSet(seed, Before)| + |InteractSet(seed, Within)| + |InteractSet(seed, Behind)| == CUSTOMERS
  {
    hide InteractWindow;
    forall i ensures i in Range(0, CUSTOMERS) <==> i in InteractSet(seed, Before) + InteractSet(seed, Within) + InteractSet(seed, Behind) {
      InRange(0, i, CUSTOMERS);
      assert 0 <= i < CUSTOMERS ==> Customer(i);
    }
    ThreeParts(InteractSet(seed, Before), InteractSet(seed, Within), InteractSet(seed, Behind));
  }

  /** The first hot customer lies within both windows. */
  lemma SomeoneWithin(seed: int)
    requires Seed(seed)
    ensures 0 in AddedSet(seed, Within) && 0 in InteractSet(seed, Within)
  {
    hide RecordOf, HotQuery;
    HotCohortMatches(seed, 0);
    HotMatchesGate(k => k == 17, RecordOf(seed, 0), false);
    assert Customer(0);
  }

  lemma Inhabited(s: set<int>)
    ensures |s| > 0 <==> s != {}
  {
  }

  /** Some customer was added, or last seen, on either side of the windows. */
  ghost predicate Spread(seed: int)
    requires Seed(seed)
  {
    && (exists i :: Customer(i) && AddedWindow(seed, i) == Before) && (exists i :: Customer(i) && AddedWindow(seed, i) == Behind)
    && (exists i :: Customer(i) && InteractWindow(seed, i) == Before) && (exists i :: Customer(i) && InteractWindow(seed, i) == Behind)
  }

  lemma SpreadIff(seed: int)
    requires Seed(seed)
    ensures Spread(seed) <==> AddedSet(seed, Before) != {} && AddedSet(seed, Behind) != {} && InteractSet(seed, Before) != {} && InteractSet(seed, Behind) != {}
  {
    hide AddedWindow, InteractWindow;
    if Spread(seed) {
      var a :| Customer(a) && AddedWindow(seed, a) == Before;
      var b :| Customer(b) && AddedWindow(seed, b) == Behind;
      var c :| Customer(c) && InteractWindow(seed, c) == Before;
      var d :| Customer(d) && InteractWindow(seed, d) == Behind;
      assert a in AddedSet(seed, Before) && b in AddedSet(seed, Behind) && c in InteractSet(seed, Before) && d in InteractSet(seed, Behind);
    }
    if AddedSet(seed, Before) != {} && AddedSet(seed, Behind) != {} && InteractSet(seed, Before) != {} && InteractSet(seed, Behind) != {} {
      var a := Sets.Pick(AddedSet(seed, Before));
      var b := Sets.Pick(AddedSet(seed, Behind));
      var c := Sets.Pick(InteractSet(seed, Before));
      var d := Sets.Pick(InteractSet(seed, Behind));
    }
  }

  /** Main result: of all the gate's demands on the dataset only two can fail for the generated data of any
      64-bit seed: the count of deleted customers, which the wrapping of negative seeds can spoil, and
      that customers lie on both sides of both time windows. */
  lemma DatasetAcceptedIff(similar: int -> bool, seed: int)
    requires Seed(seed) && similar(17)
    ensures PerfEvidence.DatasetValid(DatasetOf(similar, seed)) <==> Spread(seed) && |Early(seed, 0)| == |Early(seed, WRAP)|
  {
    hide DeletedSet, HotSet, AddedSet, InteractSet, TagRows, Spread, Early;
    RangeSize(0, CUSTOMERS);
    AllTagRowsDiffer(seed);
    DeletedExactlyIff(seed);
    HotSizes(similar, seed, false);
    HotSizes(similar, seed, true);
    AddedSplits(seed);
    InteractSplits(seed);
    SomeoneWithin(seed);
    SpreadIff(seed);
    Inhabited(AddedSet(seed, Before));
    Inhabited(AddedSet(seed, Within));
    Inhabited(AddedSet(seed, Behind));
    Inhabited(InteractSet(seed, Before));
    Inhabited(InteractSet(seed, Within));
    Inhabited(InteractSet(seed, Behind));
  }

  /** For a seed that is not negative only the spread is left. */
  lemma DatasetAccepted(similar: int -> bool, seed: int)
    requires 0 <= seed < 0x8000_0000_0000_0000 && similar(17)
    ensures PerfEvidence.DatasetValid(DatasetOf(similar, seed)) <==> Spread(seed)
  {
    hide DatasetOf, Early, Spread;
    DatasetAcceptedIff(similar, seed);
    NothingEarly(seed, 0);
    NothingEarly(seed, WRAP);
  }
}
