/** The 40 domains of the final migration manifest and the 36 scopes they are reconciled in
    (finalDomainSpecs, validateFinalMigrationManifest and finalDomainsByReconciliationScope in
    cmd/aicrm-v1-domain-import/final_reconcile.go). */
module FinalDomains {
  import Counting
  import DomainNames
  import Sets
  import Sorting
  import Text

  const DOMAIN_COUNT := 40

  /** A domain is the position of its name in the sorted table. */
  type Domain = d: int | 0 <= d < DOMAIN_COUNT

  const CAMPAIGN: Domain := 4
  const MEDIA: Domain := 26
  const RADAR: Domain := 31
  const SHOP: Domain := 34
  const SURVEY: Domain := 37

  /** The five domains of the first package, imported under one version. */
  predicate Shared(d: Domain) {
    d in {CAMPAIGN, MEDIA, RADAR, SHOP, SURVEY}
  }

  // ----- Import versions

  type Version = string

  /** The version of a domain: its name between a fixed prefix and suffix, or "domain" in place of a shared one. */
  function VersionOf(d: Domain): Version {
    Framed(Stem(d))
  }

  function Stem(d: Domain): string {
    if Shared(d) then "domain" else DomainNames.NameOf(d)
  }

  function Framed(stem: string): Version {
    "v1-" + stem + "-a1"
  }

  lemma FramedInjective(a: string, b: string)
    ensures Framed(a) == Framed(b) ==> a == b
  {
    if Framed(a) == Framed(b) {
      assert ("v1-" + a + "-a1")[3..] == a + "-a1" && ("v1-" + b + "-a1")[3..] == b + "-a1";
      assert (a + "-a1")[..|a + "-a1"| - 3] == a && (b + "-a1")[..|b + "-a1"| - 3] == b;
    }
  }

  /** Two domains are imported under one version exactly when they are the same or both shared. */
  lemma SameVersionIff(a: Domain, b: Domain)
    ensures VersionOf(a) == VersionOf(b) <==> a == b || (Shared(a) && Shared(b))
  {
    hide Framed, DomainNames.NameOf;
    FramedInjective(Stem(a), Stem(b));
    DomainNames.NoDomainNamedDomain(a);
    DomainNames.NoDomainNamedDomain(b);
    SameName(a, b);
  }

  lemma SameName(a: Domain, b: Domain)
    ensures DomainNames.NameOf(a) == DomainNames.NameOf(b) <==> a == b
  {
    hide DomainNames.NameOf;
    if a < b { DomainNames.NamesAscend(a, b); }
    if b < a { DomainNames.NamesAscend(b, a); }
  }

  const SCOPE_COUNT := 36

  function AllVersions(): set<Version> {
    set d: int | 0 <= d < DOMAIN_COUNT :: VersionOf(d)
  }

  lemma VersionsOfDomains(v: Version)
    ensures v in AllVersions() <==> exists d: Domain :: VersionOf(d) == v
  {
    hide VersionOf;
    forall d: Domain ensures VersionOf(d) in AllVersions() {}
  }

  /** One domain for each version: all but four of the shared ones. */
  function Representatives(): set<int> {
    Counting.Range(0, DOMAIN_COUNT) - {MEDIA, RADAR, SHOP, SURVEY}
  }

  lemma ThirtySixRepresentatives()
    ensures |Representatives()| == SCOPE_COUNT
  {
    var all, dropped := Counting.Range(0, DOMAIN_COUNT), {MEDIA, RADAR, SHOP, SURVEY};
    Counting.RangeSize(0, DOMAIN_COUNT);
    forall d | d in dropped ensures d in all { Counting.InRange(0, d, DOMAIN_COUNT); }
    assert |dropped| == 4 by {
      assert |{MEDIA}| == 1 && |{MEDIA, RADAR}| == 2 && |{MEDIA, RADAR, SHOP}| == 3;
    }
    assert |all| == |all - dropped| + |dropped| by { assert all == (all - dropped) + dropped; }
  }

  predicate Names(names: set<int>) {
    forall d :: d in names ==> 0 <= d < DOMAIN_COUNT && d !in {MEDIA, RADAR, SHOP, SURVEY}
  }

  function VersionsIn(domains: set<int>): set<Version>
    requires Names(domains)
  {
    set d | d in domains :: VersionOf(d)
  }

  lemma {:induction false} AsManyVersions(domains: set<int>)
    requires Names(domains)
    ensures |VersionsIn(domains)| == |domains|
    decreases |domains|
  {
    hide VersionOf;
    if domains == {} {
      assert VersionsIn(domains) == {};
    } else {
      var d := Sets.Pick(domains);
      var rest := domains - {d};
      assert |rest| == |domains| - 1 && domains == rest + {d};
      AsManyVersions(rest);
      assert VersionsIn(domains) == VersionsIn(rest) + {VersionOf(d)};
      forall e | e in rest ensures VersionOf(e) != VersionOf(d) { SameVersionIff(e, d); }
      assert VersionOf(d) !in VersionsIn(rest);
    }
  }

  /** The 40 domains are imported under 36 versions. */
  lemma ThirtySixVersions()
    ensures |AllVersions()| == SCOPE_COUNT
  {
    hide VersionOf;
    var domains := Representatives();
    forall d ensures d in domains <==> 0 <= d < DOMAIN_COUNT && d !in {MEDIA, RADAR, SHOP, SURVEY} { Counting.InRange(0, d, DOMAIN_COUNT); }
    ThirtySixRepresentatives();
    AsManyVersions(domains);
    forall d: Domain ensures VersionOf(d) in VersionsIn(domains) {
      if d !in domains { SameVersionIff(d, CAMPAIGN); assert CAMPAIGN in domains; } else { assert d in domains; }
    }
    assert AllVersions() == VersionsIn(domains);
  }

  // ----- The manifest

  /** A manifest domain: one the table knows, or any other text. */
  datatype Entry = Known(domain: Domain) | Other(text: string)

  datatype Manifest = Manifest(schemaFrom: int, schemaTo: int, source: string, connection: string, effects: string, phases: seq<string>, domains: seq<Entry>)

  predicate HeaderValid(m: Manifest) {
    && m.schemaFrom == 132 && m.schemaTo == 145
    && m.source == "V2 sealed archive only" && m.connection == "forbidden" && m.effects == "disabled"
    && |m.phases| == 4 && m.phases[0] == "import" && m.phases[1] == "reconcile" && m.phases[2] == "final-project" && m.phases[3] == "final-reconcile"
  }

  predicate ManifestValid(m: Manifest) {
    && HeaderValid(m) && |m.domains| == DOMAIN_COUNT
    && (forall i :: 0 <= i < |m.domains| ==> m.domains[i].Known?)
    && Sets.Distinct(m.domains)
  }

  method ValidateManifest(m: Manifest) returns (ok: bool)
    ensures ok <==> ManifestValid(m)
  {
    hide HeaderValid;
    if !HeaderValid(m) { return false; }
    if |m.domains| != DOMAIN_COUNT { return false; }
    var seen: set<Entry> := {};
    assert m.domains[..0] == [];
    for i := 0 to |m.domains|
      invariant seen == Sets.Members(m.domains[..i]) && Sets.Distinct(m.domains[..i])
      invariant forall j :: 0 <= j < i ==> m.domains[j].Known?
    {
      Sets.MembersOfMore(m.domains, i);
      if m.domains[i] in seen {
        RepeatsLater(m.domains, i);
        return false;
      }
      if m.domains[i].Other? { return false; }
      seen := seen + {m.domains[i]};
    }
    assert m.domains[..|m.domains|] == m.domains;
    Sets.MembersSize(m.domains);
    ok := |seen| == DOMAIN_COUNT;
  }

  lemma RepeatsLater(list: seq<Entry>, i: nat)
    requires i < |list| && list[i] in Sets.Members(list[..i])
    ensures !Sets.Distinct(list)
  {
    var j :| 0 <= j < i && list[..i][j] == list[i];
    assert list[j] == list[i];
  }

  function DomainsOf(m: Manifest): (list: seq<Domain>)
    requires ManifestValid(m)
    ensures |list| == DOMAIN_COUNT && forall i :: 0 <= i < |list| ==> m.domains[i] == Known(list[i])
  {
    seq(|m.domains|, i requires 0 <= i < |m.domains| => m.domains[i].domain)
  }

  /** A valid manifest, whatever its order, lists every domain of the table exactly once. */
  lemma ListsEveryDomain(m: Manifest, d: Domain)
    requires ManifestValid(m)
    ensures d in DomainsOf(m) && Sets.Distinct(DomainsOf(m))
  {
    var list := DomainsOf(m);
    assert Sets.Distinct(list) by {
      forall i, j | 0 <= i < j < |list| ensures list[i] != list[j] { assert m.domains[i] != m.domains[j]; }
    }
    var numbers: seq<int> := list;
    Sets.MembersSize(numbers);
    Counting.RangeSize(0, DOMAIN_COUNT);
    forall x | x in Sets.Members(numbers) ensures x in Counting.Range(0, DOMAIN_COUNT) { Counting.InRange(0, x, DOMAIN_COUNT); }
    Sets.SubsetSize(Sets.Members(numbers), Counting.Range(0, DOMAIN_COUNT));
    Counting.InRange(0, d, DOMAIN_COUNT);
  }

  // ----- Grouping

  /** The order of the names, as sort.Strings compares them. */
  predicate Before(a: Domain, b: Domain) {
    Text.Leq(DomainNames.NameOf(a), DomainNames.NameOf(b))
  }

  /** The table is sorted. */
  lemma BeforeIff(a: Domain, b: Domain)
    ensures Before(a, b) <==> a <= b
  {
    hide DomainNames.NameOf;
    Text.LeqTotal(DomainNames.NameOf(a), DomainNames.NameOf(b));
    SameName(a, b);
    if a < b { DomainNames.NamesAscend(a, b); }
    if b < a { DomainNames.NamesAscend(b, a); }
  }

  /** Every name before the next, byte by byte. */
  ghost predicate InNameOrder(list: seq<Domain>) {
    forall i, j :: 0 <= i < j < |list| ==> Text.Less(DomainNames.NameOf(list[i]), DomainNames.NameOf(list[j]))
  }

  lemma NameOrderIff(list: seq<Domain>)
    ensures InNameOrder(list) <==> Sets.Ascending(list)
  {
    hide DomainNames.NameOf;
    forall i, j | 0 <= i < j < |list|
      ensures Text.Less(DomainNames.NameOf(list[i]), DomainNames.NameOf(list[j])) <==> list[i] < list[j]
    {
      BeforeIff(list[i], list[j]);
      SameName(list[i], list[j]);
    }
  }

  lemma BeforeIsOrder()
    ensures Sorting.TotalOrder(Before)
  {
    hide Before;
    forall a, b ensures Before(a, b) <==> a <= b { BeforeIff(a, b); }
  }

  /** The domains of one version, in the order given. */
  function Members(list: seq<Domain>, v: Version): seq<Domain> {
    if list == [] then []
    else
      var front, last := Members(list[..|list| - 1], v), list[|list| - 1];
      if VersionOf(last) == v then front + [last] else front
  }

  lemma {:induction false} MembersAre(list: seq<Domain>, v: Version, d: Domain)
    ensures d in Members(list, v) <==> d in list && VersionOf(d) == v
  {
    hide VersionOf;
    if list != [] {
      var front := list[..|list| - 1];
      MembersAre(front, v, d);
      assert list == front + [list[|list| - 1]];
    }
  }

  lemma {:induction false} MembersDistinct(list: seq<Domain>, v: Version)
    requires Sets.Distinct(list)
    ensures Sets.Distinct(Members(list, v))
  {
    hide VersionOf;
    if list != [] {
      var front, last := list[..|list| - 1], list[|list| - 1];
      MembersDistinct(front, v);
      MembersAre(front, v, last);
    }
  }

  function Versions(list: seq<Domain>): set<Version> {
    set d | d in list :: VersionOf(d)
  }

  /** Each version with its domains. */
  function Gathered(list: seq<Domain>): map<Version, seq<Domain>> {
    map v | v in Versions(list) :: Members(list, v)
  }

  /** finalDomainsByReconciliationScope: each version with its domains in the order of their names. */
  function Grouped(list: seq<Domain>): map<Version, seq<Domain>> {
    map v | v in Versions(list) :: Sorting.Sort(Members(list, v), Before)
  }

  method Gather(list: seq<Domain>) returns (groups: map<Version, seq<Domain>>)
    ensures groups == Gathered(list)
  {
    hide VersionOf, Gathered, Members;
    groups := map[];
    assert list[..0] == [];
    NothingGathered();
    for i := 0 to |list|
      invariant groups == Gathered(list[..i])
    {
      var v := VersionOf(list[i]);
      assert list[..i + 1] == list[..i] + [list[i]];
      MoreGathered(list[..i], list[i]);
      groups := groups[v := (if v in groups then groups[v] else []) + [list[i]]];
    }
    assert list[..|list|] == list;
  }

  method GroupByVersion(list: seq<Domain>) returns (groups: map<Version, seq<Domain>>)
    ensures groups == Grouped(list)
  {
    hide VersionOf, Members, Before;
    groups := Gather(list);
    var rest := groups.Keys;
    while rest != {}
      invariant rest <= groups.Keys == Versions(list)
      invariant forall v :: v in rest ==> groups[v] == Members(list, v)
      invariant forall v :: v in groups.Keys - rest ==> groups[v] == Sorting.Sort(Members(list, v), Before)
      decreases |rest|
    {
      var v := Sets.Any(rest);
      assert |rest - {v}| == |rest| - 1;
      groups := groups[v := Sorting.Sort(groups[v], Before)];
      rest := rest - {v};
    }
  }

  lemma NothingGathered()
    ensures Gathered([]) == map[]
  {
  }

  lemma MoreGathered(list: seq<Domain>, d: Domain)
    ensures var before, v := Gathered(list), VersionOf(d);
            Gathered(list + [d]) == before[v := (if v in before then before[v] else []) + [d]]
  {
    hide VersionOf;
    var more := list + [d];
    assert more[..|more| - 1] == list;
    assert Versions(more) == Versions(list) + {VersionOf(d)};
    NoMembers(list, VersionOf(d));
  }

  lemma {:induction false} NoMembers(list: seq<Domain>, v: Version)
    ensures v !in Versions(list) ==> Members(list, v) == []
  {
    hide VersionOf;
    if list != [] && v !in Versions(list) {
      var front := list[..|list| - 1];
      assert list == front + [list[|list| - 1]];
      assert v !in Versions(front);
      NoMembers(front, v);
    }
  }

  lemma SortedGroup(list: seq<Domain>)
    requires Sets.Distinct(list)
    ensures InNameOrder(Sorting.Sort(list, Before)) && Sets.Ascending(Sorting.Sort(list, Before)) && Sets.Distinct(Sorting.Sort(list, Before))
    ensures forall d :: d in Sorting.Sort(list, Before) <==> d in list
  {
    hide Before, InNameOrder, Sorting.Sort, Sorting.TotalOrder;
    BeforeIsOrder();
    var ordered := Sorting.Sort(list, Before);
    Sorting.SortCorrect(list, Before);
    Sorting.SortMembers(list, Before);
    Sets.SameMembersDistinct(list, ordered);
    SortedAscends(ordered);
    NameOrderIff(ordered);
  }

  lemma SortedAscends(ordered: seq<Domain>)
    requires Sorting.Sorted(ordered, Before) && Sets.Distinct(ordered)
    ensures Sets.Ascending(ordered)
  {
    hide Before;
    forall i, j | 0 <= i < j < |ordered| ensures ordered[i] < ordered[j] {
      assert Before(ordered[i], ordered[j]) && ordered[i] != ordered[j];
      BeforeIff(ordered[i], ordered[j]);
    }
  }

  /** Main result: every domain of a valid manifest lies in exactly one group, the groups are the 36
      versions, and none repeats a domain. */
  lemma GroupsPartition(m: Manifest)
    requires ManifestValid(m)
    ensures var groups := Grouped(DomainsOf(m));
            && groups.Keys == AllVersions() && |groups| == SCOPE_COUNT
            && (forall v, d :: v in groups ==> (d in groups[v] <==> VersionOf(d) == v))
            && (forall v :: v in groups ==> Sets.Distinct(groups[v]) && InNameOrder(groups[v]) && groups[v] != [])
  {
    hide VersionOf, Before, InNameOrder;
    var list := DomainsOf(m);
    var groups := Grouped(list);
    forall d: Domain ensures d in list { ListsEveryDomain(m, d); }
    ListsEveryDomain(m, CAMPAIGN);
    forall v ensures v in groups <==> v in AllVersions() { VersionsOfDomains(v); }
    assert groups.Keys == AllVersions();
    ThirtySixVersions();
    forall v | v in groups
      ensures Sets.Distinct(groups[v]) && InNameOrder(groups[v]) && groups[v] != []
      ensures forall d :: d in groups[v] <==> VersionOf(d) == v
    {
      MembersDistinct(list, v);
      SortedGroup(Members(list, v));
      forall d ensures d in groups[v] <==> VersionOf(d) == v { MembersAre(list, v, d); }
      var d: Domain :| d in list && VersionOf(d) == v;
      assert d in groups[v];
    }
  }

  /** The grouping does not depend on the order in which the manifest lists the domains. */
  lemma GroupsIgnoreOrder(m: Manifest, n: Manifest)
    requires ManifestValid(m) && ManifestValid(n)
    ensures Grouped(DomainsOf(m)) == Grouped(DomainsOf(n))
  {
    hide Grouped, VersionOf, InNameOrder;
    GroupsPartition(m);
    GroupsPartition(n);
    var a, b := Grouped(DomainsOf(m)), Grouped(DomainsOf(n));
    forall v | v in a ensures a[v] == b[v] {
      forall d: Domain ensures d in a[v] <==> d in b[v] {
        assert (d in a[v] <==> VersionOf(d) == v) && (d in b[v] <==> VersionOf(d) == v);
      }
      NameOrderIff(a[v]);
      NameOrderIff(b[v]);
      SameList(a[v], b[v]);
    }
  }

  lemma SameList(x: seq<Domain>, y: seq<Domain>)
    requires Sets.Ascending(x) && Sets.Ascending(y)
    requires forall d :: d in x <==> d in y
    ensures x == y
  {
    var a: seq<int>, b: seq<int> := x, y;
    var members := Sets.Members(a);
    forall i: int ensures (i in a <==> i in members) && (i in b <==> i in members) {
      if 0 <= i < DOMAIN_COUNT { var d: Domain := i; assert d in x <==> d in y; }
    }
    Sets.AscendUnique(members, a);
    Sets.AscendUnique(members, b);
  }
}
