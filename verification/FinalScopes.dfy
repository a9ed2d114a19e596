/** What a sealed scope of the final migration proves about the receipts themselves
    (preflightFinalMigration and reconcileFinalDomain in cmd/aicrm-v1-domain-import/final_reconcile.go). */
module FinalScopes {
  import opened Wrappers
  import opened FinalDomains
  import opened FinalReconcile
  import Sets

  // ----- Stored reconciliations

  /** The scope has a stored reconciliation whose numbers agree with each other. */
  predicate SealedAs(s: Snapshot, v: Version, c: Counts) {
    && v in s.stored && s.stored[v] == Stored(c, true)
    && c.selected == c.receipts && c.receipts == c.imported + c.archived + c.quarantined && c.receipts == c.verified
  }

  lemma SealedIs(s: Snapshot, v: Version, c: Counts)
    ensures StoredFor(s, v) == Found(c) <==> SealedAs(s, v, c)
    ensures StoredFor(s, v).Missing? <==> v !in s.stored
  {
  }

  // ----- Domains with source tables

  function At(m: map<string, nat>, t: string): nat {
    if t in m then m[t] else 0
  }

  /** No tables have no rows, and one more table adds its rows. */
  lemma {:induction false} SumOfMore(m: map<string, nat>, tables: seq<string>, t: string)
    ensures SumOver(m, []) == 0
    ensures SumOver(m, tables + [t]) == SumOver(m, tables) + At(m, t)
  {
    var more := tables + [t];
    if tables == [] {
      assert more[1..] == [];
    } else {
      assert more[1..] == tables[1..] + [t] && more[0] == tables[0];
      SumOfMore(m, tables[1..], t);
    }
  }

  /** Which domains have source tables, and that no two share one. */
  lemma TablesOfShared(d: Domain, e: Domain, t: string)
    ensures SourceTables(d) != [] <==> Shared(d)
    ensures d != e && t in SourceTables(d) ==> t !in SourceTables(e)
  {
  }

  const PACKAGE_TABLES := {
    "public/campaigns", "public/campaign_steps", "public/questionnaires", "public/questionnaire_questions", "public/questionnaire_options",
    "public/questionnaire_submissions", "public/questionnaire_submission_answers", "public/miniprogram_library", "public/radar_links",
    "public/wechat_shop_orders"}

  lemma PackageTables(t: string)
    ensures t in PACKAGE_TABLES <==> exists d: Domain :: t in SourceTables(d)
  {
    if t in PACKAGE_TABLES {
      assert t in SourceTables(CAMPAIGN) || t in SourceTables(SURVEY) || t in SourceTables(MEDIA) || t in SourceTables(RADAR) || t in SourceTables(SHOP);
    }
  }

  // ----- One domain

  /** What is proved of a domain that is counted: its receipts are sound, verified and counted; a domain with
      source tables has a receipt for each archived row, any other agrees with its stored reconciliation. */
  ghost predicate DomainProved(s: Snapshot, d: Domain, c: Counts) {
    && AllSound(s.receipts, d) && CountedAs(s.receipts, d, c) && c.receipts == c.verified
    && (exists stored :: SealedAs(s, VersionOf(d), stored)
         && (SourceTables(d) == [] ==>
               && c.selected == stored.selected && c.receipts == stored.receipts && c.imported == stored.imported
               && c.archived == stored.archived && c.quarantined == stored.quarantined && c.verified == stored.verified))
    && (SourceTables(d) != [] ==>
          && (forall t :: t in SourceTables(d) ==> t in s.tables)
          && c.selected == c.receipts == SumOver(s.tables, SourceTables(d)) == SumOver(s.records, SourceTables(d)))
  }


  /** A domain is counted as c exactly when c is proved of it. */
  lemma DomainCountsIff(s: Snapshot, d: Domain, c: Counts)
    ensures DomainCounts(s, d) == Some(c) <==> DomainProved(s, d, c)
  {
    hide CountedAs, AllSound, Current, StoredFor, VersionOf, SourceTables, SumOver;
    CurrentCounts(s, d);
    forall stored { SealedIs(s, VersionOf(d), stored); }
    if DomainProved(s, d, c) {
      var stored :| SealedAs(s, VersionOf(d), stored);
      SelectedApart(s.receipts, d, c, Current(s, d).value);
    }
    if DomainCounts(s, d) == Some(c) {
      SelectedFree(s.receipts, d, Current(s, d).value, c.selected);
      assert SealedAs(s, VersionOf(d), StoredFor(s, VersionOf(d)).counts);
    }
  }

  lemma SelectedFree(receipts: seq<Receipt>, d: Domain, c: Counts, n: int)
    requires CountedAs(receipts, d, c)
    ensures CountedAs(receipts, d, c.(selected := n))
  {
    hide Sets.Where;
  }

  lemma SelectedApart(receipts: seq<Receipt>, d: Domain, a: Counts, b: Counts)
    requires CountedAs(receipts, d, a) && CountedAs(receipts, d, b)
    ensures a == b.(selected := a.selected)
  {
    hide Sets.Where;
  }

  // ----- A whole scope

  predicate UnderAny(list: seq<Domain>, r: Receipt) {
    exists d :: d in list && Under(d, r)
  }

  /** Two domains of a version share no receipt. */
  lemma UnderApart(d: Domain, e: Domain, r: Receipt)
    requires d != e && VersionOf(d) == VersionOf(e)
    ensures !(Under(d, r) && Under(e, r))
  {
    hide VersionOf, SourceTables;
    SameVersionIff(d, e);
    TablesOfShared(d, e, r.table);
    TablesOfShared(e, d, r.table);
  }

  lemma CountedEither(receipts: seq<Receipt>, p: Receipt -> bool, q: Receipt -> bool, either: Receipt -> bool, a: Counts, b: Counts)
    requires CountedIn(receipts, p, a) && CountedIn(receipts, q, b)
    requires (forall r :: either(r) <==> p(r) || q(r)) && forall r :: !(p(r) && q(r))
    ensures CountedIn(receipts, either, Plus(a, b))
  {
    hide Sets.Where;
    Sets.WhereEither(receipts, p, q, either);
    Sets.WhereEither(receipts, (r: Receipt) => p(r) && r.disposition == Imported, (r: Receipt) => q(r) && r.disposition == Imported,
                     (r: Receipt) => either(r) && r.disposition == Imported);
    Sets.WhereEither(receipts, (r: Receipt) => p(r) && r.disposition == Archived, (r: Receipt) => q(r) && r.disposition == Archived,
                     (r: Receipt) => either(r) && r.disposition == Archived);
    Sets.WhereEither(receipts, (r: Receipt) => p(r) && r.disposition == Quarantined, (r: Receipt) => q(r) && r.disposition == Quarantined,
                     (r: Receipt) => either(r) && r.disposition == Quarantined);
    Sets.WhereEither(receipts, (r: Receipt) => p(r) && r.verified, (r: Receipt) => q(r) && r.verified, (r: Receipt) => either(r) && r.verified);
  }

  lemma CountedNowhere(receipts: seq<Receipt>, meant: Receipt -> bool)
    requires forall r :: !meant(r)
    ensures CountedIn(receipts, meant, ZERO)
  {
    assert Sets.Where(receipts, meant) == {};
    assert Sets.Where(receipts, (r: Receipt) => meant(r) && r.disposition == Imported) == {};
    assert Sets.Where(receipts, (r: Receipt) => meant(r) && r.disposition == Archived) == {};
    assert Sets.Where(receipts, (r: Receipt) => meant(r) && r.disposition == Quarantined) == {};
    assert Sets.Where(receipts, (r: Receipt) => meant(r) && r.verified) == {};
  }

  /** The total of some domains of one version counts their receipts. */
  lemma {:induction false} TotalCounts(s: Snapshot, list: seq<Domain>, v: Version, c: Counts)
    requires Sets.Distinct(list) && (forall d :: d in list ==> VersionOf(d) == v) && Total(s, list) == Some(c)
    ensures CountedIn(s.receipts, (r: Receipt) => UnderAny(list, r), c)
    ensures forall d :: d in list ==> AllSound(s.receipts, d)
    decreases |list|
  {
    hide CountedIn, AllSound, Under, VersionOf, DomainCounts, Plus;
    if list == [] {
      CountedNowhere(s.receipts, (r: Receipt) => UnderAny(list, r));
    } else {
      var d, rest := list[0], list[1..];
      assert list == [d] + rest;
      TotalCounts(s, rest, v, Total(s, rest).value);
      DomainCountsIff(s, d, DomainCounts(s, d).value);
      forall r ensures !(Under(d, r) && UnderAny(rest, r)) {
        if Under(d, r) && UnderAny(rest, r) {
          var e :| e in rest && Under(e, r);
          UnderApart(d, e, r);
        }
      }
      CountedEither(s.receipts, (r: Receipt) => Under(d, r), (r: Receipt) => UnderAny(rest, r), (r: Receipt) => UnderAny(list, r),
                    DomainCounts(s, d).value, Total(s, rest).value);
    }
  }

  /** A receipt of the scope: written under its version, and for the shared one about a table of the package. */
  predicate InScope(v: Version, r: Receipt) {
    r.version == v && (v == VersionOf(CAMPAIGN) ==> r.table in PACKAGE_TABLES)
  }

  lemma ScopeOf(list: seq<Domain>, v: Version, r: Receipt)
    requires list != [] && forall d: Domain :: d in list <==> VersionOf(d) == v
    ensures UnderAny(list, r) <==> InScope(v, r)
  {
    hide VersionOf, SourceTables, PACKAGE_TABLES;
    var e := list[0];
    PackageTables(r.table);
    forall d: Domain ensures SourceTables(d) != [] <==> Shared(d) { TablesOfShared(d, d, r.table); }
    SameVersionIff(e, CAMPAIGN);
    if InScope(v, r) {
      if v == VersionOf(CAMPAIGN) {
        var d: Domain :| r.table in SourceTables(d);
        SameVersionIff(d, CAMPAIGN);
        assert d in list && Under(d, r);
      } else {
        assert Under(e, r);
      }
    }
    if UnderAny(list, r) {
      var d :| d in list && Under(d, r);
      SameVersionIff(d, CAMPAIGN);
    }
  }

  /** Main result: after a preflight that passes, the numbers stored for a sealed scope are the numbers of its
      receipts, all of them sound and verified, and a scope that is not sealed has no receipt. */
  lemma SealedScopesAreCounted(m: Manifest, s: Snapshot, v: Version)
    requires ManifestValid(m) && PreflightPasses(s, Grouped(DomainsOf(m))) && v in AllVersions()
    ensures v !in s.stored ==> forall r :: r in s.receipts ==> r.version != v
    ensures v in s.stored ==>
              var c := s.stored[v].counts;
              && s.stored[v].digestValid && CountedIn(s.receipts, (r: Receipt) => InScope(v, r), c)
              && c.selected == c.receipts == c.verified == c.imported + c.archived + c.quarantined
              && forall r :: r in s.receipts && InScope(v, r) ==> Sound(r)
  {
    hide ManifestValid, Grouped, AllVersions, VersionOf, Total, CountedIn, InScope, UnderAny, Sound, Under, InNameOrder;
    GroupsPartition(m);
    var list := Grouped(DomainsOf(m))[v];
    assert ScopeSettled(s, v, list);
    if v in s.stored {
      var c := s.stored[v].counts;
      SealedIs(s, v, c);
      TotalCounts(s, list, v, c);
      forall r ensures UnderAny(list, r) <==> InScope(v, r) { ScopeOf(list, v, r); }
      SameCount(s.receipts, (r: Receipt) => UnderAny(list, r), (r: Receipt) => InScope(v, r), c);
      forall r | r in s.receipts && InScope(v, r) ensures Sound(r) { SoundUnder(s.receipts, list, r); }
    }
  }

  /** Exactly which manifests are accepted: one header, and the 40 domains in any order. */
  lemma ManifestIff(m: Manifest)
    ensures ManifestValid(m) <==>
            && m == Manifest(132, 145, "V2 sealed archive only", "forbidden", "disabled",
                             ["import", "reconcile", "final-project", "final-reconcile"], m.domains)
            && |m.domains| == 40 && forall d: Domain :: Known(d) in m.domains
  {
    hide Sets.Distinct;
    HeaderIff(m);
    if ManifestValid(m) {
      forall d: Domain ensures Known(d) in m.domains {
        ListsEveryDomain(m, d);
        var i :| 0 <= i < |DomainsOf(m)| && DomainsOf(m)[i] == d;
        assert m.domains[i] == Known(d);
      }
    }
    if |m.domains| == 40 && forall d: Domain :: Known(d) in m.domains { EveryDomainOnce(m.domains); }
  }

  lemma HeaderIff(m: Manifest)
    ensures HeaderValid(m) <==> m == Manifest(132, 145, "V2 sealed archive only", "forbidden", "disabled",
                                              ["import", "reconcile", "final-project", "final-reconcile"], m.domains)
  {
    if HeaderValid(m) { assert m.phases == ["import", "reconcile", "final-project", "final-reconcile"]; }
  }

  /** Forty entries that name every domain name each of them once, and nothing else. */
  lemma EveryDomainOnce(entries: seq<Entry>)
    requires |entries| == 40 && forall d: Domain :: Known(d) in entries
    ensures Sets.Distinct(entries) && forall i :: 0 <= i < |entries| ==> entries[i].Known?
  {
    var known := set d: Domain | 0 <= d < 40 :: Known(d);
    KnownEntries(40);
    forall e | e in known ensures e in Sets.Members(entries) { }
    Sets.MembersSize(entries);
    Sets.SubsetSize(known, Sets.Members(entries));
    forall i | 0 <= i < |entries| ensures entries[i].Known? { assert entries[i] in Sets.Members(entries); }
  }

  lemma {:induction false} KnownEntries(n: nat)
    requires n <= 40
    ensures |set d: Domain | 0 <= d < n :: Known(d)| == n
  {
    var all := set d: Domain | 0 <= d < n :: Known(d);
    if n == 0 {
      assert all == {};
    } else {
      KnownEntries(n - 1);
      var fewer := set d: Domain | 0 <= d < n - 1 :: Known(d);
      var last: Domain := n - 1;
      assert all == fewer + {Known(last)};
    }
  }

  /** Exactly when a preflight passes: the archive is ready, every receipt and every stored reconciliation is of
      one of the domains' versions, and every version is either sealed with the total of its domains or
      without receipts. */
  lemma PreflightIff(m: Manifest, s: Snapshot)
    requires ManifestValid(m)
    ensures PreflightPasses(s, Grouped(DomainsOf(m))) <==>
            && s.archiveReady
            && (forall r :: r in s.receipts ==> exists d: Domain :: VersionOf(d) == r.version)
            && (forall v :: v in s.stored ==> exists d: Domain :: VersionOf(d) == v)
            && (forall v :: v in AllVersions() ==>
                  if v in s.stored
                  then SealedAs(s, v, s.stored[v].counts) && v in Grouped(DomainsOf(m)) && Total(s, Grouped(DomainsOf(m))[v]) == Some(s.stored[v].counts)
                  else forall r :: r in s.receipts ==> r.version != v)
  {
    hide ManifestValid, Grouped, AllVersions, VersionOf, Total, SealedAs, InNameOrder, StoredFor;
    GroupsPartition(m);
    forall v ensures v in AllVersions() <==> exists d: Domain :: VersionOf(d) == v { VersionsOfDomains(v); }
    var groups := Grouped(DomainsOf(m));
    forall v | v in groups
      ensures ScopeSettled(s, v, groups[v]) <==>
              if v in s.stored then SealedAs(s, v, s.stored[v].counts) && Total(s, groups[v]) == Some(s.stored[v].counts)
              else forall r :: r in s.receipts ==> r.version != v
    {
      if v in s.stored { StoredCounts(s, v); } else { SealedIs(s, v, ZERO); }
    }
  }

  lemma StoredCounts(s: Snapshot, v: Version)
    requires v in s.stored
    ensures if SealedAs(s, v, s.stored[v].counts) then StoredFor(s, v) == Found(s.stored[v].counts) else StoredFor(s, v).Invalid?
  {
  }

  lemma SoundUnder(receipts: seq<Receipt>, list: seq<Domain>, r: Receipt)
    requires r in receipts && UnderAny(list, r) && forall d :: d in list ==> AllSound(receipts, d)
    ensures Sound(r)
  {
    hide Under, Sound;
  }

  lemma SameCount(receipts: seq<Receipt>, p: Receipt -> bool, q: Receipt -> bool, c: Counts)
    requires CountedIn(receipts, p, c) && forall r :: p(r) == q(r)
    ensures CountedIn(receipts, q, c)
  {
    hide Sets.Where;
    Sets.WhereAlike(receipts, p, q);
    Sets.WhereAlike(receipts, (r: Receipt) => p(r) && r.disposition == Imported, (r: Receipt) => q(r) && r.disposition == Imported);
    Sets.WhereAlike(receipts, (r: Receipt) => p(r) && r.disposition == Archived, (r: Receipt) => q(r) && r.disposition == Archived);
    Sets.WhereAlike(receipts, (r: Receipt) => p(r) && r.disposition == Quarantined, (r: Receipt) => q(r) && r.disposition == Quarantined);
    Sets.WhereAlike(receipts, (r: Receipt) => p(r) && r.verified, (r: Receipt) => q(r) && r.verified);
  }
}
