/** Resolving historical external users to identities (loadContactReferenceIdentityMaps, resolveIdentity
    and resolveIdentityMap in cmd/aicrm-v1-domain-import/contact_reference_references.go). */
module ContactReference {
  import opened Wrappers
  import Sets
  import Text

  type Digest = string

  /** A row of the archived identity maps with the digests of its envelope. */
  datatype ArchivedRow = ArchivedRow(ordinal: int, text: string, key: Digest, payload: Digest, field: Digest)

  /** What adapting a row yields: the fact's source and the roots that are redacted in it. */
  datatype Fact = Fact(sourceID: int, key: Digest, payload: Digest, field: Digest, redacted: seq<string>)

  /** The fields decoded from the JSON of a row. */
  datatype Decoded = Decoded(id: int, corpID: string, externalUserID: string)

  datatype Candidate = Candidate(sourceID: int, key: Digest, payload: Digest, field: Digest, corpID: string, externalUserID: string)

  /** The code outside this model: utf8.ValidString, the adapter of a row and encoding/json. */
  datatype Reader = Reader(utf8: string -> bool, adapt: ArchivedRow -> Option<Fact>, decode: string -> Option<Decoded>)

  predicate Zero(d: Digest) {
    forall i :: 0 <= i < |d| ==> d[i] == '\0'
  }

  /** The row adapts and parses, and fact, JSON and envelope agree on its id and its three non-zero digests. */
  predicate Consistent(reader: Reader, row: ArchivedRow) {
    match (reader.adapt(row), reader.decode(row.text))
    case (Some(fact), Some(decoded)) =>
      && decoded.id == fact.sourceID && !Zero(fact.key) && !Zero(fact.payload) && !Zero(fact.field)
      && fact.key == row.key && fact.payload == row.payload && fact.field == row.field
    case _ => false
  }

  /** utf8 is utf8.ValidString. */
  predicate CanonicalText(utf8: string -> bool, value: string) {
    value != "" && utf8(value) && '\0' !in value && Text.Trimmed(value)
  }

  predicate Indexed(reader: Reader, row: ArchivedRow)
    requires Consistent(reader, row)
  {
    var fact, decoded := reader.adapt(row).value, reader.decode(row.text).value;
    && CanonicalText(reader.utf8, decoded.corpID) && CanonicalText(reader.utf8, decoded.externalUserID)
    && "corp_id" !in fact.redacted && "external_userid" !in fact.redacted
  }

  function CandidateOf(reader: Reader, row: ArchivedRow): Candidate
    requires Consistent(reader, row)
  {
    var decoded := reader.decode(row.text).value;
    Candidate(decoded.id, row.key, row.payload, row.field, decoded.corpID, decoded.externalUserID)
  }

  /** The candidate a row contributes, if any. */
  function Contribution(reader: Reader, row: ArchivedRow): Option<Candidate> {
    if Consistent(reader, row) && Indexed(reader, row) then Some(CandidateOf(reader, row)) else None
  }

  /** The plain scan: the candidates of one external user, in archive order. */
  function Scan(reader: Reader, rows: seq<ArchivedRow>, user: string): seq<Candidate> {
    if rows == [] then []
    else
      var front, last := Scan(reader, rows[..|rows| - 1], user), Contribution(reader, rows[|rows| - 1]);
      if last.Some? && last.value.externalUserID == user then front + [last.value] else front
  }

  function At(index: map<string, seq<Candidate>>, user: string): seq<Candidate> {
    if user in index then index[user] else []
  }

  predicate ArchiveValid(reader: Reader, rows: seq<ArchivedRow>, expected: int) {
    && |rows| == expected
    && (forall i :: 0 <= i < |rows| ==> rows[i].ordinal == i + 1 && Consistent(reader, rows[i]))
    && (forall i, j :: 0 <= i < j < |rows| ==> rows[i].key != rows[j].key)
  }

  ghost predicate Matches(reader: Reader, index: map<string, seq<Candidate>>, rows: seq<ArchivedRow>) {
    forall user :: At(index, user) == Scan(reader, rows, user)
  }

  function Added(reader: Reader, index: map<string, seq<Candidate>>, row: ArchivedRow): map<string, seq<Candidate>> {
    match Contribution(reader, row)
    case Some(c) => index[c.externalUserID := At(index, c.externalUserID) + [c]]
    case None => index
  }

  lemma OneMoreRow(reader: Reader, index: map<string, seq<Candidate>>, rows: seq<ArchivedRow>, i: nat)
    requires i < |rows| && Matches(reader, index, rows[..i])
    ensures Matches(reader, Added(reader, index, rows[i]), rows[..i + 1])
  {
    hide Contribution;
    assert rows[..i + 1][..i] == rows[..i];
    var more := Added(reader, index, rows[i]);
    forall user ensures At(more, user) == Scan(reader, rows[..i + 1], user) {
      assert At(index, user) == Scan(reader, rows[..i], user);
    }
  }

  lemma NothingIndexed(reader: Reader)
    ensures Matches(reader, map[], [])
  {
  }

  function KeysOf(rows: seq<ArchivedRow>): set<Digest> {
    set row | row in rows :: row.key
  }

  lemma NothingArchived(reader: Reader)
    ensures ArchiveValid(reader, [], 0) && KeysOf([]) == {}
  {
  }

  lemma OneMoreValid(reader: Reader, rows: seq<ArchivedRow>, i: nat, expected: int)
    requires i < |rows|
    ensures KeysOf(rows[..i + 1]) == KeysOf(rows[..i]) + {rows[i].key}
    ensures ArchiveValid(reader, rows[..i + 1], i + 1) <==>
            ArchiveValid(reader, rows[..i], i) && rows[i].ordinal == i + 1 && Consistent(reader, rows[i]) && rows[i].key !in KeysOf(rows[..i])
    ensures ArchiveValid(reader, rows, expected) ==> ArchiveValid(reader, rows[..i + 1], i + 1)
  {
    hide Consistent;
    var less, more := rows[..i], rows[..i + 1];
    assert more == less + [rows[i]];
    if rows[i].key in KeysOf(less) {
      var row :| row in less && row.key == rows[i].key;
      var j :| 0 <= j < i && less[j] == row;
      assert more[j].key == more[i].key;
    }
    assert forall j :: 0 <= j < i ==> more[j] == less[j] && less[j] in less;
  }

  lemma RightLength(reader: Reader, rows: seq<ArchivedRow>, expected: int)
    ensures ArchiveValid(reader, rows, expected) <==> ArchiveValid(reader, rows, |rows|) && |rows| == expected
  {
    hide Consistent;
  }

  // ----- The archive and its candidates, row by row

  predicate NonZero(d: Digest) {
    exists i :: 0 <= i < |d| && d[i] != '\0'
  }

  /** The row adapts and parses to one id, and fact and envelope share three digests that are not zero. */
  predicate Agrees(reader: Reader, row: ArchivedRow) {
    && reader.adapt(row).Some? && reader.decode(row.text).Some?
    && reader.adapt(row).value.sourceID == reader.decode(row.text).value.id
    && reader.adapt(row).value.key == row.key && reader.adapt(row).value.payload == row.payload && reader.adapt(row).value.field == row.field
    && NonZero(row.key) && NonZero(row.payload) && NonZero(row.field)
  }

  predicate Sound(reader: Reader, rows: seq<ArchivedRow>, expected: int) {
    && |rows| == expected
    && (forall i :: 0 <= i < |rows| ==> rows[i].ordinal == i + 1 && Agrees(reader, rows[i]))
    && (forall i, j :: 0 <= i < |rows| && 0 <= j < |rows| && rows[i].key == rows[j].key ==> i == j)
  }

  predicate Usable(utf8: string -> bool, text: string) {
    |text| > 0 && utf8(text) && (forall i :: 0 <= i < |text| ==> text[i] != '\0') && Text.Trimmed(text)
  }

  /** The row offers its external user as a candidate: both texts are usable and neither is redacted. */
  predicate Offers(reader: Reader, row: ArchivedRow, c: Candidate) {
    && Agrees(reader, row)
    && var fact, decoded := reader.adapt(row).value, reader.decode(row.text).value;
       && c.sourceID == decoded.id && c.corpID == decoded.corpID && c.externalUserID == decoded.externalUserID
       && c.key == row.key && c.payload == row.payload && c.field == row.field
       && Usable(reader.utf8, decoded.corpID) && Usable(reader.utf8, decoded.externalUserID)
       && (forall i :: 0 <= i < |fact.redacted| ==> fact.redacted[i] != "corp_id" && fact.redacted[i] != "external_userid")
  }

  lemma AgreesIs(reader: Reader, row: ArchivedRow)
    ensures Consistent(reader, row) <==> Agrees(reader, row)
  {
  }

  lemma SoundIs(reader: Reader, rows: seq<ArchivedRow>, expected: int)
    ensures ArchiveValid(reader, rows, expected) <==> Sound(reader, rows, expected)
  {
    hide Consistent, Agrees;
    forall i | 0 <= i < |rows| { AgreesIs(reader, rows[i]); }
  }

  lemma UsableIs(utf8: string -> bool, text: string)
    ensures CanonicalText(utf8, text) <==> Usable(utf8, text)
  {
    hide Text.Trimmed;
  }

  lemma OffersIs(reader: Reader, row: ArchivedRow, c: Candidate)
    ensures Contribution(reader, row) == Some(c) <==> Offers(reader, row, c)
  {
    hide Consistent, Agrees, CanonicalText, Usable;
    AgreesIs(reader, row);
    AgreementHas(reader, row);
    if Agrees(reader, row) {
      UsableIs(reader.utf8, reader.decode(row.text).value.corpID);
      UsableIs(reader.utf8, reader.decode(row.text).value.externalUserID);
    }
  }

  lemma AgreementHas(reader: Reader, row: ArchivedRow)
    ensures Agrees(reader, row) ==> reader.adapt(row).Some? && reader.decode(row.text).Some?
  {
  }

  /** A user's candidates are what the rows offer for that user. */
  ghost predicate OffersExactly(reader: Reader, index: map<string, seq<Candidate>>, rows: seq<ArchivedRow>) {
    forall user, c :: IndexedRight(reader, index, rows, user, c)
  }

  ghost predicate IndexedRight(reader: Reader, index: map<string, seq<Candidate>>, rows: seq<ArchivedRow>, user: string, c: Candidate) {
    (user in index && c in index[user]) <==> c.externalUserID == user && exists row :: row in rows && Offers(reader, row, c)
  }

  lemma MatchesOffers(reader: Reader, index: map<string, seq<Candidate>>, rows: seq<ArchivedRow>)
    requires Matches(reader, index, rows)
    ensures OffersExactly(reader, index, rows)
  {
    hide Scan, Contribution, Offers;
    forall user, c ensures IndexedRight(reader, index, rows, user, c) {
      assert At(index, user) == Scan(reader, rows, user);
      ScanMembers(reader, rows, user, c);
      forall row { OffersIs(reader, row, c); }
    }
  }

  /** Main result: the index built in one pass gives, for every external user, the same candidates in
      the same order as a scan of the archive for that user. */
  method LoadIdentityMaps(reader: Reader, rows: seq<ArchivedRow>, expected: int) returns (index: Option<map<string, seq<Candidate>>>)
    requires expected >= 0
    ensures index.Some? <==> ArchiveValid(reader, rows, expected)
    ensures index.Some? ==> Matches(reader, index.value, rows)
    ensures index.Some? <==> Sound(reader, rows, expected)
    ensures index.Some? ==> OffersExactly(reader, index.value, rows)
  {
    hide Sound, OffersExactly;
    SoundIs(reader, rows, expected);
    hide Indexed, Matches, Scan, CandidateOf, At, ArchiveValid, KeysOf;
    NothingIndexed(reader);
    NothingArchived(reader);
    assert rows[..0] == [];
    var result: map<string, seq<Candidate>> := map[];
    var seen: set<Digest> := {};
    var ordinal := 1;
    for i := 0 to |rows|
      invariant ordinal == i + 1
      invariant ArchiveValid(reader, rows[..i], i) && seen == KeysOf(rows[..i]) && |seen| == i
      invariant Matches(reader, result, rows[..i])
    {
      var row := rows[i];
      OneMoreRow(reader, result, rows, i);
      OneMoreValid(reader, rows, i, expected);
      if row.ordinal != ordinal { return None; }
      ordinal := ordinal + 1;
      var adapted, parsed := reader.adapt(row), reader.decode(row.text);
      if adapted.None? { return None; }
      if parsed.None? { return None; }
      var fact, decoded := adapted.value, parsed.value;
      if decoded.id != fact.sourceID || Zero(fact.key) || Zero(fact.payload) || Zero(fact.field)
         || fact.key != row.key || fact.payload != row.payload || fact.field != row.field || fact.key in seen {
        return None;
      }
      seen := seen + {fact.key};
      if Indexed(reader, row) {
        var c := CandidateOf(reader, row);
        result := result[c.externalUserID := At(result, c.externalUserID) + [c]];
      }
    }
    assert rows[..|rows|] == rows;
    RightLength(reader, rows, expected);
    if ordinal - 1 != expected || |seen| != expected { return None; }
    MatchesOffers(reader, result, rows);
    index := Some(result);
  }

  // ----- What the imported contact data says about one candidate

  datatype Disposition = Imported | Quarantined | OtherDisposition

  datatype Lineage = Lineage(targetID: int, lastRun: int, payload: Digest, field: Digest)

  datatype RowReceipt = RowReceipt(disposition: Disposition, payload: Digest, field: Digest)

  datatype Evidence = Evidence(identityID: int, scope: string, externalUserID: string, keyVersion: int, assurance: string)

  /** The records found under a candidate's source, and the evidence under a target and a source; a source
      key is derived from the source id, which stands for it. */
  datatype Contacts = Contacts(lineages: map<int, Lineage>, receipts: map<int, RowReceipt>, evidence: map<(int, int), Evidence>)

  datatype Resolver = Resolver(corpID: string, run: int, keyVersion: int)

  datatype Identity = Identity(id: int, assurance: string)

  datatype Answer = Conflict | NotFound | Found(identity: Identity)

  function ResolveMap(r: Resolver, db: Contacts, c: Candidate): Answer {
    if c.sourceID !in db.lineages then
      if c.sourceID !in db.receipts then NotFound
      else
        var receipt := db.receipts[c.sourceID];
        if receipt.disposition == Quarantined && |receipt.payload| == 32 && |receipt.field| == 32 then NotFound else Conflict
    else if c.sourceID !in db.receipts then Conflict
    else
      var lineage, receipt := db.lineages[c.sourceID], db.receipts[c.sourceID];
      if lineage.targetID < 1 || lineage.lastRun != r.run || |lineage.payload| != 32 || |lineage.field| != 32
         || receipt.disposition != Imported || lineage.payload != receipt.payload || lineage.field != receipt.field
         || (lineage.targetID, c.sourceID) !in db.evidence
      then Conflict
      else
        var e := db.evidence[(lineage.targetID, c.sourceID)];
        if e.identityID != lineage.targetID || e.scope != "wecom-corp:" + c.corpID || e.externalUserID != c.externalUserID
           || e.keyVersion != r.keyVersion || e.assurance !in {"declared", "verified"}
        then Conflict
        else Found(Identity(lineage.targetID, e.assurance))
  }

  /** A candidate is found when its lineage and receipt were imported by the run with the same two 32-byte
      digests, and the identity it leads to has declared or verified evidence of the very user, under the
      resolver's key version. */
  lemma FoundIff(r: Resolver, db: Contacts, c: Candidate, x: Identity)
    ensures ResolveMap(r, db, c) == Found(x) <==>
            && c.sourceID in db.lineages && c.sourceID in db.receipts && (x.id, c.sourceID) in db.evidence
            && var lineage, receipt, e := db.lineages[c.sourceID], db.receipts[c.sourceID], db.evidence[(x.id, c.sourceID)];
               && lineage.targetID == x.id >= 1 && lineage.lastRun == r.run && |lineage.payload| == 32 == |lineage.field|
               && receipt.disposition == Imported && receipt.payload == lineage.payload && receipt.field == lineage.field
               && e.identityID == x.id && e.scope == "wecom-corp:" + c.corpID && e.externalUserID == c.externalUserID && e.keyVersion == r.keyVersion
               && e.assurance == x.assurance && (x.assurance == "declared" || x.assurance == "verified")
  {
  }

  /** It is passed over when nothing was imported for it, or it was quarantined properly; anything else is
      a conflict. */
  lemma PassedOverIff(r: Resolver, db: Contacts, c: Candidate)
    ensures ResolveMap(r, db, c) == NotFound <==>
            && c.sourceID !in db.lineages
            && (c.sourceID in db.receipts ==>
                  && db.receipts[c.sourceID].disposition == Quarantined
                  && |db.receipts[c.sourceID].payload| == 32 && |db.receipts[c.sourceID].field| == 32)
  {
  }

  // ----- Resolving a user

  datatype Resolution = Failed | Unresolved | Resolved(identity: Identity)

  function FoundAmong(r: Resolver, db: Contacts, candidates: seq<Candidate>): set<Identity> {
    set c | c in candidates && ResolveMap(r, db, c).Found? :: ResolveMap(r, db, c).identity
  }

  /** A single identity is found and nothing speaks against a candidate. */
  ghost predicate Resolves(r: Resolver, db: Contacts, candidates: seq<Candidate>, x: Identity) {
    && (forall c :: c in candidates ==> c.corpID == r.corpID && ResolveMap(r, db, c) != Conflict)
    && FoundAmong(r, db, candidates) == {x}
  }

  predicate OneCorporation(r: Resolver, candidates: seq<Candidate>) {
    forall c :: c in candidates ==> c.corpID == r.corpID
  }

  ghost predicate Conflicting(r: Resolver, db: Contacts, candidates: seq<Candidate>) {
    exists c :: c in candidates && ResolveMap(r, db, c) == Conflict
  }

  /** The outcome as a function of which candidates there are. A candidate of another corporation leaves
      the user unresolved even when a candidate conflicts. */
  ghost function Outcome(r: Resolver, db: Contacts, candidates: seq<Candidate>): Resolution {
    if !OneCorporation(r, candidates) then Unresolved
    else if Conflicting(r, db, candidates) then Failed
    else if x :| FoundAmong(r, db, candidates) == {x} then Resolved(x)
    else Unresolved
  }

  lemma ResolvedIff(r: Resolver, db: Contacts, candidates: seq<Candidate>, x: Identity)
    ensures Outcome(r, db, candidates) == Resolved(x) <==> Resolves(r, db, candidates, x)
  {
    hide ResolveMap, FoundAmong;
    if FoundAmong(r, db, candidates) == {x} {
      forall y | FoundAmong(r, db, candidates) == {y} ensures y == x { assert y in {x}; }
    }
  }

  /** Resolving fails exactly when all candidates are of the corporation and one of them conflicts. */
  lemma FailedIff(r: Resolver, db: Contacts, candidates: seq<Candidate>)
    ensures Outcome(r, db, candidates) == Failed <==>
            && (forall i :: 0 <= i < |candidates| ==> candidates[i].corpID == r.corpID)
            && exists i :: 0 <= i < |candidates| && ResolveMap(r, db, candidates[i]) == Conflict
  {
    hide ResolveMap;
    if c :| c in candidates && ResolveMap(r, db, c) == Conflict {
      var i :| 0 <= i < |candidates| && candidates[i] == c;
    }
  }

  method ResolveIdentity(utf8: string -> bool, r: Resolver, db: Contacts, index: map<string, seq<Candidate>>, user: string) returns (result: Resolution)
    ensures result == if CanonicalText(utf8, user) then Outcome(r, db, At(index, user)) else Unresolved
  {
    hide ResolveMap, CanonicalText, Outcome, FoundAmong;
    if !CanonicalText(utf8, user) { return Unresolved; }
    var candidates := At(index, user);
    NoneFound(r, db);
    if |candidates| == 0 {
      assert candidates == [];
      UnresolvedIff(r, db, candidates, {});
      return Unresolved;
    }
    for i := 0 to |candidates|
      invariant forall j :: 0 <= j < i ==> candidates[j].corpID == r.corpID
    {
      if candidates[i].corpID != r.corpID {
        OtherCorporation(r, db, candidates, i);
        return Unresolved;
      }
    }
    var resolved: set<Identity> := {};
    assert candidates[..0] == [];
    for i := 0 to |candidates|
      invariant forall j :: 0 <= j < i ==> ResolveMap(r, db, candidates[j]) != Conflict
      invariant resolved == FoundAmong(r, db, candidates[..i])
    {
      var answer := ResolveMap(r, db, candidates[i]);
      if answer.Conflict? {
        ConflictFails(r, db, candidates, i);
        return Failed;
      }
      OneMoreFound(r, db, candidates, i);
      if answer.Found? { resolved := resolved + {answer.identity}; }
    }
    assert candidates[..|candidates|] == candidates;
    UnresolvedIff(r, db, candidates, resolved);
    if |resolved| != 1 { return Unresolved; }
    var value := Sets.Any(resolved);
    Sets.AtMostOne(resolved, value);
    ResolvedIff(r, db, candidates, value);
    result := Resolved(value);
  }

  lemma NoneFound(r: Resolver, db: Contacts)
    ensures FoundAmong(r, db, []) == {}
  {
  }

  lemma OneMoreFound(r: Resolver, db: Contacts, candidates: seq<Candidate>, i: nat)
    requires i < |candidates|
    ensures FoundAmong(r, db, candidates[..i + 1]) ==
            FoundAmong(r, db, candidates[..i])
            + if ResolveMap(r, db, candidates[i]).Found? then {ResolveMap(r, db, candidates[i]).identity} else {}
  {
    hide ResolveMap;
    assert candidates[..i + 1] == candidates[..i] + [candidates[i]];
  }

  lemma OtherCorporation(r: Resolver, db: Contacts, candidates: seq<Candidate>, i: nat)
    requires i < |candidates| && candidates[i].corpID != r.corpID
    ensures Outcome(r, db, candidates) == Unresolved
  {
    assert candidates[i] in candidates;
  }

  lemma ConflictFails(r: Resolver, db: Contacts, candidates: seq<Candidate>, i: nat)
    requires i < |candidates| && OneCorporation(r, candidates) && ResolveMap(r, db, candidates[i]) == Conflict
    ensures Outcome(r, db, candidates) == Failed
  {
    hide ResolveMap;
    assert candidates[i] in candidates;
  }

  lemma UnresolvedIff(r: Resolver, db: Contacts, candidates: seq<Candidate>, found: set<Identity>)
    requires OneCorporation(r, candidates) && !Conflicting(r, db, candidates) && FoundAmong(r, db, candidates) == found
    ensures Outcome(r, db, candidates) == Unresolved <==> |found| != 1
  {
    hide ResolveMap, FoundAmong;
    if |found| == 1 {
      var x := Sets.Pick(found);
      Sets.AtMostOne(found, x);
    }
  }

  /** The order of the candidates does not matter, nor how often one is repeated: not for what is
      found, and not for failing either. */
  lemma OrderDoesNotMatter(r: Resolver, db: Contacts, a: seq<Candidate>, b: seq<Candidate>)
    requires forall c :: c in a <==> c in b
    ensures Outcome(r, db, a) == Outcome(r, db, b)
  {
    hide ResolveMap;
    assert FoundAmong(r, db, a) == FoundAmong(r, db, b);
    assert OneCorporation(r, a) == OneCorporation(r, b);
    assert Conflicting(r, db, a) == Conflicting(r, db, b);
  }

  lemma {:induction false} ScanMembers(reader: Reader, rows: seq<ArchivedRow>, user: string, c: Candidate)
    ensures c in Scan(reader, rows, user) <==> c.externalUserID == user && exists row :: row in rows && Contribution(reader, row) == Some(c)
  {
    hide Contribution;
    if rows != [] {
      var front := rows[..|rows| - 1];
      ScanMembers(reader, front, user, c);
      assert rows == front + [rows[|rows| - 1]];
    }
  }

  /** Two archives with the same rows give every user the same outcome, whatever their order. */
  lemma ArchiveOrderDoesNotMatter(reader: Reader, r: Resolver, db: Contacts, a: seq<ArchivedRow>, b: seq<ArchivedRow>, user: string)
    requires forall row :: row in a <==> row in b
    ensures Outcome(r, db, Scan(reader, a, user)) == Outcome(r, db, Scan(reader, b, user))
  {
    hide Contribution, Outcome, Scan;
    forall c ensures c in Scan(reader, a, user) <==> c in Scan(reader, b, user) {
      ScanMembers(reader, a, user, c);
      ScanMembers(reader, b, user, c);
    }
    OrderDoesNotMatter(r, db, Scan(reader, a, user), Scan(reader, b, user));
  }
}
