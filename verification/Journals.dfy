/** The append-only receipt journal and the conversions of the customer timeline, audience activity and
    WeCom contact journals to and from it (cmd/aicrm-v1-domain-import/customer_timeline_history.go,
    audience_activity_history.go and wecom_contact_history.go over internal/v1domain/journal.go). */
module Journals {
  import opened Wrappers
  import Decimal
  import Hex

  /** 32 raw bytes. */
  type Digest = string

  const ZERO: Digest := "\0\0\0\0\0\0\0\0\0\0\0\0\0\0\0\0\0\0\0\0\0\0\0\0\0\0\0\0\0\0\0\0"

  predicate IsDigest(d: Digest) {
    |d| == 32 && Hex.IsBytes(d)
  }

  /** A metadata value: text, or any other JSON. */
  datatype Meta = Text(s: string) | OtherJSON

  datatype Terminal = Terminal(
    key: Digest, payload: Digest, disposition: string, reason: string, targetID: string, targetDigest: Digest, metadata: map<string, Meta>)

  datatype Loaded<+T> = Failed | Absent | Present(value: T)

  const FIELD := "field_hmac"

  // ----- Text forms

  function SourceIdentifier(key: Digest): string
    requires IsDigest(key)
  {
    Hex.Encode(key)
  }

  function ParseSourceIdentifier(text: string): (key: Option<Digest>)
    ensures key.Some? ==> IsDigest(key.value)
  {
    match Hex.Decode(text)
    case Some(b) => if |b| == 32 then Some(b) else None
    case None => None
  }

  function Metadata(field: Digest): map<string, Meta>
    requires IsDigest(field)
  {
    map[FIELD := Text(Hex.Encode(field))]
  }

  /** The field digest that metadata holds: one entry, 64 characters of hex, the same when printed again. */
  function FieldOf(metadata: map<string, Meta>): (field: Option<Digest>)
    ensures field.Some? ==> IsDigest(field.value) && field.value != ZERO
  {
    if |metadata| != 1 || FIELD !in metadata || !metadata[FIELD].Text? || |metadata[FIELD].s| != 64 then None
    else
      match Hex.Decode(metadata[FIELD].s)
      case None => None
      case Some(raw) => if |raw| != 32 || Hex.Encode(raw) != metadata[FIELD].s || raw == ZERO then None else Some(raw)
  }

  /** A key is read back from its identifier. */
  lemma IdentifierRoundTrip(key: Digest)
    requires IsDigest(key)
    ensures ParseSourceIdentifier(SourceIdentifier(key)) == Some(key)
  {
    hide Hex.Encode, Hex.Decode;
    Hex.DecodeOfEncode(key);
  }

  /** Identifiers may be written in either case; only the lower-case one is what is printed. */
  lemma PrintedIdentifier(text: string)
    ensures ParseSourceIdentifier(text).Some? && SourceIdentifier(ParseSourceIdentifier(text).value) == text
            <==> |text| == 64 && Hex.LowerHex(text)
  {
    hide Hex.Encode, Hex.Decode, Hex.LowerHex;
    Hex.EncodeOfDecode(text);
  }

  lemma OneEntry(metadata: map<string, Meta>, k: string)
    requires |metadata| == 1 && k in metadata
    ensures metadata == map[k := metadata[k]]
  {
    assert |metadata.Keys - {k}| == |metadata.Keys| - 1;
    assert metadata.Keys == {k};
  }

  /** Main result: metadata yields a field digest exactly when it is the one canonical record of that
      non-zero digest. */
  lemma OnlyCanonicalMetadata(metadata: map<string, Meta>, field: Digest)
    ensures FieldOf(metadata) == Some(field) <==> IsDigest(field) && field != ZERO && metadata == Metadata(field)
  {
    hide Hex.Encode, Hex.Decode;
    if FieldOf(metadata) == Some(field) { OneEntry(metadata, FIELD); }
    if IsDigest(field) && field != ZERO && metadata == Metadata(field) {
      Hex.DecodeOfEncode(field);
      assert |metadata.Keys| == 1;
    }
  }

  // ----- The journal

  predicate Recordable(t: Terminal) {
    match t.disposition
    case "import" => t.reason == "" && t.targetID != "" && t.targetDigest != ZERO
    case "archive" => t.reason != "" && t.targetID == "" && t.targetDigest == ZERO
    case "quarantine" => t.reason != "" && t.targetID == "" && t.targetDigest == ZERO
    case _ => false
  }

  class Journal {
    var entries: map<Digest, Terminal>

    constructor ()
      ensures entries == map[]
    {
      entries := map[];
    }

    /** Stores a terminal decision once; recording it again is allowed only if it is the same. */
    method Record(t: Terminal) returns (ok: bool)
      modifies this
      ensures ok <==> Recordable(t) && (t.key !in old(entries) || old(entries)[t.key] == t)
      ensures entries == if ok then old(entries)[t.key := t] else old(entries)
    {
      if !Recordable(t) { return false; }
      if t.key !in entries {
        entries := entries[t.key := t];
      }
      ok := entries[t.key] == t;
    }
  }

  function Lookup(entries: map<Digest, Terminal>, source: string): Loaded<Terminal> {
    match ParseSourceIdentifier(source)
    case None => Failed
    case Some(key) => if key in entries then Present(entries[key]) else Absent
  }

  // ----- Customer timeline

  datatype Receipt = Receipt(source: string, payload: Digest, targetID: int, targetDigest: Digest)

  /** The stored target row a receipt speaks of, with the digest computed from it. */
  datatype Target = Target(id: int, key: Digest, payload: Digest, field: Digest, digest: Option<Digest>)

  predicate Int64(i: int) {
    Decimal.MIN_INT64 <= i <= Decimal.MAX_INT64
  }

  /** strconv.ParseInt followed by the comparison with the printed number. */
  function CanonicalID(text: string): (id: Option<int>)
    ensures id.Some? ==> id.value >= 1
  {
    match Decimal.ParseInt(text)
    case None => None
    case Some(n) => if n >= 1 && Decimal.FormatInt(n) == text then Some(n) else None
  }

  /** The plain strconv.ParseInt that the audience journal uses. */
  function LooseID(text: string): (id: Option<int>)
    ensures id.Some? ==> id.value >= 1
  {
    match Decimal.ParseInt(text)
    case None => None
    case Some(n) => if n >= 1 then Some(n) else None
  }

  /** What is recorded for an import receipt whose target checks out. The timeline journal also refuses
      the all-zero source key, the audience journal does not. */
  function CheckedTerminal(r: Receipt, targets: int -> Option<Target>, zeroKey: bool): (t: Option<Terminal>)
    ensures t.Some? ==> ParseSourceIdentifier(r.source) == Some(t.value.key)
  {
    if r.targetID < 1 || r.payload == ZERO || r.targetDigest == ZERO then None
    else
      match (ParseSourceIdentifier(r.source), targets(r.targetID))
      case (Some(key), Some(target)) =>
        if (key == ZERO && !zeroKey) || target.id != r.targetID || target.key != key || target.payload != r.payload || target.field == ZERO
           || !IsDigest(target.field) || target.digest != Some(r.targetDigest)
        then None
        else Some(Terminal(key, r.payload, "import", "", Decimal.FormatInt(r.targetID), r.targetDigest, Metadata(target.field)))
      case _ => None
  }

  function ReceiptTerminal(r: Receipt, targets: int -> Option<Target>): (t: Option<Terminal>)
    ensures t.Some? ==> ParseSourceIdentifier(r.source) == Some(t.value.key)
  {
    CheckedTerminal(r, targets, false)
  }

  function TimelineReceipt(source: string, t: Terminal): Option<Receipt> {
    match (ParseSourceIdentifier(source), CanonicalID(t.targetID), FieldOf(t.metadata))
    case (Some(key), Some(id), Some(field)) =>
      if key == ZERO || t.key != key || t.payload == ZERO || t.disposition != "import" || t.reason != "" || t.targetDigest == ZERO then None
      else Some(Receipt(source, t.payload, id, t.targetDigest))
    case _ => None
  }

  function LoadTimeline(entries: map<Digest, Terminal>, source: string): Loaded<Receipt> {
    match Lookup(entries, source)
    case Failed => Failed
    case Absent => Absent
    case Present(t) =>
      match TimelineReceipt(source, t)
      case Some(r) => Present(r)
      case None => Failed
  }

  lemma IDRoundTrip(id: int)
    requires 1 <= id <= Decimal.MAX_INT64
    ensures CanonicalID(Decimal.FormatInt(id)) == Some(id) && LooseID(Decimal.FormatInt(id)) == Some(id)
  {
    Decimal.ParseOfFormat(id);
  }

  lemma TimelineRoundTrip(r: Receipt, targets: int -> Option<Target>)
    requires ReceiptTerminal(r, targets).Some? && Int64(r.targetID)
    ensures TimelineReceipt(r.source, ReceiptTerminal(r, targets).value) == Some(r)
  {
    hide Hex.Encode, Decimal.FormatInt, Decimal.ParseInt, CanonicalID, FieldOf, ParseSourceIdentifier;
    IDRoundTrip(r.targetID);
    OnlyCanonicalMetadata(ReceiptTerminal(r, targets).value.metadata, targets(r.targetID).value.field);
  }

  /** A terminal reads as a timeline receipt only in its one canonical form. */
  lemma TimelineReadsCanonical(source: string, t: Terminal)
    requires TimelineReceipt(source, t).Some?
    ensures
      var r, field := TimelineReceipt(source, t).value, FieldOf(t.metadata);
      && r.source == source && ParseSourceIdentifier(source) == Some(t.key) && field.Some?
      && t == Terminal(t.key, r.payload, "import", "", Decimal.FormatInt(r.targetID), r.targetDigest, Metadata(field.value))
  {
    hide Hex.Encode, Decimal.FormatInt, Decimal.ParseInt, FieldOf, ParseSourceIdentifier, Metadata;
    OnlyCanonicalMetadata(t.metadata, FieldOf(t.metadata).value);
  }

  /** RecordCustomerTimelineHistory: what was recorded is what is loaded afterwards. */
  method RecordTimeline(journal: Journal, r: Receipt, replayed: bool, targets: int -> Option<Target>) returns (ok: bool)
    requires Int64(r.targetID)
    modifies journal
    ensures ok <==> !replayed && ReceiptTerminal(r, targets).Some?
                    && var t := ReceiptTerminal(r, targets).value;
                       t.key !in old(journal.entries) || old(journal.entries)[t.key] == t
    ensures ok ==> LoadTimeline(journal.entries, r.source) == Present(r)
    ensures journal.entries == if ok then old(journal.entries)[ReceiptTerminal(r, targets).value.key := ReceiptTerminal(r, targets).value] else old(journal.entries)
  {
    hide ParseSourceIdentifier, TimelineReceipt;
    if replayed { return false; }
    var t := ReceiptTerminal(r, targets);
    if t.None? { return false; }
    ImportRecordable(r, targets);
    TimelineRoundTrip(r, targets);
    ok := journal.Record(t.value);
  }

  lemma ImportRecordable(r: Receipt, targets: int -> Option<Target>)
    requires ReceiptTerminal(r, targets).Some?
    ensures Recordable(ReceiptTerminal(r, targets).value)
  {
  }

  /** A decision as the importer sees it; kind is empty where there is only one. */
  datatype Decision = Decision(kind: string, key: Digest, payload: Digest, field: Digest, disposition: string, reason: string, targetID: int, targetDigest: Digest)

  const TIMELINE_KIND := "customer_timeline_event"

  function TimelineQuarantine(d: Decision): Option<Terminal> {
    if d.kind != TIMELINE_KIND || d.key == ZERO || d.payload == ZERO || d.field == ZERO || !IsDigest(d.field) || d.disposition != "quarantine"
       || d.reason == "" || d.targetID != 0 || d.targetDigest != ZERO
    then None
    else Some(Terminal(d.key, d.payload, "quarantine", d.reason, "", ZERO, Metadata(d.field)))
  }

  /** A decision read back, with the parser of target ids as a parameter. */
  function ReadDecision(kind: string, t: Terminal, parse: string -> Option<int>): Option<Decision> {
    match FieldOf(t.metadata)
    case None => None
    case Some(field) =>
      if t.disposition == "import" then
        match parse(t.targetID)
        case None => None
        case Some(id) => Some(Decision(kind, t.key, t.payload, field, "import", t.reason, id, t.targetDigest))
      else if t.disposition != "quarantine" || t.targetID != "" || t.targetDigest != ZERO then None
      else Some(Decision(kind, t.key, t.payload, field, "quarantine", t.reason, 0, ZERO))
  }

  lemma TimelineDecisionRoundTrip(d: Decision)
    requires TimelineQuarantine(d).Some?
    ensures ReadDecision(TIMELINE_KIND, TimelineQuarantine(d).value, CanonicalID) == Some(d) && Recordable(TimelineQuarantine(d).value)
  {
    hide Hex.Encode, FieldOf;
    OnlyCanonicalMetadata(Metadata(d.field), d.field);
  }

  // ----- Audience activity: two journals, package runs and member events

  datatype AudienceKind = PackageRuns | MemberEvents

  function KindText(kind: AudienceKind): string {
    match kind
    case PackageRuns => "package_runs"
    case MemberEvents => "member_events"
  }

  /** The audience journal leaves the checks of field and reason to the journal below it. */
  function AudienceQuarantine(kind: AudienceKind, d: Decision): Option<Terminal> {
    if d.kind != KindText(kind) || d.disposition != "quarantine" || d.targetID != 0 || d.targetDigest != ZERO || !IsDigest(d.field) then None
    else Some(Terminal(d.key, d.payload, "quarantine", d.reason, "", ZERO, Metadata(d.field)))
  }

  function AudienceReceipt(source: string, t: Terminal): Option<Receipt> {
    match (FieldOf(t.metadata), ParseSourceIdentifier(source), LooseID(t.targetID))
    case (Some(field), Some(key), Some(id)) =>
      if key == ZERO || t.key != key || t.disposition != "import" || t.reason != "" || t.targetDigest == ZERO then None
      else Some(Receipt(source, t.payload, id, t.targetDigest))
    case _ => None
  }

  /** A receipt recorded in the audience journal is loaded again exactly when its key is not zero. */
  lemma AudienceRoundTrip(r: Receipt, targets: int -> Option<Target>)
    requires CheckedTerminal(r, targets, true).Some? && Int64(r.targetID)
    ensures
      var t := CheckedTerminal(r, targets, true).value;
      Recordable(t) && AudienceReceipt(r.source, t) == if t.key != ZERO then Some(r) else None
  {
    hide Hex.Encode, Decimal.FormatInt, Decimal.ParseInt, LooseID, FieldOf, ParseSourceIdentifier;
    IDRoundTrip(r.targetID);
    OnlyCanonicalMetadata(CheckedTerminal(r, targets, true).value.metadata, targets(r.targetID).value.field);
  }

  /** A quarantine decision recorded in the audience journal can be loaded again exactly when its
      field digest is not zero; recording itself does not look. */
  lemma AudienceDecisionRoundTrip(kind: AudienceKind, d: Decision)
    requires AudienceQuarantine(kind, d).Some?
    ensures ReadDecision(KindText(kind), AudienceQuarantine(kind, d).value, LooseID) == if d.field != ZERO then Some(d) else None
    ensures Recordable(AudienceQuarantine(kind, d).value) <==> d.reason != ""
  {
    hide Hex.Encode, FieldOf;
    var t := AudienceQuarantine(kind, d).value;
    OnlyCanonicalMetadata(t.metadata, d.field);
    if FieldOf(t.metadata).Some? {
      OnlyCanonicalMetadata(t.metadata, FieldOf(t.metadata).value);
      MetadataInjective(d.field, FieldOf(t.metadata).value);
    }
  }

  lemma MetadataInjective(a: Digest, b: Digest)
    requires IsDigest(a) && IsDigest(b) && Metadata(a) == Metadata(b)
    ensures a == b
  {
    hide Hex.Encode;
    assert Metadata(a)[FIELD] == Metadata(b)[FIELD];
    Hex.EncodeInjective(a, b);
  }

  /** Unlike the timeline journal, the audience journal reads a target id with leading zeros. */
  lemma LooseTargetIDs()
    ensures LooseID("007") == Some(7) && CanonicalID("007").None?
  {
    assert "007"[..2] == "00" && "00"[..1] == "0" && "0"[..0] == [];
    assert Decimal.DigitsValue("0") == 0 && Decimal.DigitsValue("00") == 0 && Decimal.DigitsValue("007") == 7;
    assert Decimal.FormatInt(7) == "7";
    assert |"7"| == 1 && |"007"| == 3;
  }

  /** LoadAudienceActivityTerminal: package runs are looked at first. */
  function LoadAudience(runs: map<Digest, Terminal>, events: map<Digest, Terminal>, key: Digest): Loaded<Decision> {
    if key == ZERO then Failed
    else if key in runs then
      match ReadDecision(KindText(PackageRuns), runs[key], LooseID)
      case Some(d) => Present(d)
      case None => Failed
    else if key in events then
      match ReadDecision(KindText(MemberEvents), events[key], LooseID)
      case Some(d) => Present(d)
      case None => Failed
    else Absent
  }

  /** Reading keeps the kind of the journal that was read. */
  lemma KindKept(runs: map<Digest, Terminal>, d: Decision)
    ensures d.kind == KindText(MemberEvents) && d.key in runs ==> ReadDecision(KindText(PackageRuns), runs[d.key], LooseID) != Some(d)
  {
    assert |KindText(PackageRuns)| != |KindText(MemberEvents)|;
  }

  /** The failing case exists: with a run and an event recorded under one source key, the event's key
      loads the run. */
  lemma ShadowedEvent() returns (run: Decision, event: Decision)
    ensures AudienceQuarantine(PackageRuns, run).Some? && AudienceQuarantine(MemberEvents, event).Some?
    ensures Recordable(AudienceQuarantine(PackageRuns, run).value) && Recordable(AudienceQuarantine(MemberEvents, event).value)
    ensures run.key == event.key && event.key != ZERO && event.field != ZERO && run != event
    ensures LoadAudience(map[run.key := AudienceQuarantine(PackageRuns, run).value],
                         map[event.key := AudienceQuarantine(MemberEvents, event).value], event.key) == Present(run)
  {
    hide ReadDecision, Metadata, Recordable;
    var one: Digest := ZERO[0 := 1 as char];
    run := Decision(KindText(PackageRuns), one, one, one, "quarantine", "r", 0, ZERO);
    event := Decision(KindText(MemberEvents), one, one, one, "quarantine", "r", 0, ZERO);
    assert one[0] != ZERO[0] && |"r"| == 1;
    assert IsDigest(one);
    AudienceDecisionRoundTrip(PackageRuns, run);
    AudienceDecisionRoundTrip(MemberEvents, event);
    assert run.kind != event.kind by { assert |KindText(PackageRuns)| != |KindText(MemberEvents)|; }
  }

  class AudienceJournal {
    const runs: Journal
    const events: Journal

    constructor ()
      ensures fresh(runs) && fresh(events) && runs != events && runs.entries == map[] && events.entries == map[]
    {
      runs := new Journal();
      events := new Journal();
    }

    /** RecordAudienceActivityTerminal. What is recorded is loaded again exactly when neither its field
        digest nor its key is zero and, for a member event, no package run already holds the key. */
    method RecordDecision(kind: AudienceKind, d: Decision) returns (ok: bool)
      requires runs != events
      modifies runs, events
      ensures ok ==> (LoadAudience(runs.entries, events.entries, d.key) == Present(d)
                      <==> d.field != ZERO && d.key != ZERO && (kind == MemberEvents ==> d.key !in old(runs.entries)))
      ensures ok <==> AudienceQuarantine(kind, d).Some? && d.reason != ""
                      && var entries := if kind == PackageRuns then old(runs.entries) else old(events.entries);
                         d.key in entries ==> entries[d.key] == AudienceQuarantine(kind, d).value
      ensures ok ==> AudienceQuarantine(kind, d).Some?
                     && (if kind == PackageRuns then runs.entries else events.entries)
                        == (if kind == PackageRuns then old(runs.entries) else old(events.entries))[d.key := AudienceQuarantine(kind, d).value]
      ensures kind == PackageRuns || !ok ==> events.entries == old(events.entries)
      ensures kind == MemberEvents || !ok ==> runs.entries == old(runs.entries)
    {
      hide ReadDecision, Metadata, IsDigest;
      var t := AudienceQuarantine(kind, d);
      if t.None? { return false; }
      AudienceDecisionRoundTrip(kind, d);
      KindKept(runs.entries, d);
      if kind == PackageRuns {
        ok := runs.Record(t.value);
      } else {
        ok := events.Record(t.value);
      }
    }
  }

  // ----- WeCom contact history: no metadata at all

  function WeComTerminal(r: Receipt, replayed: bool): Option<Terminal> {
    match ParseSourceIdentifier(r.source)
    case None => None
    case Some(key) =>
      if key == ZERO || r.payload == ZERO || r.targetID < 1 || r.targetDigest == ZERO || replayed then None
      else Some(Terminal(key, r.payload, "import", "", Decimal.FormatInt(r.targetID), r.targetDigest, map[]))
  }

  function WeComReceipt(source: string, t: Terminal): Option<Receipt> {
    match (ParseSourceIdentifier(source), CanonicalID(t.targetID))
    case (Some(key), Some(id)) =>
      if key == ZERO || t.key != key || t.payload == ZERO || t.disposition != "import" || t.reason != "" || t.targetDigest == ZERO
         || t.metadata != map[] then None
      else Some(Receipt(source, t.payload, id, t.targetDigest))
    case _ => None
  }

  /** Main result: the two WeCom conversions undo each other in both directions. */
  lemma WeComRoundTrip(r: Receipt, source: string, t: Terminal)
    requires Int64(r.targetID)
    ensures WeComTerminal(r, false) == Some(t) && source == r.source <==> WeComReceipt(source, t) == Some(r)
  {
    hide Decimal.FormatInt, Decimal.ParseInt, ParseSourceIdentifier;
    if r.targetID >= 1 { IDRoundTrip(r.targetID); }
  }
}
