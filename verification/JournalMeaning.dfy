/** What the import journals record and what they give back, entry by entry
    (cmd/aicrm-v1-domain-import/customer_timeline_history.go, audience_activity_history.go and
    wecom_contact_history.go over internal/v1domain/journal.go). */
module JournalMeaning {
  import opened Wrappers
  import opened Journals
  import Decimal

  // ----- Recording

  /** Imports name a target and no reason, everything else a reason and no target. */
  lemma RecordableIff(t: Terminal)
    ensures Recordable(t) <==>
            || (t.disposition == "import" && t.reason == "" && t.targetID != "" && t.targetDigest != ZERO)
            || (t.disposition in {"archive", "quarantine"} && t.reason != "" && t.targetID == "" && t.targetDigest == ZERO)
  {
  }

  /** The one entry an import receipt is recorded as, with the field digest of its target. */
  predicate ImportEntry(r: Receipt, key: Digest, field: Digest, t: Terminal) {
    && ParseSourceIdentifier(r.source) == Some(key) && r.targetID >= 1 && r.payload != ZERO && r.targetDigest != ZERO
    && IsDigest(field) && field != ZERO
    && t == Terminal(key, r.payload, "import", "", Decimal.FormatInt(r.targetID), r.targetDigest, Metadata(field))
  }

  /** The target is there, came from the same source row, and digests to what the receipt says. */
  predicate Vouched(r: Receipt, key: Digest, field: Digest, target: Option<Target>) {
    target == Some(Journals.Target(r.targetID, key, r.payload, field, Some(r.targetDigest)))
  }

  /** Exactly which receipts are recorded, and as what; the timeline journal alone refuses the zero key. */
  lemma CheckedIff(r: Receipt, targets: int -> Option<Target>, zeroKey: bool, t: Terminal)
    ensures CheckedTerminal(r, targets, zeroKey) == Some(t) <==>
            exists key, field :: ImportEntry(r, key, field, t) && Vouched(r, key, field, targets(r.targetID)) && (zeroKey || key != ZERO)
  {
    hide ParseSourceIdentifier, Metadata, Decimal.FormatInt;
    if CheckedTerminal(r, targets, zeroKey) == Some(t) {
      var key, target := ParseSourceIdentifier(r.source).value, targets(r.targetID).value;
      assert ImportEntry(r, key, target.field, t) && Vouched(r, key, target.field, targets(r.targetID));
    }
  }

  /** Exactly which quarantine decisions the timeline journal takes. */
  lemma TimelineDecisionIff(d: Decision, t: Terminal)
    ensures TimelineQuarantine(d) == Some(t) <==>
            && d.kind == "customer_timeline_event" && d.disposition == "quarantine" && d.reason != "" && d.targetID == 0 && d.targetDigest == ZERO
            && d.key != ZERO && d.payload != ZERO && d.field != ZERO && IsDigest(d.field)
            && t == Terminal(d.key, d.payload, "quarantine", d.reason, "", ZERO, Metadata(d.field))
  {
  }

  /** Exactly which quarantine decisions the audience journals take; reason and digests are not looked at. */
  lemma AudienceDecisionIff(kind: AudienceKind, d: Decision, t: Terminal)
    ensures AudienceQuarantine(kind, d) == Some(t) <==>
            && d.kind == (if kind == PackageRuns then "package_runs" else "member_events") && d.disposition == "quarantine"
            && d.targetID == 0 && d.targetDigest == ZERO && IsDigest(d.field)
            && t == Terminal(d.key, d.payload, "quarantine", d.reason, "", ZERO, Metadata(d.field))
  {
  }

  // ----- Loading

  lemma ParsedFits(text: string)
    requires Decimal.ParseInt(text).Some?
    ensures Decimal.ParseInt(text).value <= Decimal.MAX_INT64
  {
  }

  lemma CanonicalIs(text: string, id: int)
    ensures CanonicalID(text) == Some(id) <==> 1 <= id <= Decimal.MAX_INT64 && text == Decimal.FormatInt(id)
  {
    hide Decimal.FormatInt, Decimal.ParseInt;
    if 1 <= id <= Decimal.MAX_INT64 { IDRoundTrip(id); }
    if CanonicalID(text) == Some(id) { ParsedFits(text); }
  }

  lemma MetadataIs(metadata: map<string, Meta>)
    ensures match FieldOf(metadata)
            case Some(field) => IsDigest(field) && field != ZERO && metadata == Metadata(field)
            case None => forall field: Digest :: IsDigest(field) && field != ZERO ==> metadata != Metadata(field)
  {
    hide FieldOf, Metadata;
    if FieldOf(metadata).Some? { OnlyCanonicalMetadata(metadata, FieldOf(metadata).value); }
    forall field: Digest | IsDigest(field) && field != ZERO && metadata == Metadata(field) ensures FieldOf(metadata) == Some(field) {
      OnlyCanonicalMetadata(metadata, field);
    }
  }

  /** Main result: a timeline receipt is loaded exactly when the journal holds, under the key the source names,
      the one entry such a receipt is recorded as. */
  lemma TimelineLoadIff(entries: map<Digest, Terminal>, source: string, r: Receipt)
    ensures LoadTimeline(entries, source) == Present(r) <==>
            && r.source == source && r.targetID <= Decimal.MAX_INT64
            && exists key, field :: key in entries && key != ZERO && entries[key].key == key && ImportEntry(r, key, field, entries[key])
    ensures LoadTimeline(entries, source) == Absent <==> exists key :: ParseSourceIdentifier(source) == Some(key) && key !in entries
  {
    hide ParseSourceIdentifier, Metadata, FieldOf, CanonicalID, Decimal.FormatInt;
    if ParseSourceIdentifier(source).Some? && ParseSourceIdentifier(source).value in entries {
      var key := ParseSourceIdentifier(source).value;
      var t := entries[key];
      MetadataIs(t.metadata);
      CanonicalIs(t.targetID, r.targetID);
      if LoadTimeline(entries, source) == Present(r) {
        assert ImportEntry(r, key, FieldOf(t.metadata).value, t);
      }
      if field :| r.source == source && r.targetID <= Decimal.MAX_INT64 && key != ZERO && t.key == key && ImportEntry(r, key, field, t) {
        OnlyCanonicalMetadata(t.metadata, field);
      }
    }
  }

  /** The entry reads as the decision: an import with any text of the target's number, or a quarantine without target. */
  predicate ReadsAs(kind: string, t: Terminal, d: Decision) {
    && d.kind == kind && t.key == d.key && t.payload == d.payload && t.reason == d.reason && t.targetDigest == d.targetDigest
    && IsDigest(d.field) && d.field != ZERO && t.metadata == Metadata(d.field) && t.disposition == d.disposition
    && (|| (d.disposition == "import" && d.targetID >= 1 && Decimal.ParseInt(t.targetID) == Some(d.targetID))
        || (d.disposition == "quarantine" && d.targetID == 0 && t.targetID == "" && t.targetDigest == ZERO))
  }

  lemma ReadIff(kind: string, t: Terminal, d: Decision)
    ensures ReadDecision(kind, t, LooseID) == Some(d) <==> ReadsAs(kind, t, d)
  {
    hide Metadata, FieldOf, Decimal.ParseInt;
    MetadataIs(t.metadata);
    if IsDigest(d.field) && d.field != ZERO && t.metadata == Metadata(d.field) { OnlyCanonicalMetadata(t.metadata, d.field); }
  }

  /** Main result: what is loaded under a key of the audience journals, package runs first. */
  lemma AudienceLoadIff(runs: map<Digest, Terminal>, events: map<Digest, Terminal>, key: Digest, d: Decision)
    ensures LoadAudience(runs, events, key) == Present(d) <==>
            key != ZERO && if key in runs then ReadsAs("package_runs", runs[key], d) else key in events && ReadsAs("member_events", events[key], d)
    ensures LoadAudience(runs, events, key) == Absent <==> key != ZERO && key !in runs && key !in events
  {
    hide ReadDecision, ReadsAs;
    if key in runs { ReadIff("package_runs", runs[key], d); } else if key in events { ReadIff("member_events", events[key], d); }
  }

  /** A WeCom receipt is recorded as, and read from, one entry without metadata. */
  lemma WeComIff(r: Receipt, t: Terminal)
    ensures WeComTerminal(r, false) == Some(t) <==>
            exists key :: && ParseSourceIdentifier(r.source) == Some(key) && key != ZERO && r.payload != ZERO && r.targetID >= 1 && r.targetDigest != ZERO
                          && t == Terminal(key, r.payload, "import", "", Decimal.FormatInt(r.targetID), r.targetDigest, map[])
    ensures WeComTerminal(r, true) == None
  {
    hide ParseSourceIdentifier, Decimal.FormatInt;
  }
}
