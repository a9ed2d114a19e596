/** The digest identifies what a walk read: with clean text its records are all well framed, so the
    byte stream determines them. */
module ImportDigest {
  import opened Snapshot
  import opened CopyRules
  import opened Digest
  import opened ImportPlan
  import opened ImportEffects
  import Decimal
  import Hex
  import References
  import Resolution
  import Sets

  /** PostgreSQL text holds no NUL, and to_jsonb prints no raw newline; SHA-256 yields 32 bytes. */
  ghost predicate CleanText(x: Inputs) {
    && (forall e, r :: r in Rows(x.src, e) ==> NUL !in Key(e, r) && NEWLINE !in r.text)
    && NUL !in x.binding && NEWLINE !in x.binding
    && (forall s :: |x.sha(s)| == DIGEST_SIZE)
    && (forall c, r :: c in x.subjects.references && r in x.subjects.references[c] ==> NUL !in r.entity)
  }

  lemma NumberText(i: int)
    ensures NUL !in Decimal.FormatInt(i) && NEWLINE !in Decimal.FormatInt(i)
  {
    var digits := Decimal.FormatNat(if i < 0 then -i else i);
    assert !Decimal.IsDigit(NUL) && !Decimal.IsDigit(NEWLINE);
    assert forall j :: 0 <= j < |digits| ==> digits[j] != NUL && digits[j] != NEWLINE;
  }

  /** A table name holds no NUL and does not begin like source_subject_refs. */
  predicate Plain(s: string) {
    |s| >= 8 && !(s[0] == 's' && s[1] == 'o') && forall i :: 0 <= i < |s| ==> s[i] != NUL
  }

  lemma CatalogPlain(e: Entity)
    requires AreaOf(e) == CatalogArea
    ensures Plain(CatalogTable(e))
  {
  }

  lemma AgentPlain(e: Entity)
    requires AreaOf(e) == AgentArea
    ensures Plain(AgentTable(e))
  {
  }

  lemma OrderPlain(e: Entity)
    requires AreaOf(e) == OrderArea
    ensures Plain(OrderTable(e))
  {
  }

  lemma MemberPlain(e: Entity)
    requires AreaOf(e) == MemberArea
    ensures Plain(MemberTable(e))
  {
  }

  lemma QuestionnairePlain(e: Entity)
    requires AreaOf(e) == QuestionnaireArea
    ensures Plain(QuestionnaireTable(e))
  {
  }

  lemma SubmissionPlain(e: Entity)
    requires AreaOf(e) == SubmissionArea
    ensures Plain(SubmissionTable(e))
  {
  }

  lemma PackagePlain(e: Entity)
    requires AreaOf(e) == PackageArea
    ensures Plain(PackageTable(e))
  {
  }

  lemma SegmentPlain(e: Entity)
    requires AreaOf(e) == SegmentArea
    ensures Plain(SegmentTable(e))
  {
  }

  lemma VersionPlain(e: Entity)
    requires AreaOf(e) == VersionArea
    ensures Plain(VersionTable(e))
  {
  }

  lemma ProjectionPlain(e: Entity)
    requires AreaOf(e) == ProjectionArea
    ensures Plain(ProjectionTable(e))
  {
  }

  lemma NamePlain(e: Entity)
    ensures Plain(Name(e))
  {
    hide CatalogTable, AgentTable, OrderTable, MemberTable, QuestionnaireTable, SubmissionTable,
      PackageTable, SegmentTable, VersionTable, ProjectionTable, AreaOf, Plain;
    match AreaOf(e) {
      case CatalogArea => CatalogPlain(e);
      case AgentArea => AgentPlain(e);
      case OrderArea => OrderPlain(e);
      case MemberArea => MemberPlain(e);
      case QuestionnaireArea => QuestionnairePlain(e);
      case SubmissionArea => SubmissionPlain(e);
      case PackageArea => PackagePlain(e);
      case SegmentArea => SegmentPlain(e);
      case VersionArea => VersionPlain(e);
      case ProjectionArea => ProjectionPlain(e);
    }
  }

  lemma NameText(e: Entity, suffix: string)
    requires suffix in {"", ".skipped", ".rejected"}
    ensures NUL !in Name(e) + suffix && Name(e) + suffix != SUBJECT_REFS
  {
    hide Name, Plain;
    NamePlain(e);
    PlainWithSuffix(Name(e), suffix);
  }

  lemma PlainWithSuffix(s: string, suffix: string)
    requires Plain(s) && suffix in {"", ".skipped", ".rejected"}
    ensures NUL !in s + suffix && s + suffix != SUBJECT_REFS
  {
    assert NUL !in suffix;
    assert (s + suffix)[0] == s[0] && (s + suffix)[1] == s[1];
    assert SUBJECT_REFS[0] == 's' && SUBJECT_REFS[1] == 'o';
  }

  lemma SubjectTextPlain(y: Resolution.Synthetic)
    ensures NEWLINE !in SubjectText(y)
  {
    hide Decimal.FormatInt;
    NumberText(y.id);
    NumberText(y.createdAt);
    NumberText(y.updatedAt);
  }

  lemma SubjectFramed(x: Inputs, e: Event)
    requires e in FlatMap(x.subjects.synthetic, SubjectStep())
    ensures Framed(e.record)
  {
    hide FlatMap, Decimal.FormatInt, SubjectText, Name;
    var y := FlatMapMember(x.subjects.synthetic, SubjectStep(), e);
    NumberText(y.id);
    SubjectTextPlain(y);
    NameText(QuestionnaireSubjects, "");
    assert Name(QuestionnaireSubjects) + "" == Name(QuestionnaireSubjects);
  }

  lemma HexPlain(digest: string)
    ensures NUL !in HexText(digest)
  {
    hide Hex.Encode;
    if Hex.IsBytes(digest) { assert forall i :: 0 <= i < |Hex.Encode(digest)| ==> Hex.Encode(digest)[i] != NUL; }
  }

  lemma ReferenceFramed(x: Inputs, e: Event)
    requires CleanText(x) && e in FlatMap(Sets.Ascend(x.subjects.references.Keys), CustomerReferences(x))
    ensures Framed(e.record)
  {
    hide FlatMap, CustomerReferences, ReferenceEvent, Framed;
    var customer, r := ReferenceEventOf(x, e);
    ReferenceKeyFramed(x, customer, r);
  }

  lemma ReferenceKeyFramed(x: Inputs, customer: int, r: References.Reference)
    requires CleanText(x) && customer in x.subjects.references && r in x.subjects.references[customer]
    ensures Framed(ReferenceEvent(x, customer, r).record)
  {
    hide Decimal.FormatInt, HexText, ReferenceDigest;
    NumberText(customer);
    HexPlain(ReferenceDigest(x.sha, r.entity, r.value));
    DigestSize(x, r);
  }

  lemma DigestSize(x: Inputs, r: References.Reference)
    requires CleanText(x)
    ensures |ReferenceDigest(x.sha, r.entity, r.value)| == DIGEST_SIZE
  {
  }

  lemma RowFramed(x: Inputs, s: Entity, row: SourceRow, suffix: string)
    requires CleanText(x) && row in Rows(x.src, s) && suffix in {"", ".skipped", ".rejected"}
    ensures Framed(Record(Name(s) + suffix, Key(s, row), row.text))
  {
    hide Key, Name;
    NameText(s, suffix);
  }

  lemma LeftBehindFramed(x: Inputs, e: Event)
    requires CleanText(x) && e in LeftBehind(x)
    ensures Framed(e.record)
  {
    hide LeftBehind, CleanText, Framed, Key, Name;
    var row, suffix, domain, source, table, d, reason, count := LeaveEventOf(x, e);
    RowFramed(x, source, row, suffix);
  }

  lemma EventFramed(x: Inputs, e: Event)
    requires CleanText(x) && e in Plan(x)
    ensures Framed(e.record)
  {
    hide Plan, FlatMap, LeftBehind, SubjectStep, CopyTable, CustomerReferences, CleanText, Key, Name, Selected, Copied, Keep;
    PlanMember(x, e);
    if e in LeftBehind(x) {
      LeftBehindFramed(x, e);
    } else if e in FlatMap(COPIED, CopyTable(x)) {
      var spec, row := CopyEvent(x, e);
      RowFramed(x, spec.source, row, "");
      assert Name(spec.source) + "" == Name(spec.source);
    } else if e in FlatMap(x.subjects.synthetic, SubjectStep()) {
      SubjectFramed(x, e);
    } else if e in FlatMap(Rows(x.src, Customers), CustomerStep(x)) {
      var row := FlatMapMember(Rows(x.src, Customers), CustomerStep(x), e);
      RowFramed(x, Customers, row, "");
      assert Name(Customers) + "" == Name(Customers);
    } else if e == BindingEvent(x) {
      BindingFramed(x);
    } else {
      ReferenceFramed(x, e);
    }
  }

  lemma BindingFramed(x: Inputs)
    requires CleanText(x)
    ensures Framed(BindingEvent(x).record)
  {
    assert "v1_archive_binding"[0] != SUBJECT_REFS[0];
  }

  lemma {:induction false} AllRecordsFramed(events: seq<Event>)
    requires forall e :: e in events ==> Framed(e.record)
    ensures AllFramed(Records(events))
  {
    hide Framed;
    if events != [] { AllRecordsFramed(events[1..]); }
  }

  /** Main result: the bytes a walk hashes determine every record it read, in order: two walks hash
      the same bytes only if they read the same records. */
  lemma StreamDeterminesRecords(x: Inputs, y: Inputs)
    requires CleanText(x) && CleanText(y)
    ensures Stream(Records(Plan(x))) == Stream(Records(Plan(y))) <==> Records(Plan(x)) == Records(Plan(y))
  {
    hide Plan, Records, Framed, CleanText, Stream;
    forall e | e in Plan(x) { EventFramed(x, e); }
    forall e | e in Plan(y) { EventFramed(y, e); }
    AllRecordsFramed(Plan(x));
    AllRecordsFramed(Plan(y));
    if Stream(Records(Plan(x))) == Stream(Records(Plan(y))) {
      StreamInjective(Records(Plan(x)), Records(Plan(y)));
    }
  }
}
