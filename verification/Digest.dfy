/** The byte stream the importer hashes (writeDigest in cmd/aicrm-whitelist-import/importer.go).
    Go strings are byte sequences, so text here is one character per byte. */
module Digest {
  import opened Wrappers

  datatype Record = Record(entity: string, key: string, payload: string)

  const NUL: char := '\0'
  const NEWLINE: char := '\n'
  const SUBJECT_REFS := "source_subject_refs"
  const DIGEST_SIZE := 32

  function Frame(r: Record): string {
    r.entity + [NUL] + r.key + [NUL] + r.payload + [NEWLINE]
  }

  function Stream(records: seq<Record>): string {
    if records == [] then [] else Frame(records[0]) + Stream(records[1..])
  }

  /** The running hash of crypto/sha256 is a function of the bytes written so far, so they are its state. */
  class Hasher {
    var written: string

    constructor ()
      ensures written == []
    {
      written := [];
    }

    method Write(bytes: string)
      modifies this
      ensures written == old(written) + bytes
    {
      written := written + bytes;
    }
  }

  method WriteDigest(hasher: Hasher, entity: string, key: string, payload: string)
    modifies hasher
    ensures hasher.written == old(hasher.written) + Frame(Record(entity, key, payload))
  {
    hasher.Write(entity);
    hasher.Write([NUL]);
    hasher.Write(key);
    hasher.Write([NUL]);
    hasher.Write(payload);
    hasher.Write([NEWLINE]);
  }

  // ----- Reading the stream back

  /** What the importer writes: names and keys are free of NUL; a reference payload is a raw
      32-byte digest, every other payload is JSON text without a raw newline. */
  predicate Framed(r: Record) {
    && NUL !in r.entity && NUL !in r.key
    && if r.entity == SUBJECT_REFS then |r.payload| == DIGEST_SIZE else NEWLINE !in r.payload
  }

  predicate AllFramed(records: seq<Record>) {
    forall r :: r in records ==> Framed(r)
  }

  /** Splits at the first occurrence of a byte. */
  function Cut(s: string, at: char): (r: Option<(string, string)>)
    ensures r.Some? ==> at !in r.value.0 && s == r.value.0 + [at] + r.value.1
  {
    if s == [] then None
    else if s[0] == at then Some(([], s[1..]))
    else
      match Cut(s[1..], at)
      case None => None
      case Some((before, after)) =>
        assert s == [s[0]] + (before + [at] + after);
        Some(([s[0]] + before, after))
  }

  function CutPayload(entity: string, s: string): (r: Option<(string, string)>)
    ensures r.Some? ==> s == r.value.0 + [NEWLINE] + r.value.1
  {
    if entity == SUBJECT_REFS then
      if |s| > DIGEST_SIZE && s[DIGEST_SIZE] == NEWLINE then Some((s[..DIGEST_SIZE], s[DIGEST_SIZE + 1..])) else None
    else Cut(s, NEWLINE)
  }

  function ParseRecord(s: string): (r: Option<(Record, string)>)
    ensures r.Some? ==> |r.value.1| < |s|
  {
    match Cut(s, NUL)
    case None => None
    case Some((entity, s1)) =>
      match Cut(s1, NUL)
      case None => None
      case Some((key, s2)) =>
        match CutPayload(entity, s2)
        case None => None
        case Some((payload, rest)) => Some((Record(entity, key, payload), rest))
  }

  lemma FrameAssembles(r: Record, rest: string)
    ensures Frame(r) + rest == r.entity + [NUL] + (r.key + [NUL] + (r.payload + [NEWLINE] + rest))
  {
  }

  /** What was parsed is a framed record, and it is exactly what stood at the front. */
  lemma ParseRecordExact(s: string)
    requires ParseRecord(s).Some?
    ensures Framed(ParseRecord(s).value.0) && s == Frame(ParseRecord(s).value.0) + ParseRecord(s).value.1
  {
    var (r, rest) := ParseRecord(s).value;
    var s1 := Cut(s, NUL).value.1;
    var s2 := Cut(s1, NUL).value.1;
    FrameAssembles(r, rest);
    hide Frame;
    assert s == r.entity + [NUL] + s1 && s1 == r.key + [NUL] + s2 && s2 == r.payload + [NEWLINE] + rest;
  }

  function Parse(s: string): Option<seq<Record>>
    decreases |s|
  {
    if s == [] then Some([])
    else
      match ParseRecord(s)
      case None => None
      case Some((r, rest)) =>
        match Parse(rest)
        case None => None
        case Some(more) => Some([r] + more)
  }

  lemma {:induction false} CutFinds(before: string, at: char, after: string)
    requires at !in before
    ensures Cut(before + [at] + after, at) == Some((before, after))
  {
    var s := before + [at] + after;
    if before == [] {
      assert s[1..] == after;
    } else {
      CutFinds(before[1..], at, after);
      assert s[1..] == before[1..] + [at] + after;
      assert before == [s[0]] + before[1..];
    }
  }

  lemma ParseRecordFinds(r: Record, rest: string)
    requires Framed(r)
    ensures ParseRecord(Frame(r) + rest) == Some((r, rest))
  {
    var s2 := r.payload + [NEWLINE] + rest;
    var s1 := r.key + [NUL] + s2;
    FrameAssembles(r, rest);
    hide Frame;
    CutFinds(r.entity, NUL, s1);
    CutFinds(r.key, NUL, s2);
    if r.entity == SUBJECT_REFS {
      assert s2[..DIGEST_SIZE] == r.payload && s2[DIGEST_SIZE + 1..] == rest;
    } else {
      CutFinds(r.payload, NEWLINE, rest);
    }
  }

  /** Main result: reading undoes writing, whatever sequence of records was written. */
  lemma {:induction false} ParseOfStream(records: seq<Record>)
    requires AllFramed(records)
    ensures Parse(Stream(records)) == Some(records)
  {
    hide Framed, ParseRecord;
    if records != [] {
      ParseOfStream(records[1..]);
      ParseRecordFinds(records[0], Stream(records[1..]));
      assert records == [records[0]] + records[1..];
    }
  }

  /** And writing undoes reading: the parser accepts nothing else. */
  lemma {:induction false} StreamOfParse(s: string)
    requires Parse(s).Some?
    ensures AllFramed(Parse(s).value) && Stream(Parse(s).value) == s
    decreases |s|
  {
    hide Framed, ParseRecord, Frame;
    if s != [] {
      ParseRecordExact(s);
      var (r, rest) := ParseRecord(s).value;
      StreamOfParse(rest);
      var records := Parse(s).value;
      assert records[0] == r && records[1..] == Parse(rest).value;
    }
  }

  /** Equal streams were written by equal sequences of records. */
  lemma StreamInjective(a: seq<Record>, b: seq<Record>)
    requires AllFramed(a) && AllFramed(b) && Stream(a) == Stream(b)
    ensures a == b
  {
    ParseOfStream(a);
    ParseOfStream(b);
  }

  /** The restrictions matter: one raw newline in a JSON payload and two different sequences agree. */
  lemma NewlineInPayloadIsAmbiguous()
    ensures
      var one := [Record("a", "k", "x\na\0k\0y")];
      var two := [Record("a", "k", "x"), Record("a", "k", "y")];
      one != two && Stream(one) == Stream(two)
  {
    var one := [Record("a", "k", "x\na\0k\0y")];
    var two := [Record("a", "k", "x"), Record("a", "k", "y")];
    assert one[1..] == [] && two[1..] == [two[1]] && two[1..][1..] == [];
    assert Stream(one) == Frame(one[0]) && Stream(two[1..]) == Frame(two[1]);
    assert Frame(one[0]) == Frame(two[0]) + Frame(two[1]);
  }
}
