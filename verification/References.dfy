/** The identity references of one questionnaire submission or order
    (cmd/aicrm-whitelist-import/importer.go). */
module References {
  import Decimal
  import Text

  datatype Reference = Reference(entity: string, value: string)

  /** One submission or order that still has to be given a customer. */
  datatype Row = Row(
    recordType: string,
    submissionID: int,
    matchCount: int,
    existingCustomer: int,
    unionID: string,
    externalUserID: string,
    openID: string,
    mobile: string,
    createdAt: int)

  const NUL: char := '\0'

  const ENTITIES := {"unionid", "wecom_external_userid", "openid", "phone", "questionnaire_submission", "order"}

  predicate IsOrder(row: Row) {
    row.recordType == "order"
  }

  /** Exactly one existing customer carries one of the row's identities. */
  predicate Matched(row: Row) {
    row.matchCount == 1
  }

  predicate ValidMatch(row: Row) {
    row.matchCount <= 1 && (Matched(row) ==> row.existingCustomer >= 1)
  }

  function Candidates(row: Row): seq<Reference> {
    [Reference("unionid", row.unionID),
     Reference("wecom_external_userid", row.externalUserID),
     Reference("openid", row.openID),
     Reference("phone", row.mobile)]
  }

  function Present(candidates: seq<Reference>): seq<Reference> {
    if candidates == [] then []
    else
      var rest := Present(candidates[..|candidates| - 1]);
      var last := candidates[|candidates| - 1];
      if last.value != "" then rest + [last] else rest
  }

  /** The references of a row; an anonymous row refers to itself. */
  function Of(row: Row): seq<Reference> {
    var present := Present(Candidates(row));
    if present != [] then present
    else [Reference(if IsOrder(row) then "order" else "questionnaire_submission", Decimal.FormatInt(row.submissionID))]
  }

  method QuestionnaireReferences(row: Row) returns (references: seq<Reference>)
    ensures references == Of(row)
  {
    references := [];
    var candidates := Candidates(row);
    for i := 0 to |candidates|
      invariant references == Present(candidates[..i])
    {
      assert candidates[..i + 1][..i] == candidates[..i];
      if candidates[i].value != "" {
        references := references + [candidates[i]];
      }
    }
    assert candidates[..|candidates|] == candidates;
    if |references| == 0 {
      var entity := "questionnaire_submission";
      if IsOrder(row) {
        entity := "order";
      }
      references := references + [Reference(entity, Decimal.FormatInt(row.submissionID))];
    }
  }

  /** The map key under which the importer remembers the owner of a reference. */
  function Key(reference: Reference): string {
    reference.entity + [NUL] + reference.value
  }

  lemma {:induction false} PresentElements(candidates: seq<Reference>, r: Reference)
    ensures r in Present(candidates) <==> r in candidates && r.value != ""
    ensures |Present(candidates)| <= |candidates|
  {
    if candidates != [] {
      var front := candidates[..|candidates| - 1];
      PresentElements(front, r);
      assert candidates == front + [candidates[|candidates| - 1]];
    }
  }

  lemma {:induction false} PresentDistinct(candidates: seq<Reference>)
    requires forall i, j :: 0 <= i < j < |candidates| ==> candidates[i] != candidates[j]
    ensures forall i, j :: 0 <= i < j < |Present(candidates)| ==> Present(candidates)[i] != Present(candidates)[j]
  {
    if candidates != [] {
      var front, last := candidates[..|candidates| - 1], candidates[|candidates| - 1];
      PresentDistinct(front);
      PresentElements(front, last);
    }
  }

  /** Every row has references, they do not repeat, and their entities are the six fixed names. */
  lemma OfShape(row: Row)
    ensures Of(row) != []
    ensures forall i, j :: 0 <= i < j < |Of(row)| ==> Of(row)[i] != Of(row)[j]
    ensures forall r :: r in Of(row) ==> r.entity in ENTITIES
  {
    var candidates := Candidates(row);
    assert forall i, j :: 0 <= i < j < |candidates| ==> candidates[i].entity != candidates[j].entity by {
      assert |"unionid"| == 7 && |"wecom_external_userid"| == 21 && |"openid"| == 6 && |"phone"| == 5;
    }
    PresentDistinct(candidates);
    forall r | r in Of(row) ensures r.entity in ENTITIES {
      PresentElements(candidates, r);
    }
  }

  lemma EntityPlain(entity: string)
    requires entity in ENTITIES
    ensures NUL !in entity
  {
  }

  /** Joining entity and value with a NUL loses nothing, because no entity contains one. */
  lemma KeyInjective(a: Reference, b: Reference)
    requires a.entity in ENTITIES && b.entity in ENTITIES && Key(a) == Key(b)
    ensures a == b
  {
    EntityPlain(a.entity);
    EntityPlain(b.entity);
    Text.SplitAt(a.entity, a.value, b.entity, b.value, NUL);
  }
}
