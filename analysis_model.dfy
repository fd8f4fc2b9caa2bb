/** The analysis record: its shape, the schema's required/enum constraints, the store-assigned
    timestamps, and the collection that holds the saved records. */
module AnalysisModel {
  import opened Common
  import opened Kinds

  // Document identifiers are 12-byte ObjectIds, written as 24 hexadecimal digits.

  predicate IsHexDigit(c: char) {
    '0' <= c <= '9' || 'a' <= c <= 'f' || 'A' <= c <= 'F'
  }

  predicate IsLowerHexDigit(c: char) {
    '0' <= c <= '9' || 'a' <= c <= 'f'
  }

  /** A string that casts to an ObjectId: 24 hexadecimal digits in either case. */
  predicate IsObjectIdText(s: string) {
    |s| == 24 && forall i :: 0 <= i < |s| ==> IsHexDigit(s[i])
  }

  /** The canonical (lower-case) text of an ObjectId. */
  predicate IsCanonicalObjectId(s: string) {
    |s| == 24 && forall i :: 0 <= i < |s| ==> IsLowerHexDigit(s[i])
  }

  type ObjectId = s: string | IsCanonicalObjectId(s) witness "000000000000000000000000"

  const ObjectIdZero: ObjectId := "000000000000000000000000"

  /** Casting a path or body value to an ObjectId; `None` is the cast error a query raises. */
  function CastObjectId(s: string): (r: Option<ObjectId>)
    ensures r.Some? <==> IsObjectIdText(s)
    ensures r.Some? ==> |r.value| == |s| && forall i :: 0 <= i < |s| ==> r.value[i] == LowerChar(s[i])
  {
    if IsObjectIdText(s) then
      assert IsCanonicalObjectId(ToLower(s));
      var t: ObjectId := ToLower(s);
      Some(t)
    else None
  }

  /** The text an ObjectId is sent as casts back to the same ObjectId. */
  lemma CastCanonical(id: ObjectId)
    ensures CastObjectId(id) == Some(id)
  {
    assert ToLower(id) == id;
  }

  /** A loosely typed value, for the `results` field whose schema type is `Mixed`. */
  datatype Json =
    | JNull
    | JBool(b: bool)
    | JNum(n: int)
    | JStr(s: string)
    | JDate(ms: nat)
    | JArr(items: seq<Json>)
    | JObj(fields: seq<(string, Json)>)

  /** A saved record (`IAnalysis`), with the `createdAt`/`updatedAt` pair the schema's
      `timestamps` option adds. Times are milliseconds since the epoch. */
  datatype Analysis = Analysis(
    id: ObjectId,
    userId: ObjectId,
    kind: Kind,
    imageUrl: string,
    results: Json,
    createdAt: nat,
    updatedAt: nat)

  /** What `new Analysis({...})` is given: any field may be missing. */
  datatype Draft = Draft(
    userId: Option<ObjectId>,
    kind: Option<string>,
    imageUrl: Option<string>,
    results: Option<Json>)

  datatype Field = UserIdField | TypeField | ImageUrlField | ResultsField

  /** The schema paths that fail validation. A required string must be a non-empty string, the
      `type` path must also be one of the enum values, and a required `Mixed` path must be
      neither missing nor null. */
  function ValidationErrors(d: Draft): (r: set<Field>)
    ensures r == {} ==> d.userId.Some? && d.kind.Some? && d.imageUrl.Some? && d.results.Some?
    ensures TypeField !in r ==> d.kind.Some? && d.kind.value in ValidTypes
  {
    (if d.userId.None? then {UserIdField} else {})
    + (if d.kind.None? || Parse(d.kind.value).None? then {TypeField} else {})
    + (if d.imageUrl.None? || d.imageUrl.value == "" then {ImageUrlField} else {})
    + (if d.results.None? || d.results.value == JNull then {ResultsField} else {})
  }

  /** The schema's constraints, stated of a saved record. */
  predicate Conforms(a: Analysis) {
    a.imageUrl != "" && a.results != JNull && a.createdAt <= a.updatedAt
  }

  /** The record saving a valid draft produces: the store assigns both timestamps. */
  function Build(d: Draft, id: ObjectId, now: nat): (a: Analysis)
    requires ValidationErrors(d) == {}
    ensures Conforms(a)
    ensures a.id == id && a.userId == d.userId.value && Name(a.kind) == d.kind.value
    ensures a.imageUrl == d.imageUrl.value && a.results == d.results.value
    ensures a.createdAt == now && a.updatedAt == now
  {
    Analysis(id, d.userId.value, Parse(d.kind.value).value, d.imageUrl.value, d.results.value, now, now)
  }

  /** A draft is saved exactly when every required field is present and the type is in the enum. */
  lemma MissingFieldRejected(d: Draft)
    requires d.userId.None? || d.kind.None? || d.imageUrl.None? || d.results.None?
    ensures ValidationErrors(d) != {}
  {
    if d.userId.None? {
      assert UserIdField in ValidationErrors(d);
    } else if d.kind.None? {
      assert TypeField in ValidationErrors(d);
    } else if d.imageUrl.None? {
      assert ImageUrlField in ValidationErrors(d);
    } else {
      assert ResultsField in ValidationErrors(d);
    }
  }

  lemma TypeOutsideEnumRejected(d: Draft)
    requires d.kind.Some? && d.kind.value !in ValidTypes
    ensures TypeField in ValidationErrors(d)
  {
  }

  datatype SaveError = ValidationFailed(fields: set<Field>) | DuplicateKey | StoreFault

  datatype SaveOutcome = Saved(record: Analysis) | NotSaved(error: SaveError)

  predicate UsesId(records: seq<Analysis>, id: ObjectId) {
    exists i :: 0 <= i < |records| && records[i].id == id
  }

  /** The analyses collection. */
  class AnalysisCollection {
    var records: seq<Analysis>

    /** Identifiers are unique (the `_id` index) and every record satisfies the schema. */
    ghost predicate Valid()
      reads this
    {
      && (forall i, j :: 0 <= i < j < |records| ==> records[i].id != records[j].id)
      && (forall i :: 0 <= i < |records| ==> Conforms(records[i]))
    }

    constructor ()
      ensures Valid() && records == []
    {
      records := [];
    }

    /** `analysis.save()`: validate, then insert with the store's clock. `id` is the ObjectId the
        document was given when it was built; `fault` stands for a failure of the database. */
    method Insert(d: Draft, id: ObjectId, now: nat, fault: bool) returns (r: SaveOutcome)
      requires Valid()
      modifies this
      ensures Valid()
      ensures ValidationErrors(d) != {} ==> r == NotSaved(ValidationFailed(ValidationErrors(d)))
      ensures ValidationErrors(d) == {} && fault ==> r == NotSaved(StoreFault)
      ensures ValidationErrors(d) == {} && !fault && UsesId(old(records), id) ==> r == NotSaved(DuplicateKey)
      ensures r.NotSaved? ==> records == old(records)
      ensures r.Saved? <==> ValidationErrors(d) == {} && !fault && !UsesId(old(records), id)
      ensures r.Saved? ==> r.record == Build(d, id, now) && records == old(records) + [r.record]
    {
      var errors := ValidationErrors(d);
      if errors != {} {
        r := NotSaved(ValidationFailed(errors));
      } else if fault {
        r := NotSaved(StoreFault);
      } else if UsesId(records, id) {
        r := NotSaved(DuplicateKey);
      } else {
        var a := Build(d, id, now);
        records := records + [a];
        r := Saved(a);
      }
    }
  }
}
