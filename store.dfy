/**
 * An in-memory model of a MongoDB collection: a sequence of records in
 * insertion order. A filter is an equality on one string field, given as the
 * function that reads that field from a record. Assumed semantics: a lookup
 * returns the first matching record, deleteOne removes the first matching
 * record, and updateOne with upsert replaces the first matching record or
 * appends one when none matches.
 */
module Store {
  import opened Wrappers

  /** What updateOne reports (com.mongodb.client.result.UpdateResult). */
  datatype UpdateResult = UpdateResult(matchedCount: nat, modifiedCount: nat, upserted: bool)

  ghost predicate Contains<R>(records: seq<R>, field: R -> string, value: string) {
    exists j :: 0 <= j < |records| && field(records[j]) == value
  }

  /** No two records agree on field. */
  ghost predicate UniqueBy<R>(records: seq<R>, field: R -> string) {
    forall i, j :: 0 <= i < |records| && 0 <= j < |records| && field(records[i]) == field(records[j]) ==> i == j
  }

  /** The position of the first record whose field equals value (find(filter).first()). */
  function FindFirst<R>(records: seq<R>, field: R -> string, value: string): (r: Option<nat>)
    ensures r.None? <==> !Contains(records, field, value)
    ensures r.Some? ==> r.value < |records| && field(records[r.value]) == value
    ensures r.Some? ==> forall j :: 0 <= j < r.value ==> field(records[j]) != value
    decreases |records|
  {
    if |records| == 0 then None
    else if field(records[0]) == value then Some(0)
    else
      match FindFirst(records[1..], field, value)
      case None =>
        assert forall j :: 1 <= j < |records| ==> records[j] == records[1..][j - 1];
        None
      case Some(k) =>
        assert forall j :: 1 <= j <= k ==> records[j] == records[1..][j - 1];
        Some(k + 1)
  }

  /** deleteOne(filter): the first matching record is removed; nothing else changes. */
  function DeleteOne<R>(records: seq<R>, field: R -> string, value: string): (r: seq<R>)
    ensures FindFirst(records, field, value).None? ==> r == records
    ensures FindFirst(records, field, value).Some? ==>
      var i := FindFirst(records, field, value).value;
      r == records[..i] + records[i + 1..]
    decreases |records|
  {
    if |records| == 0 then []
    else if field(records[0]) == value then records[1..]
    else
      match FindFirst(records[1..], field, value)
      case None => records
      case Some(k) =>
        RemoveAtCons(records, k);
        [records[0]] + DeleteOne(records[1..], field, value)
  }

  /** Removing position k + 1 from a sequence keeps its head and removes position k from its tail. */
  lemma RemoveAtCons<R>(s: seq<R>, k: nat)
    requires k + 1 < |s|
    ensures s[..k + 1] + s[k + 2..] == [s[0]] + (s[1..][..k] + s[1..][k + 1..])
  {
  }

  /**
   * updateOne(filter, {$set: replacement}, options) where the update sets
   * every field of the record: the first matching record becomes replacement;
   * with upsert and no match, replacement is appended. modifiedCount is 0
   * unless a matched record actually changed.
   */
  function UpdateOne<R(==)>(records: seq<R>, field: R -> string, value: string, replacement: R, upsert: bool)
    : (r: (seq<R>, UpdateResult))
    ensures r.1.upserted <==> upsert && !Contains(records, field, value)
    ensures r.1.matchedCount == (if Contains(records, field, value) then 1 else 0)
    ensures |r.0| == |records| + (if r.1.upserted then 1 else 0)
    ensures forall j :: 0 <= j < |records| && field(records[j]) != value ==> r.0[j] == records[j]
    ensures Contains(records, field, value) || upsert ==> replacement in r.0
    ensures Contains(records, field, value) ==>
      var i := FindFirst(records, field, value).value;
      r.0 == records[i := replacement] && (r.1.modifiedCount == 0 <==> records[i] == replacement)
    ensures !Contains(records, field, value) ==> r.1.modifiedCount == 0
    ensures r.1.upserted ==> r.0 == records + [replacement]
    ensures !Contains(records, field, value) && !upsert ==> r.0 == records
  {
    match FindFirst(records, field, value)
    case Some(i) =>
      var updated := records[i := replacement];
      assert updated[i] == replacement;
      (updated, UpdateResult(1, if records[i] == replacement then 0 else 1, false))
    case None =>
      if upsert then (records + [replacement], UpdateResult(0, 0, true))
      else (records, UpdateResult(0, 0, false))
  }

  /**
   * After an upsert whose replacement carries the filtered value, the first
   * record with that value is the replacement.
   */
  lemma UpsertThenFind<R>(records: seq<R>, field: R -> string, value: string, replacement: R)
    requires field(replacement) == value
    ensures var after := UpdateOne(records, field, value, replacement, true).0;
      FindFirst(after, field, value).Some? && after[FindFirst(after, field, value).value] == replacement
  {
    var after := UpdateOne(records, field, value, replacement, true).0;
    assert Contains(after, field, value);
    if Contains(records, field, value) {
      var i := FindFirst(records, field, value).value;
      assert FindFirst(after, field, value) == Some(i) by {
        var f := FindFirst(after, field, value).value;
        assert field(after[i]) == value;
      }
    } else {
      assert FindFirst(after, field, value) == Some(|records|) by {
        assert after[|records|] == replacement;
      }
    }
  }

  /** An upsert keyed on field, whose replacement carries the filtered value, keeps field unique. */
  lemma UpsertKeepsUnique<R>(records: seq<R>, field: R -> string, value: string, replacement: R)
    requires UniqueBy(records, field)
    requires field(replacement) == value
    ensures UniqueBy(UpdateOne(records, field, value, replacement, true).0, field)
  {
  }

  /**
   * With field unique, an upsert reports modifiedCount 0 exactly when every
   * record that matches is already equal to the replacement.
   */
  lemma UpsertUnmodifiedIff<R>(records: seq<R>, field: R -> string, value: string, replacement: R)
    requires UniqueBy(records, field)
    ensures UpdateOne(records, field, value, replacement, true).1.modifiedCount == 0 <==>
      forall j :: 0 <= j < |records| && field(records[j]) == value ==> records[j] == replacement
  {
  }

  /** With field unique, deleteOne keyed on the field of the record at i removes exactly that record. */
  lemma DeleteUniqueRemovesIt<R>(records: seq<R>, field: R -> string, i: nat)
    requires UniqueBy(records, field)
    requires i < |records|
    ensures DeleteOne(records, field, field(records[i])) == records[..i] + records[i + 1..]
  {
  }
}
