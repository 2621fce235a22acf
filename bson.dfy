/**
 * The part of the BSON library the core relies on: identifiers, the values a
 * document can hold, the document itself as a map from keys to values, and the
 * typed getters of org.bson.Document.
 */
module Bson {
  import opened Wrappers

  /** org.bson.types.ObjectId; its timestamp, counter and randomness are not modelled. */
  type ObjectId(==, 0)

  /** java.util.Date, treated as an opaque value. */
  type Date(==)

  /** One element of an actor's awards list, treated as an opaque value. */
  type Award(==)

  /** Java's 32-bit int. */
  newtype Int32 = x: int | -0x8000_0000 <= x < 0x8000_0000

  /** org.bson.BsonObjectId, the wrapper returned as a document id. */
  datatype BsonObjectId = BsonObjectId(value: ObjectId)

  /** The Java object stored under a key of a Document. */
  datatype Value =
    | NullValue                       // an explicit BSON null
    | ObjectIdValue(oid: ObjectId)
    | StringValue(str: string)
    | DateValue(date: Date)
    | ListValue(items: seq<Award>)
    | Int32Value(int32: Int32)        // java.lang.Integer
    | OtherValue                      // any other class: Long, Double, Boolean, Document, ...

  /** org.bson.Document: a map from keys to values. */
  type Document = map<string, Value>

  /** `new ObjectId()`: some identifier; only its presence is promised. */
  method NewObjectId() returns (oid: ObjectId)
  {
    oid := *;
  }

  /** Document.get: the object under key, or None (null) when the key is absent or holds null. */
  function Get(doc: Document, key: string): (r: Option<Value>)
    ensures r.None? <==> key !in doc || doc[key] == NullValue
    ensures r.Some? ==> key in doc && doc[key] == r.value
  {
    if key in doc && doc[key] != NullValue then Some(doc[key]) else None
  }

  /**
   * A typed getter (getObjectId, getString, getDate, getInteger, or a cast of
   * `get`): null stays null, an object of the wrong class throws
   * ClassCastException, otherwise the cast object.
   */
  function GetAs<T>(doc: Document, key: string, cast: Value -> Option<T>): (r: Result<Option<T>, JavaException>)
    ensures r == Success(None) <==> Get(doc, key).None?
    ensures r.Failure? <==> Get(doc, key).Some? && cast(doc[key]).None?
    ensures r.Failure? ==> r.error == ClassCastException(key)
    ensures r.Success? && r.value.Some? ==> key in doc && cast(doc[key]) == r.value
  {
    match Get(doc, key)
    case None => Success(None)
    case Some(v) =>
      match cast(v)
      case None => Failure(ClassCastException(key))
      case Some(t) => Success(Some(t))
  }

  function AsObjectId(v: Value): Option<ObjectId> {
    if v.ObjectIdValue? then Some(v.oid) else None
  }

  function AsString(v: Value): Option<string> {
    if v.StringValue? then Some(v.str) else None
  }

  function AsDate(v: Value): Option<Date> {
    if v.DateValue? then Some(v.date) else None
  }

  /** The unchecked cast `(List<Document>)`: only the list class is checked, not its elements. */
  function AsList(v: Value): Option<seq<Award>> {
    if v.ListValue? then Some(v.items) else None
  }

  function AsInteger(v: Value): Option<Int32> {
    if v.Int32Value? then Some(v.int32) else None
  }
}
