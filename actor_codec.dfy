/**
 * mflix.api.utils.ActorCodec: converts an Actor to and from the document that
 * is persisted for it, and assigns and exposes its identifier.
 */
module ActorCodec {
  import opened Wrappers
  import opened Bson
  import opened Models

  /** Every key an actor document may carry. */
  const ActorKeys: set<string> := {"_id", "name", "date_of_birth", "awards", "num_movies"}

  /**
   * The document encode builds for an actor in state a: a key is written only
   * when its field is non-null, and num_movies only when it is non-zero.
   */
  function EncodedDocument(a: ActorState): (doc: Document)
    ensures doc.Keys <= ActorKeys
    ensures NullValue !in doc.Values
    ensures "_id" in doc <==> a.id.Some?
    ensures "name" in doc <==> a.name.Some?
    ensures "date_of_birth" in doc <==> a.dateOfBirth.Some?
    ensures "awards" in doc <==> a.awards.Some?
    ensures "num_movies" in doc <==> a.numMovies != 0
    ensures a.id.Some? ==> doc["_id"] == ObjectIdValue(a.id.value)
    ensures a.name.Some? ==> doc["name"] == StringValue(a.name.value)
    ensures a.dateOfBirth.Some? ==> doc["date_of_birth"] == DateValue(a.dateOfBirth.value)
    ensures a.awards.Some? ==> doc["awards"] == ListValue(a.awards.value)
    ensures a.numMovies != 0 ==> doc["num_movies"] == Int32Value(a.numMovies)
  {
    var d0: Document := map[];
    var d1 := if a.id.Some? then d0["_id" := ObjectIdValue(a.id.value)] else d0;
    var d2 := if a.name.Some? then d1["name" := StringValue(a.name.value)] else d1;
    var d3 := if a.dateOfBirth.Some? then d2["date_of_birth" := DateValue(a.dateOfBirth.value)] else d2;
    var d4 := if a.awards.Some? then d3["awards" := ListValue(a.awards.value)] else d3;
    if a.numMovies != 0 then d4["num_movies" := Int32Value(a.numMovies)] else d4
  }

  /**
   * encode, up to the hand-over of the document to the BSON writer: reads the
   * five fields and puts each present one into a new document. The actor is
   * only read (the method has no modifies clause).
   */
  method Encode(actor: Actor) returns (doc: Document)
    ensures doc == EncodedDocument(actor.State())
  {
    var actorId := actor.id;
    var name := actor.name;
    var dateOfBirth := actor.dateOfBirth;
    var awards := actor.awards;
    var numMovies := actor.numMovies;
    doc := map[];
    if actorId.Some? {
      doc := doc["_id" := ObjectIdValue(actorId.value)];
    }
    if name.Some? {
      doc := doc["name" := StringValue(name.value)];
    }
    if dateOfBirth.Some? {
      doc := doc["date_of_birth" := DateValue(dateOfBirth.value)];
    }
    if awards.Some? {
      doc := doc["awards" := ListValue(awards.value)];
    }
    if numMovies != 0 {
      doc := doc["num_movies" := Int32Value(numMovies)];
    }
  }

  /** The value under key can be read by the getter that decode uses for it. */
  predicate Castable<T>(doc: Document, key: string, cast: Value -> Option<T>) {
    Get(doc, key).None? || cast(doc[key]).Some?
  }

  /**
   * The actor decode builds from doc, or the exception it throws: the five
   * getters run in setter order, so the first key whose value has the wrong
   * class throws ClassCastException, and a missing or null num_movies throws
   * NullPointerException when it is unboxed into setNumMovies(int).
   */
  function DecodedState(doc: Document): (r: Result<ActorState, JavaException>)
    ensures r.Success? <==>
      && Castable(doc, "_id", AsObjectId)
      && Castable(doc, "name", AsString)
      && Castable(doc, "date_of_birth", AsDate)
      && Castable(doc, "awards", AsList)
      && "num_movies" in doc && doc["num_movies"].Int32Value?
    ensures Get(doc, "num_movies").None? ==> r.Failure?
    ensures !Castable(doc, "_id", AsObjectId) ==> r == Failure(ClassCastException("_id"))
    ensures Castable(doc, "_id", AsObjectId) && !Castable(doc, "name", AsString) ==>
      r == Failure(ClassCastException("name"))
    ensures Castable(doc, "_id", AsObjectId) && Castable(doc, "name", AsString) && !Castable(doc, "date_of_birth", AsDate) ==>
      r == Failure(ClassCastException("date_of_birth"))
    ensures (Castable(doc, "_id", AsObjectId) && Castable(doc, "name", AsString) && Castable(doc, "date_of_birth", AsDate)
             && !Castable(doc, "awards", AsList)) ==>
      r == Failure(ClassCastException("awards"))
    ensures (Castable(doc, "_id", AsObjectId) && Castable(doc, "name", AsString) && Castable(doc, "date_of_birth", AsDate)
             && Castable(doc, "awards", AsList)) ==>
      && (!Castable(doc, "num_movies", AsInteger) ==> r == Failure(ClassCastException("num_movies")))
      && (Get(doc, "num_movies").None? ==> r == Failure(NullPointerException("num_movies")))
    ensures r.Success? ==> r.value.id == (if Get(doc, "_id").None? then None else AsObjectId(doc["_id"]))
    ensures r.Success? ==> r.value.name == (if Get(doc, "name").None? then None else AsString(doc["name"]))
    ensures r.Success? ==> r.value.dateOfBirth == (if Get(doc, "date_of_birth").None? then None else AsDate(doc["date_of_birth"]))
    ensures r.Success? ==> r.value.awards == (if Get(doc, "awards").None? then None else AsList(doc["awards"]))
    ensures r.Success? ==> Int32Value(r.value.numMovies) == doc["num_movies"]
  {
    var id :- GetAs(doc, "_id", AsObjectId);
    var name :- GetAs(doc, "name", AsString);
    var dateOfBirth :- GetAs(doc, "date_of_birth", AsDate);
    var awards :- GetAs(doc, "awards", AsList);
    var numMovies :- GetAs(doc, "num_movies", AsInteger);
    if numMovies.None? then Failure(NullPointerException("num_movies"))
    else Success(ActorState(id, name, dateOfBirth, awards, numMovies.value))
  }

  /**
   * decode, from the already decoded Document: a new Actor filled in through
   * its five setters, or the exception the first failing getter throws.
   */
  method Decode(doc: Document) returns (r: Result<Actor, JavaException>)
    ensures r.Success? <==> DecodedState(doc).Success?
    ensures r.Failure? ==> r.error == DecodedState(doc).error
    ensures r.Success? ==> fresh(r.value) && r.value.State() == DecodedState(doc).value
  {
    var actor := new Actor();
    var id := GetAs(doc, "_id", AsObjectId);
    if id.Failure? {
      return Failure(id.error);
    }
    actor.SetId(id.value);
    var name := GetAs(doc, "name", AsString);
    if name.Failure? {
      return Failure(name.error);
    }
    actor.SetName(name.value);
    var dateOfBirth := GetAs(doc, "date_of_birth", AsDate);
    if dateOfBirth.Failure? {
      return Failure(dateOfBirth.error);
    }
    actor.SetDateOfBirth(dateOfBirth.value);
    var awards := GetAs(doc, "awards", AsList);
    if awards.Failure? {
      return Failure(awards.error);
    }
    actor.SetAwards(awards.value);
    var numMovies := GetAs(doc, "num_movies", AsInteger);
    if numMovies.Failure? {
      return Failure(numMovies.error);
    }
    if numMovies.value.None? {
      return Failure(NullPointerException("num_movies"));
    }
    actor.SetNumMovies(numMovies.value.value);
    r := Success(actor);
  }

  /** An actor with non-zero numMovies survives encode followed by decode unchanged. */
  lemma RoundTrip(a: ActorState)
    requires a.numMovies != 0
    ensures DecodedState(EncodedDocument(a)) == Success(a)
  {
  }

  /**
   * An actor with numMovies == 0 is encoded without num_movies, and decoding
   * that document throws NullPointerException.
   */
  lemma ZeroNumMoviesDoesNotRoundTrip(a: ActorState)
    requires a.numMovies == 0
    ensures DecodedState(EncodedDocument(a)) == Failure(NullPointerException("num_movies"))
  {
  }

  /**
   * The effect of generateIdIfAbsentFromDocument on an actor's state: an actor
   * with an id is left as it is; otherwise only the id changes, to a present one.
   */
  ghost predicate IdGenerated(before: ActorState, after: ActorState) {
    if before.id.Some? then after == before
    else after.id.Some? && after == before.(id := after.id)
  }

  /** Generating an id twice has the effect of generating it once. */
  lemma IdGeneratedIdempotent(a: ActorState, b: ActorState, c: ActorState)
    requires IdGenerated(a, b) && IdGenerated(b, c)
    ensures c == b
    ensures IdGenerated(a, c)
  {
  }

  method GenerateIdIfAbsentFromDocument(actor: Actor) returns (r: Actor)
    modifies actor
    ensures r == actor
    ensures IdGenerated(old(actor.State()), actor.State())
  {
    if !DocumentHasId(actor) {
      r := actor.WithNewId();
    } else {
      r := actor;
    }
  }

  function DocumentHasId(actor: Actor): (r: bool)
    reads actor
    ensures r <==> actor.State().id.Some?
  {
    actor.id != None
  }

  /** The actor's id as a BsonObjectId; IllegalStateException when it has none. */
  function GetDocumentId(actor: Actor): (r: Result<BsonObjectId, JavaException>)
    reads actor
    ensures r.Failure? <==> actor.id.None?
    ensures r.Failure? ==> r.error == IllegalStateException("This document does not have an _id")
    ensures r.Success? ==> r.value == BsonObjectId(actor.id.value)
  {
    if !DocumentHasId(actor) then Failure(IllegalStateException("This document does not have an _id"))
    else Success(BsonObjectId(actor.id.value))
  }
}
