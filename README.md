# mflix data-access core in Dafny

A model of three pieces of the mflix API's data-access layer, with proofs about
them:

- the `Actor` model object, a mutable record of five fields (`id`, `name`,
  `dateOfBirth`, `awards`, `numMovies`) with setters and `withNewId`;
- `ActorCodec`, which turns an `Actor` into a key/value document and back,
  assigns a fresh id to an actor without one, and exposes the id;
- the decision logic of `UserDao` over the `users` and `sessions`
  collections: `addUser`, `createUserSession`, `getUserSession`,
  `deleteUserSessions`, `deleteUser` and `updateUserPreferences`.

Files and modules:

- `wrappers.dfy` (`Wrappers`): `Option` (a Java reference that may be null),
  `Result`, and the Java exceptions the code throws.
- `bson.dfy` (`Bson`): `ObjectId`, `Date` and award values as abstract types,
  Java's 32-bit `int`, the values a document can hold, `Document` as
  `map<string, Value>`, and the typed getters of `org.bson.Document`.
  `NewObjectId` stands for `new ObjectId()`. It returns some identifier and
  promises nothing else.
- `actor.dfy` (`Models`): `ActorState`, a snapshot of the five fields, and the
  class `Actor`. A Java getter such as `getName()` is a plain read of the
  Dafny field of the same name.
- `actor_codec.dfy` (`ActorCodec`): `Encode` and `Decode` as imperative
  methods. `EncodedDocument` and `DecodedState` are the functions that specify
  them. The round-trip lemmas are stated over those two functions.
- `store.dfy` (`Store`): an in-memory collection, modelled as a sequence of
  records in insertion order. A filter is an equality on one string field.
  The collection semantics are assumed, not taken from the driver:
  - a lookup (`find(...).first()`, `aggregate(...).first()`) returns the first
    matching record;
  - `deleteOne` removes the first matching record;
  - `updateOne` with `$set` of a whole record replaces the first matching
    record, or, with upsert on and no match, appends the record.
  - `modifiedCount` is 0 unless the matched record actually changed.
- `user_dao.dfy` (`UserDao`): `User`, `Session`, and the class `UserDao`. Its
  `users` and `sessions` fields are the two collections, and its `options`
  field is the shared `UpdateOptions` object.

The model follows the code as written, also where the code departs from its
own doc comments or from what a user store would be expected to do:

- `addUser` checks for an existing user by name, not by email.
- `createUserSession` returns true exactly when the upsert reports a modified
  count of 0. So it returns true when no session for the user existed, and
  also when the existing session already had the same jwt. It returns false
  when an existing session was changed.
- `deleteUserSessions` always returns false. It deletes by the jwt of the
  user's first session, so it can remove another user's session that
  carries the same jwt (`DeleteByJwtCanRemoveAnotherUsersSession`).
- `deleteUser` always returns false, although its doc comment promises true
  on removal. It never touches the sessions, although a comment says it
  removes them.
- `updateUserPreferences` is a stub that returns false and changes nothing.
- `decode` does not fill in a default for a missing `num_movies`. It unboxes a
  null `Integer` into `setNumMovies(int)` and throws `NullPointerException`.
  `encode` omits `num_movies` when it is 0, so an actor with `numMovies == 0`
  does not survive a round trip.
- `getDocumentId` throws `IllegalStateException`.

## Model

| member | source | states |
|---|---|---|
| `Bson.GetAs` | src/main/java/mflix/api/utils/ActorCodec.java:58-62 | A typed Document getter: an absent key or a null yields null, an object of another class throws ClassCastException naming the key, otherwise the cast object |
| `Models.Actor.constructor` | src/main/java/mflix/api/models/Actor.java:10-22 | A new Actor has null id, name, dateOfBirth and awards, and numMovies 0 |
| `Models.Actor.SetName` | src/main/java/mflix/api/models/Actor.java:24-30 | Only name changes, and the getter (a field read) then returns the value set |
| `Models.Actor.SetDateOfBirth` | src/main/java/mflix/api/models/Actor.java:32-38 | Only dateOfBirth changes, and the getter then returns the value set |
| `Models.Actor.SetAwards` | src/main/java/mflix/api/models/Actor.java:40-46 | Only awards changes, and the getter then returns the value set |
| `Models.Actor.SetNumMovies` | src/main/java/mflix/api/models/Actor.java:48-54 | Only numMovies changes, and the getter then returns the value set |
| `Models.Actor.SetId` | src/main/java/mflix/api/models/Actor.java:56-62 | Only id changes, and the getter then returns the value set |
| `Models.Actor.WithNewId` | src/main/java/mflix/api/models/Actor.java:64-67 | Returns the receiver itself; id is non-null afterwards, whatever it was before; name, dateOfBirth, awards and numMovies are unchanged |
| `ActorCodec.EncodedDocument` | src/main/java/mflix/api/utils/ActorCodec.java:23-48 | The document has `_id`, `name`, `date_of_birth`, `awards` iff the field is non-null (an empty awards list is still written), `num_movies` iff numMovies is non-zero, each with the field's value; no other key and no null value |
| `ActorCodec.Encode` | src/main/java/mflix/api/utils/ActorCodec.java:20-51 | The document built by the successive conditional puts is exactly `EncodedDocument` of the actor's fields; the actor is only read |
| `ActorCodec.DecodedState` | src/main/java/mflix/api/utils/ActorCodec.java:55-63 | Decoding succeeds iff every key holds null or an object of its expected class and `num_movies` holds an Integer; otherwise it throws ClassCastException for the first ill-typed key in setter order, or NullPointerException when `num_movies` is missing or null; a missing key decodes to null; each field otherwise takes the key's value |
| `ActorCodec.Decode` | src/main/java/mflix/api/utils/ActorCodec.java:55-64 | Returns a new Actor whose fields are `DecodedState` of the document, filled in through the five setters, or the exception `DecodedState` names |
| `ActorCodec.RoundTrip` | src/main/java/mflix/api/utils/ActorCodec.java:30-63 | For numMovies != 0, decoding the encoded document gives back exactly the same id, name, dateOfBirth, awards and numMovies |
| `ActorCodec.ZeroNumMoviesDoesNotRoundTrip` | src/main/java/mflix/api/utils/ActorCodec.java:46-62 | For numMovies == 0, decoding the encoded document throws NullPointerException on `num_movies` |
| `ActorCodec.GenerateIdIfAbsentFromDocument` | src/main/java/mflix/api/utils/ActorCodec.java:72-74 | Returns the same object; an actor with an id is left unchanged; otherwise only the id changes, to a non-null one |
| `ActorCodec.IdGeneratedIdempotent` | src/main/java/mflix/api/utils/ActorCodec.java:72-74 | Applying the id generation twice has the same effect as applying it once |
| `ActorCodec.DocumentHasId` | src/main/java/mflix/api/utils/ActorCodec.java:77-79 | Holds iff the actor's id is non-null |
| `ActorCodec.GetDocumentId` | src/main/java/mflix/api/utils/ActorCodec.java:82-88 | Throws IllegalStateException with the source's message iff the actor has no id, and otherwise wraps exactly that id |
| `Store.FindFirst` | src/main/java/mflix/api/daos/UserDao.java:70 | The position of the first record whose field equals the value; none iff no record matches |
| `Store.DeleteOne` | src/main/java/mflix/api/daos/UserDao.java:140 | Removes the first matching record and keeps the others in order; unchanged when nothing matches |
| `Store.UpdateOne` | src/main/java/mflix/api/daos/UserDao.java:89-91 | The first matching record is replaced; with upsert and no match the record is appended; records that do not match keep their place; modifiedCount is 0 iff nothing matched or the matched record already equalled the replacement |
| `Store.UpsertThenFind` | src/main/java/mflix/api/daos/UserDao.java:86-91 | After an upsert keyed on userId, a lookup by that userId finds the new session |
| `Store.UpsertKeepsUnique` | src/main/java/mflix/api/daos/UserDao.java:89-91 | An upsert keyed on a field keeps "at most one record per value of that field" |
| `Store.UpsertUnmodifiedIff` | src/main/java/mflix/api/daos/UserDao.java:89-95 | With the key unique, modifiedCount is 0 iff every matching record already equals the replacement |
| `Store.DeleteUniqueRemovesIt` | src/main/java/mflix/api/daos/UserDao.java:138-140 | With the field unique, deleting by the field of record i removes exactly record i |
| `UserDao.UserDao.constructor` | src/main/java/mflix/api/daos/UserDao.java:44-51 | The shared update options have upsert switched on |
| `UserDao.UserDao.AddUser` | src/main/java/mflix/api/daos/UserDao.java:68-76 | With a same-name user present it throws IncorrectDaoOperation and leaves users unchanged; otherwise it appends exactly that user and returns true; sessions never change; name uniqueness is preserved |
| `UserDao.UserDao.CreateUserSession` | src/main/java/mflix/api/daos/UserDao.java:85-96 | Upserts Session(userId, jwt) and returns true iff the modified count is 0; afterwards that session exists, sessions of other users keep their place, users are unchanged; with one session per user before, there is one after, and the result is true iff every existing session of userId already had that jwt |
| `UserDao.UserDao.GetUserSession` | src/main/java/mflix/api/daos/UserDao.java:123-132 | Null iff no session has that userId; otherwise the first session with that userId |
| `UserDao.UserDao.DeleteUserSessions` | src/main/java/mflix/api/daos/UserDao.java:134-143 | Always false; users unchanged; no session for userId means no change; otherwise the first session carrying the jwt of the user's first session is deleted, which with unique jwts is exactly the user's session |
| `UserDao.UserDao.DeleteUser` | src/main/java/mflix/api/daos/UserDao.java:151-161 | Always false; sessions never change; removes the first user with that email and nothing else |
| `UserDao.UserDao.UpdateUserPreferences` | src/main/java/mflix/api/daos/UserDao.java:171-177 | Always false, and neither collection changes |
| `UserDao.CreateSessionTwice` | src/main/java/mflix/api/daos/UserDao.java:85-91 | Starting with one session per user, two session creations for the same userId leave exactly one session for it, carrying the second jwt |
| `UserDao.DeleteByJwtCanRemoveAnotherUsersSession` | src/main/java/mflix/api/daos/UserDao.java:136-140 | When an earlier session of another user carries the same jwt, deleting the user's sessions removes that other session instead |
| `UserDao.AddUserChecksNameOnly` | src/main/java/mflix/api/daos/UserDao.java:69-75 | Two users with the same email but different names are both inserted; a user with an existing name but a new email is rejected |

## Left out

- BSON wire serialisation (`documentCodec.encode` and `documentCodec.decode`): it is library code. `Encode` returns the document handed to the writer, and `Decode` starts from the decoded document.
- `getEncoderClass`: a reflection hook with no logic.
- ObjectId internals and `Date`: both are opaque. A fresh id is only a present id. Its global uniqueness is not modelled.
- The awards list is a value in the model. Java shares one `List` object between the actor and the document, and that aliasing is not captured.
- The `UserDao` codec registry, collection look-up, logger and Spring wiring: they only connect to the MongoDB driver. The constructor models only the state it leaves and the upsert option.
- `getUser`: it filters users on a `userId` field that users do not carry, and its result depends on how the server treats a bare filter used as a pipeline stage.
- The semantics of `aggregate` with a bare `eq` filter as a pipeline stage: on a real server this is likely rejected. It is modelled as a lookup that returns the first record whose field equals the value.
- Null strings: the fields of `User` and `Session`, and the `userId`, `jwt` and `email` arguments, are non-null in the model. A filter on a null value is not modelled.
- Session documents are assumed to carry only `userId` and `jwt`, so `$set` of a session replaces the whole record.
- Failures of the database itself (connectivity, write conflicts, uniqueness indexes), and races between the lookup and the write in `addUser`, `deleteUserSessions` and `deleteUser`: these are concurrency and I/O concerns outside a sequential model.
