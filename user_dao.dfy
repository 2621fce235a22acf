/**
 * mflix.api.daos.UserDao over in-memory `users` and `sessions` collections
 * (see module Store for the assumed collection semantics).
 */
module UserDao {
  import opened Wrappers
  import opened Bson
  import opened Store

  datatype User = User(name: string, email: string, hashedPassword: string, preferences: map<string, Value>)

  datatype Session = Session(userId: string, jwt: string)

  /** The fields the DAO filters on. */
  function UserName(u: User): string { u.name }
  function UserEmail(u: User): string { u.email }
  function SessionUserId(s: Session): string { s.userId }
  function SessionJwt(s: Session): string { s.jwt }

  /** com.mongodb.client.model.UpdateOptions; only the upsert flag is modelled. */
  datatype UpdateOptions = UpdateOptions(upsert: bool)

  const UserExistsMessage := "That user already exists"

  class UserDao {
    var users: seq<User>
    var sessions: seq<Session>
    const options: UpdateOptions

    /** The DAO as its constructor leaves it: upsert switched on in the shared options. */
    ghost predicate Valid()
      reads this
    {
      options.upsert
    }

    /** The collections start with whatever the database holds; options.upsert(true) is set. */
    constructor (users: seq<User>, sessions: seq<Session>)
      ensures Valid()
      ensures this.users == users && this.sessions == sessions
    {
      this.users := users;
      this.sessions := sessions;
      options := UpdateOptions(true);
    }

    /**
     * Inserts user unless a user with the same name (not email) exists, in
     * which case it throws IncorrectDaoOperation and inserts nothing.
     */
    method AddUser(user: User) returns (r: Result<bool, JavaException>)
      modifies this
      ensures sessions == old(sessions)
      ensures Contains(old(users), UserName, user.name) ==>
        r == Failure(IncorrectDaoOperation(UserExistsMessage)) && users == old(users)
      ensures !Contains(old(users), UserName, user.name) ==>
        r == Success(true) && users == old(users) + [user]
      ensures UniqueBy(old(users), UserName) ==> UniqueBy(users, UserName)
    {
      var existing := FindFirst(users, UserName, user.name);
      if existing.None? {
        users := users + [user];
        r := Success(true);
      } else {
        r := Failure(IncorrectDaoOperation(UserExistsMessage));
      }
    }

    /**
     * Upserts Session(userId, jwt) keyed on userId and returns true exactly
     * when the update reports no modified document.
     */
    method CreateUserSession(userId: string, jwt: string) returns (r: bool)
      requires Valid()
      modifies this
      ensures users == old(users)
      ensures var (after, result) := UpdateOne(old(sessions), SessionUserId, userId, Session(userId, jwt), true);
        sessions == after && (r <==> result.modifiedCount == 0)
      ensures Session(userId, jwt) in sessions
      ensures forall k :: 0 <= k < |old(sessions)| && old(sessions)[k].userId != userId ==>
        k < |sessions| && sessions[k] == old(sessions)[k]
      ensures |sessions| == |old(sessions)| + (if Contains(old(sessions), SessionUserId, userId) then 0 else 1)
      ensures UniqueBy(old(sessions), SessionUserId) ==>
        && UniqueBy(sessions, SessionUserId)
        && (r <==> forall k :: 0 <= k < |old(sessions)| && old(sessions)[k].userId == userId ==> old(sessions)[k].jwt == jwt)
    {
      var newSession := Session(userId, jwt);
      var (after, resultWithUpsert) := UpdateOne(sessions, SessionUserId, userId, newSession, options.upsert);
      sessions := after;
      r := resultWithUpsert.modifiedCount == 0;
      if UniqueBy(old(sessions), SessionUserId) {
        UpsertKeepsUnique(old(sessions), SessionUserId, userId, newSession);
        UpsertUnmodifiedIff(old(sessions), SessionUserId, userId, newSession);
      }
    }

    /** The first session whose userId matches, or None (null). */
    method GetUserSession(userId: string) returns (r: Option<Session>)
      ensures r.None? <==> !Contains(sessions, SessionUserId, userId)
      ensures r.Some? ==> r.value.userId == userId && r.value in sessions
      ensures r.Some? ==>
        exists k :: 0 <= k < |sessions| && sessions[k] == r.value && forall j :: 0 <= j < k ==> sessions[j].userId != userId
    {
      // the source runs the lookup once to test for null and again to return it
      var probe := FindFirst(sessions, SessionUserId, userId);
      if probe.Some? {
        var found := FindFirst(sessions, SessionUserId, userId);
        return Some(sessions[found.value]);
      }
      return None;
    }

    /**
     * Finds the first session of userId and deletes the first session that
     * has the same jwt (which may belong to another user); always false.
     */
    method DeleteUserSessions(userId: string) returns (r: bool)
      modifies this
      ensures !r
      ensures users == old(users)
      ensures !Contains(old(sessions), SessionUserId, userId) ==> sessions == old(sessions)
      ensures Contains(old(sessions), SessionUserId, userId) ==>
        var i := FindFirst(old(sessions), SessionUserId, userId).value;
        sessions == DeleteOne(old(sessions), SessionJwt, old(sessions)[i].jwt)
      ensures Contains(old(sessions), SessionUserId, userId) && UniqueBy(old(sessions), SessionJwt) ==>
        var i := FindFirst(old(sessions), SessionUserId, userId).value;
        sessions == old(sessions)[..i] + old(sessions)[i + 1..]
    {
      var probe := FindFirst(sessions, SessionUserId, userId);
      if probe.Some? {
        var found := FindFirst(sessions, SessionUserId, userId);
        var sessionToDelete := sessions[found.value];
        if UniqueBy(sessions, SessionJwt) {
          DeleteUniqueRemovesIt(sessions, SessionJwt, found.value);
        }
        sessions := DeleteOne(sessions, SessionJwt, sessionToDelete.jwt);
      }
      return false;
    }

    /**
     * Deletes the first user whose email matches; the user's sessions are
     * left alone and the result is always false.
     */
    method DeleteUser(email: string) returns (r: bool)
      modifies this
      ensures !r
      ensures sessions == old(sessions)
      ensures users == DeleteOne(old(users), UserEmail, email)
      ensures |users| == |old(users)| - (if Contains(old(users), UserEmail, email) then 1 else 0)
    {
      var probe := FindFirst(users, UserEmail, email);
      if probe.Some? {
        var found := FindFirst(users, UserEmail, email);
        var userToDelete := users[found.value];
        users := DeleteOne(users, UserEmail, userToDelete.email);
      }
      return false;
    }

    /** An unimplemented stub: it changes nothing and returns false. */
    method UpdateUserPreferences(email: string, userPreferences: map<string, Value>) returns (r: bool)
      ensures !r
    {
      return false;
    }
  }

  /**
   * Two sessions created one after the other for the same userId, starting
   * from a store with at most one session per userId, leave exactly one
   * session for that userId, carrying the second jwt.
   */
  lemma CreateSessionTwice(sessions: seq<Session>, userId: string, jwt1: string, jwt2: string)
    requires UniqueBy(sessions, SessionUserId)
    ensures var once := UpdateOne(sessions, SessionUserId, userId, Session(userId, jwt1), true).0;
      var twice := UpdateOne(once, SessionUserId, userId, Session(userId, jwt2), true).0;
      exists k :: 0 <= k < |twice| && twice[k] == Session(userId, jwt2) &&
        forall m :: 0 <= m < |twice| && twice[m].userId == userId ==> m == k
  {
  }

  /**
   * deleteUserSessions deletes by jwt: when another user's session that
   * comes first carries the same jwt, that session is the one removed.
   */
  lemma DeleteByJwtCanRemoveAnotherUsersSession()
    ensures var sessions := [Session("bob", "token"), Session("alice", "token")];
      var i := FindFirst(sessions, SessionUserId, "alice").value;
      DeleteOne(sessions, SessionJwt, sessions[i].jwt) == [Session("alice", "token")]
  {
  }

  /**
   * The duplicate check reads names only: starting from an empty users
   * collection, two users sharing an email but not a name are both inserted,
   * and a third with the first one's name but another email is rejected.
   */
  method AddUserChecksNameOnly(dao: UserDao, a: User, b: User, c: User)
    requires dao.users == []
    requires a.email == b.email && a.name != b.name
    requires c.name == a.name && c.email != a.email
    modifies dao
    ensures dao.users == [a, b]
  {
    var ra := dao.AddUser(a);
    assert ra == Success(true);
    var rb := dao.AddUser(b);
    assert dao.users[0].name == a.name;
    assert rb == Success(true);
    var rc := dao.AddUser(c);
    assert dao.users[0].name == c.name;
    assert rc == Failure(IncorrectDaoOperation(UserExistsMessage));
  }
}
