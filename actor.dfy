/** The Actor model object: five private fields behind getters and setters. */
module Models {
  import opened Wrappers
  import opened Bson

  /** A snapshot of an Actor's five fields. */
  datatype ActorState = ActorState(
    id: Option<ObjectId>,
    name: Option<string>,
    dateOfBirth: Option<Date>,
    awards: Option<seq<Award>>,
    numMovies: Int32)

  /** The state of a freshly constructed Actor: every reference null, numMovies 0. */
  const DefaultActorState := ActorState(None, None, None, None, 0)

  /**
   * mflix.api.models.Actor. A getter such as getName() is a read of the field
   * of the same name; each setter overwrites exactly one field.
   */
  class Actor {
    var id: Option<ObjectId>
    var name: Option<string>
    var dateOfBirth: Option<Date>
    var awards: Option<seq<Award>>
    var numMovies: Int32

    function State(): ActorState
      reads this
    {
      ActorState(id, name, dateOfBirth, awards, numMovies)
    }

    constructor ()
      ensures State() == DefaultActorState
    {
      id, name, dateOfBirth, awards, numMovies := None, None, None, None, 0;
    }

    method SetName(name: Option<string>)
      modifies this
      ensures State() == old(State()).(name := name)
    {
      this.name := name;
    }

    method SetDateOfBirth(dateOfBirth: Option<Date>)
      modifies this
      ensures State() == old(State()).(dateOfBirth := dateOfBirth)
    {
      this.dateOfBirth := dateOfBirth;
    }

    method SetAwards(awards: Option<seq<Award>>)
      modifies this
      ensures State() == old(State()).(awards := awards)
    {
      this.awards := awards;
    }

    method SetNumMovies(numMovies: Int32)
      modifies this
      ensures State() == old(State()).(numMovies := numMovies)
    {
      this.numMovies := numMovies;
    }

    method SetId(id: Option<ObjectId>)
      modifies this
      ensures State() == old(State()).(id := id)
    {
      this.id := id;
    }

    /**
     * Stores a newly generated id, whether or not one was already present, and
     * returns the receiver itself.
     */
    method WithNewId() returns (r: Actor)
      modifies this
      ensures r == this
      ensures id.Some?
      ensures State() == old(State()).(id := id)
    {
      var oid := NewObjectId();
      SetId(Some(oid));
      r := this;
    }
  }
}
