/** app/repositories/user_repository.py: reads and staged writes over the request's session.
    No method commits, rolls back or flushes; transaction control belongs to the caller. */
module UserRepository {
  import opened Wrappers
  import opened Uuids
  import opened UserModel
  import opened DbSession

  class UserRepository {
    const session: Session

    constructor (session: Session)
      ensures this.session == session
    {
      this.session := session;
    }

    /** `get_by_id`: the record with that id, or None. */
    method GetById(id: Uuid) returns (u: Option<User>)
      ensures u == Lookup(session.rows, id)
    {
      u := session.Get(id);
    }

    /** `get_by_email`: the only record with that email, or None. */
    method GetByEmail(email: string) returns (u: Option<User>)
      requires session.Valid()
      ensures u == ByEmail(session.rows, email)
    {
      u := session.FindByEmail(email);
    }

    /** `add`: stages the insert; uniqueness is left to the flush. */
    method Add(user: NewUser)
      modifies session`pending
      ensures session.pending == old(session.pending) + [Insert(user)]
    {
      session.Stage(Insert(user));
    }

    /** `delete`: stages the removal of the record's row. */
    method Delete(user: User)
      modifies session`pending
      ensures session.pending == old(session.pending) + [Change.Delete(user.id)]
    {
      session.Stage(Change.Delete(user.id));
    }

    /** `refresh`: reloads the columns of the record with this primary key from the flushed rows. */
    method Refresh(id: Uuid) returns (u: Option<User>)
      ensures u == Lookup(session.rows, id)
    {
      u := session.Get(id);
    }
  }
}
