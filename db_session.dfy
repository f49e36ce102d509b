/** The request's database session: the rows a transaction sees, the changes staged for the
    next flush, and the committed state that a rollback restores. Commits and rollbacks are
    counted so that callers can state how often each happened. */
module DbSession {
  import opened Wrappers
  import opened Uuids
  import opened UserModel

  class Session {
    var rows: Table
    var pending: seq<Change>
    var committed: Table
    var commits: nat
    var rollbacks: nat

    ghost predicate Valid()
      reads this
    {
      WellFormed(rows) && WellFormed(committed)
    }

    /** No transaction is open: nothing staged, nothing flushed but uncommitted. */
    ghost predicate Idle()
      reads this
    {
      pending == [] && rows == committed
    }

    /** What flushing the staged changes would give. */
    ghost function FlushOutcome(): Result<Table, DbError>
      reads this
    {
      ApplyAll(rows, pending)
    }

    constructor (t: Table)
      requires WellFormed(t)
      ensures Valid() && Idle() && rows == t && commits == 0 && rollbacks == 0
    {
      rows, pending, committed := t, [], t;
      commits, rollbacks := 0, 0;
    }

    /** `session.get(UserModel, ident=id)` and `select ... filter_by(id=id)`. */
    method Get(id: Uuid) returns (u: Option<User>)
      ensures u == Lookup(rows, id)
    {
      u := if id in rows then Some(rows[id]) else None;
    }

    method FindByEmail(email: string) returns (u: Option<User>)
      requires Valid()
      ensures u == ByEmail(rows, email)
    {
      if exists k :: k in rows && rows[k].email == email {
        var k :| k in rows && rows[k].email == email;
        u := Some(rows[k]);
      } else {
        u := None;
      }
    }

    /** `session.add`, `session.delete` and attribute assignment on a loaded record: the
        change is only recorded; nothing is checked until the flush. */
    method Stage(c: Change)
      modifies this`pending
      ensures pending == old(pending) + [c]
    {
      pending := pending + [c];
    }

    /** `session.flush()`: the staged changes in order; the first that breaks a constraint
        aborts the flush and leaves the visible rows as they were. */
    method Flush() returns (e: Option<DbError>)
      requires Valid()
      modifies this`rows, this`pending
      ensures Valid()
      ensures old(FlushOutcome()).Ok? ==> e.None? && rows == old(FlushOutcome()).value && pending == []
      ensures old(FlushOutcome()).Err? ==>
        e == Some(old(FlushOutcome()).error) && rows == old(rows) && pending == old(pending)
    {
      var start, todo := rows, pending;
      var next := start;
      var i := 0;
      e := None;
      while i < |todo| && e.None?
        invariant 0 <= i <= |todo|
        invariant unchanged(this)
        invariant e.None? ==> ApplyAll(start, todo[..i]) == Ok(next)
        invariant e.Some? ==> ApplyAll(start, todo[..i]) == Err(e.value)
      {
        ApplyAllExtend(start, todo, i);
        var step := ApplyChange(next, todo[i]);
        if step.Ok? {
          next := step.value;
        } else {
          e := Some(step.error);
        }
        i := i + 1;
      }
      if e.None? {
        assert todo[..i] == todo;
        rows, pending := next, [];
      } else {
        ApplyAllFailureSticks(start, todo, i);
      }
    }

    /** `session.commit()`: flushes what is still staged, then makes the rows durable. */
    method Commit() returns (e: Option<DbError>)
      requires Valid()
      modifies this
      ensures Valid() && rollbacks == old(rollbacks)
      ensures old(FlushOutcome()).Ok? ==>
        && e.None? && Idle() && committed == old(FlushOutcome()).value
        && commits == old(commits) + 1
      ensures old(FlushOutcome()).Err? ==>
        && e == Some(old(FlushOutcome()).error)
        && unchanged(this)
    {
      e := Flush();
      if e.None? {
        committed := rows;
        commits := commits + 1;
      }
    }

    /** `session.rollback()`: back to the committed rows, staged changes dropped. */
    method Rollback()
      requires Valid()
      modifies this
      ensures Valid() && Idle()
      ensures committed == old(committed) && commits == old(commits) && rollbacks == old(rollbacks) + 1
    {
      rows, pending := committed, [];
      rollbacks := rollbacks + 1;
    }
  }
}
