/**
 The tables of the Intake store and its transactions (`SQLiteIntakeStore`). Each
 transaction is one atomic step, and everything that can interleave is between them.
 */
module IntakeStore {
  import opened Wrappers
  import opened IntakeModel

  datatype EventKind = UserMessage | UserAnswers | FinalizeAnswers | OtherEvent

  datatype Row = Row(session: Session, events: seq<EventKind>)

  /** The result a command left under its idempotency key. */
  datatype Receipt = Receipt(hash: nat, result: Session)

  /** What the user submitted, kept while the round that may lose it is under way. */
  datatype Held = Held(base: nat, key: Id, submission: nat, failure: Option<string>)

  datatype StoreError = NotFound | Conflict | Stale | Exists | NotInitial

  /** The session a creation made under its idempotency key. */
  datatype Origin = Origin(hash: nat, sid: Id)

  datatype Tables = Tables(rows: map<Id, Row>, receipts: map<(Id, Id), Receipt>, held: map<Id, Held>, origins: map<Id, Origin>)

  datatype Outcome = Outcome(tables: Tables, answer: Result<Session, StoreError>)

  // ----- transactions ------------------------------------------------------------------------

  /** A new session at revision zero, under a session identifier and a creation key not used before. */
  function Created(t: Tables, sid: Id, s: Session, events: seq<EventKind>, key: Option<(Id, nat)>): Result<Tables, StoreError> {
    if s.revision != 0 then Failure(NotInitial)
    else if sid in t.rows || (key.Some? && key.value.0 in t.origins) then Failure(Exists)
    else
      Success(t.(rows := t.rows[sid := Row(s, events)],
                 origins := if key.Some? then t.origins[key.value.0 := Origin(key.value.1, sid)] else t.origins))
  }

  function ReplayedCreation(t: Tables, key: Id, hash: nat): Result<Option<Session>, StoreError> {
    if key !in t.origins then Success(None)
    else if t.origins[key].hash != hash then Failure(Conflict)
    else if t.origins[key].sid !in t.rows then Failure(NotFound)
    else Success(Some(t.rows[t.origins[key].sid].session))
  }

  /** Held submissions that this revision has left behind. */
  function Unspent(held: map<Id, Held>, sid: Id, revision: nat): map<Id, Held> {
    if sid in held && held[sid].base < revision then held - {sid} else held
  }

  function Committed(t: Tables, sid: Id, next: Session, base: nat, key: Id, hash: nat, events: seq<EventKind>): Outcome {
    if (sid, key) in t.receipts then
      Outcome(t, if t.receipts[(sid, key)].hash == hash then Success(t.receipts[(sid, key)].result) else Failure(Conflict))
    else if sid !in t.rows then Outcome(t, Failure(NotFound))
    else if t.rows[sid].session.revision != base || next.revision != base + 1 then Outcome(t, Failure(Stale))
    else
      Outcome(Tables(t.rows[sid := Row(next, t.rows[sid].events + events)],
                     t.receipts[(sid, key) := Receipt(hash, next)],
                     Unspent(t.held, sid, next.revision),
                     t.origins),
              Success(next))
  }

  function Replayed(t: Tables, sid: Id, key: Id, hash: nat): Result<Option<Session>, StoreError> {
    if (sid, key) !in t.receipts then Success(None)
    else if t.receipts[(sid, key)].hash != hash then Failure(Conflict)
    else Success(Some(t.receipts[(sid, key)].result))
  }

  function Failing(t: Tables, sid: Id, key: Id, reason: string): Tables {
    if sid in t.held && t.held[sid].key == key then t.(held := t.held[sid := t.held[sid].(failure := Some(reason))]) else t
  }

  function Released(t: Tables, sid: Id, key: Id): Tables {
    if sid in t.held && t.held[sid].key == key then t.(held := t.held - {sid}) else t
  }

  // ----- the store -----------------------------------------------------------------------------

  class SqlIntakeStore {
    var sessions: map<Id, Session>
    var events: map<Id, seq<EventKind>>
    var receipts: map<(Id, Id), Receipt>
    var held: map<Id, Held>
    var origins: map<Id, Origin>

    ghost predicate Valid()
      reads this
    {
      sessions.Keys == events.Keys
    }

    ghost function State(): Tables
      requires Valid()
      reads this
    {
      Tables(map sid | sid in sessions :: Row(sessions[sid], events[sid]), receipts, held, origins)
    }

    constructor ()
      ensures Valid() && State() == Tables(map[], map[], map[], map[])
    {
      sessions, events, receipts, held, origins := map[], map[], map[], map[], map[];
    }

    method Create(sid: Id, s: Session, added: seq<EventKind>, key: Option<(Id, nat)>) returns (r: Result<(), StoreError>)
      requires Valid()
      modifies this
      ensures Valid()
      ensures r.Success? <==> Created(old(State()), sid, s, added, key).Success?
      ensures r.Failure? ==> Created(old(State()), sid, s, added, key) == Failure(r.error)
      ensures State() == if r.Success? then Created(old(State()), sid, s, added, key).value else old(State())
    {
      if s.revision != 0 { return Failure(NotInitial); }
      if sid in sessions { return Failure(Exists); }
      if key.Some? && key.value.0 in origins { return Failure(Exists); }
      sessions, events := sessions[sid := s], events[sid := added];
      if key.Some? {
        origins := origins[key.value.0 := Origin(key.value.1, sid)];
      }
      return Success(());
    }

    method ReplayCreation(key: Id, hash: nat) returns (r: Result<Option<Session>, StoreError>)
      requires Valid()
      ensures r == ReplayedCreation(State(), key, hash)
    {
      if key !in origins { return Success(None); }
      if origins[key].hash != hash { return Failure(Conflict); }
      if origins[key].sid !in sessions { return Failure(NotFound); }
      return Success(Some(sessions[origins[key].sid]));
    }

    method Commit(sid: Id, next: Session, base: nat, key: Id, hash: nat, added: seq<EventKind>)
      returns (r: Result<Session, StoreError>)
      requires Valid()
      modifies this
      ensures Valid() && Outcome(State(), r) == Committed(old(State()), sid, next, base, key, hash, added)
    {
      if (sid, key) in receipts {
        if receipts[(sid, key)].hash != hash { return Failure(Conflict); }
        return Success(receipts[(sid, key)].result);
      }
      if sid !in sessions { return Failure(NotFound); }
      if sessions[sid].revision != base || next.revision != base + 1 { return Failure(Stale); }
      sessions := sessions[sid := next];
      events := events[sid := events[sid] + added];
      receipts := receipts[(sid, key) := Receipt(hash, next)];
      if sid in held && held[sid].base < next.revision {
        held := held - {sid};
      }
      return Success(next);
    }

    method Replay(sid: Id, key: Id, hash: nat) returns (r: Result<Option<Session>, StoreError>)
      requires Valid()
      ensures r == Replayed(State(), sid, key, hash)
    {
      if (sid, key) !in receipts { return Success(None); }
      if receipts[(sid, key)].hash != hash { return Failure(Conflict); }
      return Success(Some(receipts[(sid, key)].result));
    }

    method HoldSubmission(sid: Id, submission: Held)
      requires Valid()
      modifies this`held
      ensures Valid() && State() == old(State()).(held := old(held)[sid := submission])
    {
      held := held[sid := submission];
    }

    method FailSubmission(sid: Id, key: Id, reason: string)
      requires Valid()
      modifies this`held
      ensures Valid() && State() == Failing(old(State()), sid, key, reason)
    {
      if sid in held && held[sid].key == key {
        held := held[sid := held[sid].(failure := Some(reason))];
      }
    }

    method ReleaseSubmission(sid: Id, key: Id)
      requires Valid()
      modifies this`held
      ensures Valid() && State() == Released(old(State()), sid, key)
    {
      if sid in held && held[sid].key == key {
        held := held - {sid};
      }
    }
  }
}
