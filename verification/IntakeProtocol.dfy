/**
 Commands interleaved: each reads a snapshot, may spend minutes in a model call, and
 then commits. Between its transactions anything else may happen.
 */
module IntakeProtocol {
  import opened Wrappers
  import opened IntakeModel
  import opened IntakeStore
  import opened IntakeRounds
  import opened IntakeTheorems
  import opened IntakeCommands

  /** A command under way: the snapshot it read, and the events if it has read them. */
  datatype Flight = Flight(sid: Id, snapshot: Session, key: Id, hash: nat, command: Command, events: Option<seq<EventKind>>)

  /** The store, the commands under way, and every row each session ever had. */
  datatype World = World(tables: Tables, flights: map<Id, Flight>, history: map<Id, seq<Row>>)

  datatype Step =
    | Create(sid: Id, initial: Session, key: Id, hash: nat)
    | Begin(flight: Id, sid: Id, key: Id, hash: nat, command: Command)
    | Hold(flight: Id, submission: nat)
    | ReadEvents(flight: Id)
    | Commit(flight: Id)
    | Fail(flight: Id, reason: string)
    | Release(flight: Id)

  /** When a step can be taken. A commit needs its command to have computed a session. */
  ghost predicate Enabled(cfg: Config, w: World, step: Step) {
    match step
    case Create(sid, s, key, hash) =>
      && ReplayedCreation(w.tables, key, hash) == Success(None) && Created(w.tables, sid, s, [UserMessage], Some((key, hash))).Success?
      && s == Session(0, Active, [], [], [], [], [], Convergence(0, 0, None, false))
    case Begin(f, sid, key, hash, c) =>
      f !in w.flights && sid in w.tables.rows && Replayed(w.tables, sid, key, hash) == Success(None)
    case Hold(f, _) => f in w.flights && w.flights[f].sid in w.tables.rows
    case ReadEvents(f) => f in w.flights && w.flights[f].events.None? && w.flights[f].sid in w.tables.rows
    case Commit(f) =>
      && f in w.flights && w.flights[f].events.Some?
      && Computed(cfg, Row(w.flights[f].snapshot, w.flights[f].events.value), w.flights[f].command).Success?
    case Fail(f, _) => f in w.flights
    case Release(f) => f in w.flights
  }

  /** The store's answer to a commit. */
  ghost function CommitOf(cfg: Config, w: World, f: Id): Outcome
    requires Enabled(cfg, w, Commit(f))
  {
    var x := w.flights[f];
    Committed(w.tables, x.sid, Computed(cfg, Row(x.snapshot, x.events.value), x.command).value, x.snapshot.revision, x.key, x.hash,
              Logged(x.command))
  }

  ghost function After(cfg: Config, w: World, step: Step): World
    requires Enabled(cfg, w, step)
  {
    match step
    case Create(sid, s, key, hash) =>
      World(Created(w.tables, sid, s, [UserMessage], Some((key, hash))).value, w.flights, w.history[sid := [Row(s, [UserMessage])]])
    case Begin(f, sid, key, hash, c) =>
      w.(flights := w.flights[f := Flight(sid, w.tables.rows[sid].session, key, hash, c, None)])
    case Hold(f, submission) =>
      var x := w.flights[f];
      w.(tables := w.tables.(held := w.tables.held[x.sid := Held(x.snapshot.revision, x.key, submission, None)]))
    case ReadEvents(f) =>
      w.(flights := w.flights[f := w.flights[f].(events := Some(w.tables.rows[w.flights[f].sid].events))])
    case Commit(f) =>
      var t := CommitOf(cfg, w, f).tables;
      var sid := w.flights[f].sid;
      World(t, w.flights,
            if sid in t.rows && sid in w.history && t.rows != w.tables.rows then w.history[sid := w.history[sid] + [t.rows[sid]]] else w.history)
    case Fail(f, reason) => w.(tables := Failing(w.tables, w.flights[f].sid, w.flights[f].key, reason))
    case Release(f) => w.(tables := Released(w.tables, w.flights[f].sid, w.flights[f].key))
  }

  const EMPTY := World(Tables(map[], map[], map[], map[]), map[], map[])

  /** A whole interleaving. */
  ghost function Run(cfg: Config, steps: seq<Step>): Option<World>
    decreases |steps|
  {
    if steps == [] then Some(EMPTY)
    else
      match Run(cfg, steps[..|steps| - 1])
      case None => None
      case Some(w) => if Enabled(cfg, w, steps[|steps| - 1]) then Some(After(cfg, w, steps[|steps| - 1])) else None
  }

  // ----- what every interleaving keeps ----------------------------------------------------------

  /** The second row is what some command computes from the first, and nothing else. */
  ghost predicate Produced(cfg: Config, before: Row, after: Row) {
    exists c :: Computed(cfg, before, c) == Success(after.session) && after.events == before.events + Logged(c)
  }

  /** Revision k is at position k, sound and within budget, and each follows from the one before it. */
  ghost predicate Chain(cfg: Config, rows: seq<Row>) {
    && rows != []
    && (forall k :: 0 <= k < |rows| ==> rows[k].session.revision == k && WithinBudget(cfg, rows[k]) && Sound(rows[k].session))
    && RoundCount(rows[0].events) == 0 && !rows[0].session.convergence.finalized
    && (forall k :: 0 < k < |rows| ==> Produced(cfg, rows[k - 1], rows[k]))
  }

  ghost predicate Histories(cfg: Config, w: World) {
    && w.history.Keys == w.tables.rows.Keys
    && forall sid :: sid in w.history ==>
         Chain(cfg, w.history[sid]) && w.history[sid][|w.history[sid]| - 1] == w.tables.rows[sid]
  }

  /** A command's snapshot is the row at its revision; events read later belong to that row or a later one. */
  ghost predicate FlightOk(history: map<Id, seq<Row>>, f: Flight) {
    && f.sid in history
    && f.snapshot.revision < |history[f.sid]| && history[f.sid][f.snapshot.revision].session == f.snapshot
    && (f.events.Some? ==> exists k :: f.snapshot.revision <= k < |history[f.sid]| && history[f.sid][k].events == f.events.value)
  }

  ghost predicate Flights(w: World) {
    forall f :: f in w.flights ==> FlightOk(w.history, w.flights[f])
  }

  /** Every receipt is for one revision, and every revision but the first has exactly one receipt. */
  ghost predicate Receipts(w: World) {
    && (forall sid, key :: (sid, key) in w.tables.receipts ==>
          && sid in w.history
          && var r := w.tables.receipts[(sid, key)].result.revision;
             0 < r < |w.history[sid]| && w.history[sid][r].session == w.tables.receipts[(sid, key)].result)
    && (forall sid, a, b | (sid, a) in w.tables.receipts && (sid, b) in w.tables.receipts ::
          w.tables.receipts[(sid, a)].result.revision == w.tables.receipts[(sid, b)].result.revision ==> a == b)
    && (forall sid, r :: sid in w.history && 0 < r < |w.history[sid]| ==> HasReceipt(w.tables.receipts, sid, r))
  }

  ghost predicate HasReceipt(receipts: map<(Id, Id), Receipt>, sid: Id, r: nat) {
    exists key :: (sid, key) in receipts && receipts[(sid, key)].result.revision == r
  }

  /** Every creation key names a session that exists, and no two keys name the same. */
  ghost predicate Origins(t: Tables) {
    && (forall key :: key in t.origins ==> t.origins[key].sid in t.rows)
    && (forall a, b :: a in t.origins && b in t.origins && t.origins[a].sid == t.origins[b].sid ==> a == b)
  }

  ghost predicate Inv(cfg: Config, w: World) {
    Histories(cfg, w) && Flights(w) && Receipts(w) && Origins(w.tables)
  }

  lemma FirstRow(cfg: Config, s: Session)
    requires s == Session(0, Active, [], [], [], [], [], Convergence(0, 0, None, false)) && cfg.maxRounds > 0 && cfg.maxRejections > 0
    ensures Chain(cfg, [Row(s, [UserMessage])])
  {
    hide Produced, Sound;
    InitialIsSound(s);
    assert [UserMessage][..0] == [];
    assert RoundCount([UserMessage]) == 0;
  }

  lemma InitialIsSound(s: Session)
    requires s == Session(0, Active, [], [], [], [], [], Convergence(0, 0, None, false))
    ensures Sound(s)
  {
    assert forall id :: History([], id) == [];
  }

  lemma CreateKeeps(cfg: Config, w: World, step: Step)
    requires Inv(cfg, w) && step.Create? && Enabled(cfg, w, step) && cfg.maxRounds > 0 && cfg.maxRejections > 0
    ensures Inv(cfg, After(cfg, w, step))
  {
    hide Chain, HasReceipt, Computed, WithinBudget, RoundCount;
    var w' := After(cfg, w, step);
    FirstRow(cfg, step.initial);
    assert step.sid !in w.history;
    forall f | f in w'.flights
      ensures FlightOk(w'.history, w'.flights[f])
    {
      assert FlightOk(w.history, w.flights[f]);
    }
  }

  lemma QuietKeeps(cfg: Config, w: World, step: Step)
    requires Inv(cfg, w) && Enabled(cfg, w, step) && (step.Begin? || step.Hold? || step.ReadEvents? || step.Fail? || step.Release?)
    ensures Inv(cfg, After(cfg, w, step))
  {
    hide Chain, HasReceipt;
    var w' := After(cfg, w, step);
    assert w'.history == w.history && w'.tables.rows == w.tables.rows && w'.tables.receipts == w.tables.receipts;
    if step.Begin? {
      RowIsLast(cfg, w, step.sid);
    } else if step.ReadEvents? {
      assert FlightOk(w.history, w.flights[step.flight]);
      RowIsLast(cfg, w, w.flights[step.flight].sid);
    }
    forall f | f in w'.flights
      ensures FlightOk(w'.history, w'.flights[f])
    {
      if f in w.flights {
        assert FlightOk(w.history, w.flights[f]);
      }
    }
  }

  lemma RowIsLast(cfg: Config, w: World, sid: Id)
    requires Histories(cfg, w) && sid in w.tables.rows
    ensures sid in w.history && w.history[sid] != []
    ensures w.history[sid][|w.history[sid]| - 1] == w.tables.rows[sid]
    ensures w.tables.rows[sid].session.revision == |w.history[sid]| - 1
  {
    assert Chain(cfg, w.history[sid]);
  }

  /** The commit can be taken and moves its row. */
  ghost predicate Effective(cfg: Config, w: World, f: Id) {
    Enabled(cfg, w, Commit(f)) && CommitOf(cfg, w, f).tables.rows != w.tables.rows
  }

  /** The command's snapshot is the stored row, and the row becomes what the command computes from it. */
  ghost predicate FromCurrentRow(cfg: Config, w: World, f: Id) {
    && f in w.flights && Enabled(cfg, w, Commit(f))
    && var x, t := w.flights[f], w.tables;
    && x.sid in t.rows && x.events.Some? && t.rows[x.sid] == Row(x.snapshot, x.events.value) && (x.sid, x.key) !in t.receipts
    && Computed(cfg, t.rows[x.sid], x.command).Success?
    && CommitOf(cfg, w, f).tables.rows ==
       t.rows[x.sid := Row(Computed(cfg, t.rows[x.sid], x.command).value, t.rows[x.sid].events + Logged(x.command))]
  }

  /**
   No lost update: when a commit takes effect, the row in the store is the very row the
   command computed from.
   */
  lemma CommitsFromTheCurrentRow(cfg: Config, w: World, f: Id)
    requires Inv(cfg, w) && Effective(cfg, w, f)
    ensures FromCurrentRow(cfg, w, f)
  {
    hide Chain, HasReceipt, Computed, Receipts, CommitOf, FlightOk, Histories, Enabled, Inv;
    EffectiveCommit(cfg, w, f);
    var x := w.flights[f];
    InvParts(cfg, w, f);
    RowIsLast(cfg, w, x.sid);
    SnapshotIsCurrent(w.history, x, w.tables.rows[x.sid]);
  }

  lemma InvParts(cfg: Config, w: World, f: Id)
    requires Inv(cfg, w) && f in w.flights
    ensures Histories(cfg, w) && FlightOk(w.history, w.flights[f])
  {
    hide FlightOk, Chain, HasReceipt;
  }

  /** Nothing was committed since the snapshot, so the events read later are the snapshot's. */
  lemma SnapshotIsCurrent(history: map<Id, seq<Row>>, x: Flight, row: Row)
    requires FlightOk(history, x) && x.events.Some? && history[x.sid] != [] && history[x.sid][|history[x.sid]| - 1] == row
    requires row.session.revision == |history[x.sid]| - 1 == x.snapshot.revision
    ensures row == Row(x.snapshot, x.events.value)
  {
  }

  /** A commit that moves a row met the revision it started from and no receipt of its own. */
  lemma EffectiveCommit(cfg: Config, w: World, f: Id)
    requires Effective(cfg, w, f)
    ensures f in w.flights && Enabled(cfg, w, Commit(f))
    ensures var x := w.flights[f];
            && x.sid in w.tables.rows && w.tables.rows[x.sid].session.revision == x.snapshot.revision
            && (x.sid, x.key) !in w.tables.receipts && x.events.Some?
            && Computed(cfg, Row(x.snapshot, x.events.value), x.command).Success?
            && CommitOf(cfg, w, f).tables.rows ==
               w.tables.rows[x.sid := Row(Computed(cfg, Row(x.snapshot, x.events.value), x.command).value,
                                          w.tables.rows[x.sid].events + Logged(x.command))]
  {
    hide Computed;
  }

  lemma ChainGrows(cfg: Config, rows: seq<Row>, next: Row, c: Command)
    requires Chain(cfg, rows) && cfg.maxRounds > 0 && cfg.maxRejections > 0
    requires Computed(cfg, rows[|rows| - 1], c) == Success(next.session) && next.events == rows[|rows| - 1].events + Logged(c)
    requires next.session.revision == |rows|
    ensures Chain(cfg, rows + [next])
  {
    hide WithinBudget, Computed, RoundCount, Sound;
    var last := rows[|rows| - 1];
    CommandsKeepBudget(cfg, last, c);
    CommandsKeepSound(cfg, last, c);
    assert Produced(cfg, last, next);
    var all := rows + [next];
    assert all[|rows|] == next;
    assert forall k :: 0 <= k < |rows| ==> all[k] == rows[k];
  }

  lemma CommitKeeps(cfg: Config, w: World, f: Id)
    requires Inv(cfg, w) && Enabled(cfg, w, Commit(f)) && cfg.maxRounds > 0 && cfg.maxRejections > 0
    ensures Inv(cfg, After(cfg, w, Commit(f)))
  {
    hide Chain, HasReceipt, Computed, CommitOf;
    if !Effective(cfg, w, f) {
      RefusedChangesNothing(cfg, w, f);
    } else {
      EffectiveKeeps(cfg, w, f);
    }
  }

  /** A commit that does not move the row changes nothing at all. */
  lemma RefusedChangesNothing(cfg: Config, w: World, f: Id)
    requires Enabled(cfg, w, Commit(f)) && !Effective(cfg, w, f)
    ensures CommitOf(cfg, w, f).tables == w.tables
  {
    hide Computed;
  }

  lemma EffectiveShape(cfg: Config, w: World, f: Id)
    requires Inv(cfg, w) && Effective(cfg, w, f)
    ensures var x := w.flights[f];
            var w' := After(cfg, w, Commit(f));
            && x.sid in w.tables.rows && x.sid in w.history && x.sid in w'.tables.rows
            && Computed(cfg, w.tables.rows[x.sid], x.command) == Success(w'.tables.rows[x.sid].session)
            && w'.tables.rows[x.sid].events == w.tables.rows[x.sid].events + Logged(x.command)
            && w'.tables.rows[x.sid].session.revision == |w.history[x.sid]|
            && w'.tables.rows == w.tables.rows[x.sid := w'.tables.rows[x.sid]]
            && w'.history == w.history[x.sid := w.history[x.sid] + [w'.tables.rows[x.sid]]]
            && w'.flights == w.flights && w'.tables.origins == w.tables.origins
            && (x.sid, x.key) !in w.tables.receipts
            && w'.tables.receipts == w.tables.receipts[(x.sid, x.key) := Receipt(x.hash, w'.tables.rows[x.sid].session)]
  {
    hide Chain, HasReceipt, Computed, Receipts, Flights;
    CommitsFromTheCurrentRow(cfg, w, f);
    RowIsLast(cfg, w, w.flights[f].sid);
  }

  lemma EffectiveKeeps(cfg: Config, w: World, f: Id)
    requires Inv(cfg, w) && Effective(cfg, w, f) && cfg.maxRounds > 0 && cfg.maxRejections > 0
    ensures Enabled(cfg, w, Commit(f)) && Inv(cfg, After(cfg, w, Commit(f)))
  {
    hide Chain, HasReceipt, Computed, CommitOf, After, Receipts, Flights;
    EffectiveShape(cfg, w, f);
    var x := w.flights[f];
    var w' := After(cfg, w, Commit(f));
    RowIsLast(cfg, w, x.sid);
    ChainGrows(cfg, w.history[x.sid], w'.tables.rows[x.sid], x.command);
    FlightsStay(w, w', x.sid, w'.tables.rows[x.sid]);
    ReceiptsGrow(w, w', x.sid, x.key, x.hash, w'.tables.rows[x.sid]);
  }

  lemma FlightsStay(w: World, w': World, sid: Id, row: Row)
    requires Flights(w) && sid in w.history && w'.flights == w.flights && w'.history == w.history[sid := w.history[sid] + [row]]
    ensures Flights(w')
  {
    forall f | f in w'.flights
      ensures FlightOk(w'.history, w'.flights[f])
    {
      var x := w.flights[f];
      assert FlightOk(w.history, x);
      assert forall k :: 0 <= k < |w.history[x.sid]| ==> w'.history[x.sid][k] == w.history[x.sid][k];
    }
  }

  lemma ReceiptsGrow(w: World, w': World, sid: Id, key: Id, hash: nat, row: Row)
    requires Receipts(w) && sid in w.history && w.history[sid] != [] && row.session.revision == |w.history[sid]|
    requires (sid, key) !in w.tables.receipts
    requires w'.tables.receipts == w.tables.receipts[(sid, key) := Receipt(hash, row.session)]
    requires w'.history == w.history[sid := w.history[sid] + [row]]
    ensures Receipts(w')
  {
    var receipts, receipts' := w.tables.receipts, w'.tables.receipts;
    forall s, r | s in w'.history && 0 < r < |w'.history[s]|
      ensures HasReceipt(receipts', s, r)
    {
      if s == sid && r == |w.history[sid]| {
        assert (sid, key) in receipts' && receipts'[(sid, key)].result.revision == r;
      } else {
        assert HasReceipt(receipts, s, r);
        var k :| (s, k) in receipts && receipts[(s, k)].result.revision == r;
        assert (s, k) in receipts' && receipts'[(s, k)].result.revision == r;
      }
    }
    assert forall s, k :: (s, k) in receipts' ==> (s, k) == (sid, key) || (s, k) in receipts;
  }

  // ----- theorems --------------------------------------------------------------------------------

  lemma {:induction false} RunsKeep(cfg: Config, steps: seq<Step>)
    requires cfg.maxRounds > 0 && cfg.maxRejections > 0 && Run(cfg, steps).Some?
    ensures Inv(cfg, Run(cfg, steps).value)
    decreases |steps|
  {
    hide Inv, Enabled, After;
    if steps == [] {
      EmptyKeeps(cfg);
    } else {
      var front := steps[..|steps| - 1];
      var step := steps[|steps| - 1];
      RunsKeep(cfg, front);
      var w := Run(cfg, front).value;
      match step {
        case Create(_, _, _, _) => CreateKeeps(cfg, w, step);
        case Commit(f) => CommitKeeps(cfg, w, f);
        case _ => QuietKeeps(cfg, w, step);
      }
    }
  }

  lemma EmptyKeeps(cfg: Config)
    ensures Inv(cfg, EMPTY)
  {
  }

  /** The key under which this revision was committed. */
  predicate OwnsRevision(w: World, sid: Id, key: Id, r: nat) {
    (sid, key) in w.tables.receipts && w.tables.receipts[(sid, key)].result.revision == r
  }

  ghost predicate SoleOwner(w: World, sid: Id, key: Id, r: nat) {
    OwnsRevision(w, sid, key, r) && forall other :: OwnsRevision(w, sid, other, r) ==> other == key
  }

  /**
   Whatever the interleaving: every revision of a session was computed by one command
   from the whole of the one before, exactly one key owns it, and the budget held
   throughout.
   */
  lemma NoUpdateIsLost(cfg: Config, steps: seq<Step>, sid: Id, r: nat)
    requires cfg.maxRounds > 0 && cfg.maxRejections > 0 && Run(cfg, steps).Some?
    requires sid in Run(cfg, steps).value.tables.rows && 0 < r <= Run(cfg, steps).value.tables.rows[sid].session.revision
    ensures var w := Run(cfg, steps).value;
            && sid in w.history && r < |w.history[sid]|
            && w.history[sid][|w.history[sid]| - 1] == w.tables.rows[sid]
            && Produced(cfg, w.history[sid][r - 1], w.history[sid][r])
            && WithinBudget(cfg, w.history[sid][r])
            && exists key :: SoleOwner(w, sid, key, r)
  {
    hide Run, Produced, WithinBudget, Sound, Flights, Origins, Receipts, SoleOwner;
    RunsKeep(cfg, steps);
    var w := Run(cfg, steps).value;
    RowIsLast(cfg, w, sid);
    assert Chain(cfg, w.history[sid]);
    OwnerExists(w, sid, r);
  }

  lemma OwnerExists(w: World, sid: Id, r: nat)
    requires Receipts(w) && sid in w.history && 0 < r < |w.history[sid]|
    ensures exists key :: SoleOwner(w, sid, key, r)
  {
    assert HasReceipt(w.tables.receipts, sid, r);
    var key :| (sid, key) in w.tables.receipts && w.tables.receipts[(sid, key)].result.revision == r;
    assert SoleOwner(w, sid, key, r);
  }

  // ----- what holds of every row of every run ----------------------------------------------------

  /** The k-th row a session had in a run. */
  ghost predicate RowIn(cfg: Config, steps: seq<Step>, sid: Id, k: nat, row: Row) {
    && Run(cfg, steps).Some? && sid in Run(cfg, steps).value.history
    && k < |Run(cfg, steps).value.history[sid]| && Run(cfg, steps).value.history[sid][k] == row
  }

  /**
   Every session any interleaving ever stores satisfies its invariant and shows the user
   exactly its open decisions, whatever the users and the models wrote.
   */
  lemma RunsKeepSound(cfg: Config, steps: seq<Step>, sid: Id, k: nat, row: Row)
    requires cfg.maxRounds > 0 && cfg.maxRejections > 0 && RowIn(cfg, steps, sid, k, row)
    ensures Sound(row.session) && WithinBudget(cfg, row) && row.session.revision == k
  {
    hide Run, Sound, WithinBudget;
    RunsKeep(cfg, steps);
    assert Chain(cfg, Run(cfg, steps).value.history[sid]);
  }

  /** Each row but the first is what one command computed from the row before it. */
  lemma RowsFollow(cfg: Config, steps: seq<Step>, sid: Id, k: nat, row: Row) returns (before: Row, c: Command)
    requires cfg.maxRounds > 0 && cfg.maxRejections > 0 && RowIn(cfg, steps, sid, k + 1, row)
    ensures RowIn(cfg, steps, sid, k, before) && Computed(cfg, before, c) == Success(row.session)
    ensures row.events == before.events + Logged(c)
  {
    hide Run, Computed, Sound, WithinBudget;
    RunsKeep(cfg, steps);
    var rows := Run(cfg, steps).value.history[sid];
    assert Chain(cfg, rows);
    before := rows[k];
    assert Produced(cfg, rows[k + 1 - 1], rows[k + 1]);
    c :| Computed(cfg, before, c) == Success(row.session) && row.events == before.events + Logged(c);
  }

  /** In no run does a confirmed or cancelled session ever get another revision. */
  lemma TerminalIsFinal(cfg: Config, steps: seq<Step>, sid: Id, k: nat, row: Row)
    requires cfg.maxRounds > 0 && cfg.maxRejections > 0 && RowIn(cfg, steps, sid, k, row)
    requires row.session.status in {Confirmed, Cancelled}
    ensures k == |Run(cfg, steps).value.history[sid]| - 1
    ensures sid in Run(cfg, steps).value.tables.rows && Run(cfg, steps).value.tables.rows[sid] == row
  {
    hide Run, Computed, Sound, WithinBudget, Chain;
    RunsKeep(cfg, steps);
    var w := Run(cfg, steps).value;
    RowIsLast(cfg, w, sid);
    RunsKeepSound(cfg, steps, sid, k, row);
    if k + 1 < |w.history[sid]| {
      var before, c := RowsFollow(cfg, steps, sid, k, w.history[sid][k + 1]);
      if k == 0 {
        SoundAtZero(row.session);
      }
      TerminalRefuses(cfg, row, c);
    }
  }

  lemma SoundAtZero(s: Session)
    requires Sound(s) && s.revision == 0
    ensures s.status.Active?
  {
  }

  /**
   In every run, from a session that must converge on, each row still must converge with
   the same questions pending, up to the one that a finalize or a cancel made.
   */
  lemma ConvergenceEndsOnlyByTheUser(cfg: Config, steps: seq<Step>, sid: Id, k: nat, row: Row, next: Row)
    requires cfg.maxRounds > 0 && cfg.maxRejections > 0
    requires RowIn(cfg, steps, sid, k, row) && RowIn(cfg, steps, sid, k + 1, next) && row.session.status.ConvergenceRequired?
    ensures || (next.session.status.ConvergenceRequired? && next.session.pending == row.session.pending)
            || (next.session.status.CandidateReady? && next.session.convergence.finalized)
            || next.session.status.Cancelled?
  {
    hide Run, Computed, Sound, WithinBudget;
    var before, c := RowsFollow(cfg, steps, sid, k, next);
    RunsKeepSound(cfg, steps, sid, k, row);
    if row.session.revision == 0 {
      SoundAtZero(row.session);
    }
    ConvergenceEnds(cfg, row, c);
  }

  /** Once given, an answer stays in the history of its decision through the rest of every run. */
  lemma {:induction false} AnswersAreNeverLost(cfg: Config, steps: seq<Step>, sid: Id, j: nat, k: nat, before: Row, after: Row, id: Id)
    requires cfg.maxRounds > 0 && cfg.maxRejections > 0 && j <= k
    requires RowIn(cfg, steps, sid, j, before) && RowIn(cfg, steps, sid, k, after)
    ensures AnswersKept(History(before.session.decisions, id), History(after.session.decisions, id))
    decreases k - j
  {
    hide Run, Computed, Sound, WithinBudget, AnswersKept, History, SaidSo, IsResolved;
    if j == k {
      KeptItself(History(before.session.decisions, id));
    } else {
      var last, c := RowsFollow(cfg, steps, sid, k - 1, after);
      AnswersAreNeverLost(cfg, steps, sid, j, k - 1, before, last, id);
      OnlyTheUserAnswers(cfg, last, c, id);
      KeptKept(History(before.session.decisions, id), History(last.session.decisions, id), History(after.session.decisions, id));
    }
  }

  /** The command from row j to the next carried this answer, and the answer is what the decision now holds. */
  ghost predicate AnsweredAt(cfg: Config, steps: seq<Step>, sid: Id, j: nat, id: Id, a: Answer, current: Entry) {
    exists before: Row, after: Row, c: Command ::
      && RowIn(cfg, steps, sid, j, before) && RowIn(cfg, steps, sid, j + 1, after) && Computed(cfg, before, c) == Success(after.session)
      && (c.Round? || c.Finalize?) && (id, a) in c.answers
      && SaidSo(before.session.decisions, after.session.decisions, id, a) && Latest(after.session.decisions, id) == Some(current)
  }

  /**
   Nobody answers for the user: whatever the models wrote and however commands
   interleaved, every resolved decision of every row was open once, and is exactly as the
   user's own answer left it.
   */
  lemma {:induction false} EveryAnswerIsTheUsers(cfg: Config, steps: seq<Step>, sid: Id, k: nat, row: Row, id: Id)
    requires cfg.maxRounds > 0 && cfg.maxRejections > 0 && RowIn(cfg, steps, sid, k, row) && IsResolved(row.session.decisions, id)
    ensures exists j: nat, a: Answer :: j < k && AnsweredAt(cfg, steps, sid, j, id, a, Latest(row.session.decisions, id).value)
    decreases k
  {
    hide Run, Computed, Sound, WithinBudget, AnswersKept, SaidSo, RowIn;
    if k == 0 {
      RunsKeepSound(cfg, steps, sid, 0, row);
      NothingAtZero(row.session, id);
    } else {
      var before, c := RowsFollow(cfg, steps, sid, k - 1, row);
      OnlyTheUserAnswers(cfg, before, c, id);
      var now := Latest(row.session.decisions, id).value;
      if History(row.session.decisions, id) == History(before.session.decisions, id) {
        EveryAnswerIsTheUsers(cfg, steps, sid, k - 1, before, id);
        var j: nat, a: Answer :| j < k - 1 && AnsweredAt(cfg, steps, sid, j, id, a, now);
      } else {
        var x :| x in c.answers && x.0 == id && SaidSo(before.session.decisions, row.session.decisions, id, x.1);
        assert (id, x.1) in c.answers;
        assert AnsweredAt(cfg, steps, sid, k - 1, id, x.1, now);
      }
    }
  }

  lemma NothingAtZero(s: Session, id: Id)
    requires Sound(s) && s.revision == 0
    ensures !IsResolved(s.decisions, id)
  {
  }

  // ----- repeated keys --------------------------------------------------------------------------------

  /** Receipts are permanent. */
  lemma ReceiptStays(cfg: Config, w: World, step: Step, sid: Id, key: Id)
    requires Enabled(cfg, w, step) && (sid, key) in w.tables.receipts
    ensures (sid, key) in After(cfg, w, step).tables.receipts
    ensures After(cfg, w, step).tables.receipts[(sid, key)] == w.tables.receipts[(sid, key)]
  {
    hide Computed;
  }

  lemma {:induction false} ReceiptsStay(cfg: Config, steps: seq<Step>, j: nat, sid: Id, key: Id)
    requires j <= |steps| && Run(cfg, steps).Some?
    ensures Run(cfg, steps[..j]).Some?
    ensures (sid, key) in Run(cfg, steps[..j]).value.tables.receipts ==>
              && (sid, key) in Run(cfg, steps).value.tables.receipts
              && Run(cfg, steps).value.tables.receipts[(sid, key)] == Run(cfg, steps[..j]).value.tables.receipts[(sid, key)]
    decreases |steps|
  {
    hide Enabled, After;
    if j == |steps| {
      assert steps[..j] == steps;
    } else {
      var front := steps[..|steps| - 1];
      assert front[..j] == steps[..j];
      ReceiptsStay(cfg, front, j, sid, key);
      if (sid, key) in Run(cfg, front).value.tables.receipts {
        ReceiptStays(cfg, Run(cfg, front).value, steps[|steps| - 1], sid, key);
      }
    }
  }

  /** The world before step k of a run, in which the step is taken. */
  lemma {:induction false} StepTaken(cfg: Config, steps: seq<Step>, k: nat)
    requires k < |steps| && Run(cfg, steps).Some?
    ensures Run(cfg, steps[..k]).Some? && Enabled(cfg, Run(cfg, steps[..k]).value, steps[k])
    ensures Run(cfg, steps[..k + 1]) == Some(After(cfg, Run(cfg, steps[..k]).value, steps[k]))
    decreases |steps|
  {
    hide Enabled, After;
    if k == |steps| - 1 {
      assert steps[..k + 1] == steps;
    } else {
      var front := steps[..|steps| - 1];
      assert front[..k] == steps[..k] && front[..k + 1] == steps[..k + 1];
      StepTaken(cfg, front, k);
    }
  }

  lemma CommitHasFlight(cfg: Config, w: World, f: Id)
    requires Enabled(cfg, w, Commit(f))
    ensures f in w.flights
  {
    hide Computed;
  }

  lemma ReceiptWritten(cfg: Config, w: World, f: Id)
    requires Enabled(cfg, w, Commit(f)) && CommitOf(cfg, w, f).answer.Success?
    ensures var x, t := w.flights[f], After(cfg, w, Commit(f)).tables;
            (x.sid, x.key) in t.receipts && t.receipts[(x.sid, x.key)] == Receipt(x.hash, CommitOf(cfg, w, f).answer.value)
  {
    hide Computed;
  }

  lemma ReceiptAnswers(cfg: Config, w: World, g: Id)
    requires Enabled(cfg, w, Commit(g)) && (w.flights[g].sid, w.flights[g].key) in w.tables.receipts
    ensures var x := w.flights[g];
            var receipt := w.tables.receipts[(x.sid, x.key)];
            && CommitOf(cfg, w, g) == Outcome(w.tables, if receipt.hash == x.hash then Success(receipt.result) else Failure(Conflict))
            && After(cfg, w, Commit(g)) == w
  {
    hide Computed;
  }

  /**
   A key that was used at one step of a run and comes back at any later one, whatever
   happened in between: with the same hash the first result is returned, with another
   the command is refused, and either way nothing changes; and a replay says the same.
   */
  lemma RepeatedKeysChangeNothing(cfg: Config, steps: seq<Step>, j: nat, k: nat)
    requires Run(cfg, steps).Some? && j < k < |steps| && steps[j].Commit? && steps[k].Commit?
    requires Run(cfg, steps[..j]).Some? && Enabled(cfg, Run(cfg, steps[..j]).value, steps[j])
    requires Run(cfg, steps[..k]).Some? && Enabled(cfg, Run(cfg, steps[..k]).value, steps[k])
    requires CommitOf(cfg, Run(cfg, steps[..j]).value, steps[j].flight).answer.Success?
    requires var x, y := Run(cfg, steps[..j]).value.flights[steps[j].flight], Run(cfg, steps[..k]).value.flights[steps[k].flight];
             x.sid == y.sid && x.key == y.key
    ensures var x, y := Run(cfg, steps[..j]).value.flights[steps[j].flight], Run(cfg, steps[..k]).value.flights[steps[k].flight];
            var w, first := Run(cfg, steps[..k]).value, CommitOf(cfg, Run(cfg, steps[..j]).value, steps[j].flight).answer;
            && CommitOf(cfg, w, steps[k].flight) == Outcome(w.tables, if y.hash == x.hash then first else Failure(Conflict))
            && Run(cfg, steps[..k + 1]) == Some(w)
            && forall hash :: Replayed(w.tables, x.sid, x.key, hash) == if hash == x.hash then Success(Some(first.value)) else Failure(Conflict)
  {
    hide Run, Enabled, After, CommitOf, Computed;
    var w := Run(cfg, steps[..j]).value;
    var f := steps[j].flight;
    CommitHasFlight(cfg, w, f);
    var x := w.flights[f];
    StepTaken(cfg, steps, j);
    StepTaken(cfg, steps, k);
    ReceiptWritten(cfg, w, f);
    assert steps[..k][..j + 1] == steps[..j + 1];
    ReceiptsStay(cfg, steps[..k], j + 1, x.sid, x.key);
    ReceiptAnswers(cfg, Run(cfg, steps[..k]).value, steps[k].flight);
  }

  // ----- creation keys --------------------------------------------------------------------------------

  lemma OriginStays(cfg: Config, w: World, step: Step, key: Id)
    requires Enabled(cfg, w, step) && key in w.tables.origins
    ensures key in After(cfg, w, step).tables.origins && After(cfg, w, step).tables.origins[key] == w.tables.origins[key]
  {
    hide Computed;
  }

  lemma {:induction false} OriginsStay(cfg: Config, steps: seq<Step>, j: nat, key: Id)
    requires j <= |steps| && Run(cfg, steps).Some?
    ensures Run(cfg, steps[..j]).Some?
    ensures key in Run(cfg, steps[..j]).value.tables.origins ==>
              && key in Run(cfg, steps).value.tables.origins
              && Run(cfg, steps).value.tables.origins[key] == Run(cfg, steps[..j]).value.tables.origins[key]
    decreases |steps|
  {
    hide Enabled, After;
    if j == |steps| {
      assert steps[..j] == steps;
    } else {
      var front := steps[..|steps| - 1];
      assert front[..j] == steps[..j];
      OriginsStay(cfg, front, j, key);
      if key in Run(cfg, front).value.tables.origins {
        OriginStays(cfg, Run(cfg, front).value, steps[|steps| - 1], key);
      }
    }
  }

  lemma OriginWritten(cfg: Config, w: World, step: Step)
    requires step.Create? && Enabled(cfg, w, step)
    ensures var t := After(cfg, w, step).tables;
            step.key in t.origins && t.origins[step.key] == Origin(step.hash, step.sid)
  {
  }

  /**
   Starting again under the same key never makes a second session: from its creation on,
   the key leads to the one session it made, as that session now stands, or is refused for
   another request.
   */
  lemma OneSessionPerCreationKey(cfg: Config, steps: seq<Step>, j: nat, hash: nat)
    requires cfg.maxRounds > 0 && cfg.maxRejections > 0 && Run(cfg, steps).Some? && j < |steps| && steps[j].Create?
    ensures var t := Run(cfg, steps).value.tables;
            && steps[j].sid in t.rows
            && ReplayedCreation(t, steps[j].key, hash) ==
               (if hash == steps[j].hash then Success(Some(t.rows[steps[j].sid].session)) else Failure(Conflict))
            && forall other :: other in t.origins && t.origins[other].sid == steps[j].sid ==> other == steps[j].key
  {
    hide Run, Enabled, After, Computed;
    StepTaken(cfg, steps, j);
    OriginWritten(cfg, Run(cfg, steps[..j]).value, steps[j]);
    OriginsStay(cfg, steps, j + 1, steps[j].key);
    RunsKeep(cfg, steps);
    KeptOrigins(cfg, Run(cfg, steps).value);
  }

  lemma KeptOrigins(cfg: Config, w: World)
    requires Inv(cfg, w)
    ensures Origins(w.tables)
  {
    hide Histories, Flights, Receipts;
  }

  // ----- held submissions ------------------------------------------------------------------------------

  /** The steps that may take a held submission away, or mark it. */
  ghost predicate Touches(cfg: Config, w: World, step: Step, sid: Id, held: Held)
    requires Enabled(cfg, w, step)
  {
    || (step.Hold? && w.flights[step.flight].sid == sid)
    || ((step.Fail? || step.Release?) && w.flights[step.flight].sid == sid && w.flights[step.flight].key == held.key)
    || (step.Commit? && w.flights[step.flight].sid == sid
        && sid in After(cfg, w, step).tables.rows && held.base < After(cfg, w, step).tables.rows[sid].session.revision)
  }

  lemma HeldStays(cfg: Config, w: World, step: Step, sid: Id)
    requires Enabled(cfg, w, step) && sid in w.tables.held && !Touches(cfg, w, step, sid, w.tables.held[sid])
    ensures sid in After(cfg, w, step).tables.held && After(cfg, w, step).tables.held[sid] == w.tables.held[sid]
  {
    hide Computed;
  }

  /**
   What the user submitted stays as it was through every stretch of a run in which no
   newer submission takes its place, no commit moves the session past its revision, and no
   failure or release carries its own key: a late one with another key never touches it.
   */
  lemma {:induction false} HeldSubmissionsAreKeyed(cfg: Config, steps: seq<Step>, j: nat, sid: Id, held: Held)
    requires j <= |steps| && Run(cfg, steps).Some? && Run(cfg, steps[..j]).Some?
    requires sid in Run(cfg, steps[..j]).value.tables.held && Run(cfg, steps[..j]).value.tables.held[sid] == held
    requires forall i :: j <= i < |steps| && Run(cfg, steps[..i]).Some? && Enabled(cfg, Run(cfg, steps[..i]).value, steps[i]) ==>
               !Touches(cfg, Run(cfg, steps[..i]).value, steps[i], sid, held)
    ensures sid in Run(cfg, steps).value.tables.held && Run(cfg, steps).value.tables.held[sid] == held
    decreases |steps|
  {
    hide Enabled, After, Touches;
    if j == |steps| {
      assert steps[..j] == steps;
    } else {
      var front := steps[..|steps| - 1];
      assert front[..j] == steps[..j];
      forall i | j <= i < |front| && Run(cfg, front[..i]).Some? && Enabled(cfg, Run(cfg, front[..i]).value, front[i])
        ensures !Touches(cfg, Run(cfg, front[..i]).value, front[i], sid, held)
      {
        assert front[..i] == steps[..i] && front[i] == steps[i];
      }
      HeldSubmissionsAreKeyed(cfg, front, j, sid, held);
      assert front == steps[..|steps| - 1];
      HeldStays(cfg, Run(cfg, front).value, steps[|steps| - 1], sid);
    }
  }
}
