/**
 The audit budget does not bound active sessions for good: a run in which the audit
 spends it, the user finalizes, and one correction makes the session active again.
 */
module IntakeOverrun {
  import opened Wrappers
  import opened IntakeModel
  import opened IntakeLog
  import opened IntakeRounds
  import opened IntakeApply
  import opened IntakeTheorems
  import opened IntakeParse
  import opened IntakeStore
  import opened IntakeCommands
  import opened IntakeProtocol

  // ----- a command nobody disturbs -------------------------------------------------------------

  function Alone(flight: Id, sid: Id, key: Id, hash: nat, c: Command): seq<Step> {
    [Begin(flight, sid, key, hash, c), ReadEvents(flight), IntakeProtocol.Commit(flight)]
  }

  lemma Extends(cfg: Config, steps: seq<Step>, step: Step)
    requires Run(cfg, steps).Some? && Enabled(cfg, Run(cfg, steps).value, step)
    ensures Run(cfg, steps + [step]) == Some(After(cfg, Run(cfg, steps).value, step))
  {
    hide Enabled, After;
    assert (steps + [step])[..|steps|] == steps;
  }

  /** The world after an undisturbed command that computes a session. */
  function Served(w: World, flight: Id, sid: Id, key: Id, hash: nat, c: Command, next: Session): World
    requires sid in w.tables.rows && sid in w.history
  {
    var row := Row(next, w.tables.rows[sid].events + Logged(c));
    World(Tables(w.tables.rows[sid := row], w.tables.receipts[(sid, key) := Receipt(hash, next)], Unspent(w.tables.held, sid, next.revision),
                 w.tables.origins),
          w.flights[flight := Flight(sid, w.tables.rows[sid].session, key, hash, c, Some(w.tables.rows[sid].events))],
          w.history[sid := w.history[sid] + [row]])
  }

  lemma UndisturbedCommits(cfg: Config, steps: seq<Step>, flight: Id, sid: Id, key: Id, hash: nat, c: Command, next: Session)
    requires Run(cfg, steps).Some?
    requires var w := Run(cfg, steps).value;
             && flight !in w.flights && sid in w.tables.rows && sid in w.history && (sid, key) !in w.tables.receipts
             && Computed(cfg, w.tables.rows[sid], c) == Success(next) && next.revision == w.tables.rows[sid].session.revision + 1
    ensures Run(cfg, steps + Alone(flight, sid, key, hash, c)) == Some(Served(Run(cfg, steps).value, flight, sid, key, hash, c, next))
  {
    hide Run, Computed;
    var w := Run(cfg, steps).value;
    var row := w.tables.rows[sid];
    var w1 := w.(flights := w.flights[flight := Flight(sid, row.session, key, hash, c, None)]);
    var w2 := w.(flights := w.flights[flight := Flight(sid, row.session, key, hash, c, Some(row.events))]);
    Extends(cfg, steps, Begin(flight, sid, key, hash, c));
    Extends(cfg, steps + [Begin(flight, sid, key, hash, c)], ReadEvents(flight));
    assert w1.flights[flight := Flight(sid, row.session, key, hash, c, Some(row.events))] == w2.flights;
    var step := IntakeProtocol.Commit(flight);
    assert Row(row.session, row.events) == row;
    Extends(cfg, steps + [Begin(flight, sid, key, hash, c)] + [ReadEvents(flight)], step);
    assert steps + [Begin(flight, sid, key, hash, c)] + [ReadEvents(flight)] + [step] == steps + Alone(flight, sid, key, hash, c);
    MovedRow(w, sid, next, w.tables.rows[sid].events + Logged(c));
  }

  lemma MovedRow(w: World, sid: Id, next: Session, events: seq<EventKind>)
    requires sid in w.tables.rows && next.revision == w.tables.rows[sid].session.revision + 1
    ensures w.tables.rows[sid := Row(next, events)] != w.tables.rows
  {
    assert w.tables.rows[sid := Row(next, events)][sid] != w.tables.rows[sid];
  }

  // ----- the run -----------------------------------------------------------------------------------

  const CONFIG := Config(10, 1, Host((d: Default) => None, (q: Question) => None))
  const INITIAL := Session(0, Active, [], [], [], [], [], Convergence(0, 0, None, false))
  const QUESTION := Question(1, "key", "wording", TextOnly, [], {})
  const ANSWER := Answer([], Some("text"), None)

  /** A candidate that the audit rejects: the whole budget of one. */
  const OPENING := First(Raw([], [], [{}], [], true, {}, 7, true), Audit(false, [QUESTION], []))
  const ENDING := Finalize([(1, ANSWER)], 5, Raw([], [], [{}], [], true, {}, 7, false), Audit(true, [], []))
  const CORRECTION := Round([], true, 6, Raw([], [], [], [], false, {}, 7, false), Audit(true, [], []))

  const STEPS := [Create(0, INITIAL, 9, 9)] + Alone(1, 0, 1, 1, OPENING) + Alone(2, 0, 2, 2, ENDING) + Alone(3, 0, 3, 3, CORRECTION)

  const ROW0 := Row(INITIAL, [UserMessage])

  lemma NothingMerged()
    ensures Merged([], []) == [] && AgentsOwn([]) == [] && Dedup([]) == [] && KnownIds([]) == {} && IdsOf([]) == {} && AnsweredIds([]) == {}
  {
  }

  /** Rounds without questions, defaults and reopens read as they are. */
  lemma ReadsPlainly(mode: Mode, raw: Raw, specs: nat, known: set<Id>)
    requires raw.questions == [] && raw.defaults == [] && raw.reopens == []
    requires raw.ladder == (if raw.ready then [{}] else []) && (mode.FinalizeMode? ==> raw.ready)
    ensures var p := Parsed(CONFIG.host, mode, raw, specs, [], known);
            && p.Some? && p.value.questions == [] && p.value.reopens == [] && p.value.ready == raw.ready
            && p.value.spec.defaults == []
  {
    NothingMerged();
    assert HandedBack(CONFIG.host, [], []) == Split([], []);
    assert Defaulted(CONFIG.host, [], []) == Some([]);
    assert Merged([], []) == [];
    assert ParsedReopens([], {}, known) == [];
  }

  /** What an undisturbed round of this kind needs: a sound session that it may start from. */
  lemma LandsPlainly(row: Row, c: Command, p: Proposal, reason: Option<Reason>)
    requires Sound(row.session) && Asks(c) && Planned(CONFIG, row, c).Success?
    requires var plan := Planned(CONFIG, row, c).value;
             plan.proposal == p && plan.reason == reason && p.reopens == [] && SensibleThread(plan.base.threads, p)
    requires p.questions == [] || (reason.Some? && Planned(CONFIG, row, c).value.base.decisions == [])
    ensures Computed(CONFIG, row, c).Success?
    ensures var plan, next := Planned(CONFIG, row, c).value, Computed(CONFIG, row, c).value;
            && Sound(next) && Landed(plan.base, p, reason, plan.convergence, next)
            && RoundResult(plan.base, p, reason, plan.convergence) == Success(next)
  {
    hide Planned, Sound, RoundResult, Landed, RepairedProposal, DependenciesHold;
    var plan := Planned(CONFIG, row, c).value;
    NothingMerged();
    if p.questions == [] {
      RepairedNothing(plan.base.decisions, p);
      assert DependenciesHold(plan.base.decisions, []) by {
        NoDependencies(plan.base.decisions);
      }
    } else {
      NoKeys();
    }
    RoundsSucceedIff(CONFIG, row, c);
    ComputedIsDrafted(CONFIG, row, c);
    DraftShape(CONFIG, row, c);
    hide Drafted, Computed;
    CommandsKeepSound(CONFIG, row, c);
    RoundsLand(plan.base, p, reason, plan.convergence, Computed(CONFIG, row, c).value);
  }

  lemma NoDependencies(log: seq<Entry>)
    ensures DependenciesHold(log, [])
  {
  }

  lemma NoKeys()
    ensures forall id :: Latest([], id).None?
  {
  }

  lemma FirstRead()
    ensures var plan := Planned(CONFIG, ROW0, OPENING);
            && plan.Success? && plan.value.base == INITIAL && plan.value.reason == Some(MaxAuditRejections)
            && plan.value.convergence == Convergence(0, 1, Some(MaxAuditRejections), false)
            && var p := plan.value.proposal;
            p.questions == [QUESTION] && p.reopens == [] && p.createdThread && p.thread == 7 && p.spec.defaults == []
            && !p.ready && p.spec.refs == {}
  {
    NothingMerged();
    ReadsPlainly(Advance, OPENING.raw, 0, {});
    hide Parsed, Merged, AgentsOwn, KnownIds;
    assert [] + [QUESTION] == [QUESTION];
  }

  lemma RepairedQuestion(p: Proposal)
    requires p.questions == [QUESTION] && p.reopens == []
    ensures RepairedProposal([], p).questions == [QUESTION] && RepairedProposal([], p).reopens == []
  {
    assert Dedup([]) == [];
    assert [QUESTION][..0] == [];
    assert Dedup([QUESTION]) == [QUESTION];
    assert KeptReopens([], [], p.spec.refs) == [];
    assert RepairAll([], [], [], p.spec.refs) == Repaired([], []);
    assert Latest([], 1).None?;
    assert RepairAll([], [], [QUESTION], p.spec.refs) == Repaired([QUESTION], []);
  }

  lemma QuestionAsked(r: Proposal)
    requires r.questions == [QUESTION] && r.reopens == [] && r.spec.refs == {}
    ensures RoundApplied([], r) == Success([NewDecision(QUESTION, {})])
  {
    assert ReopenIds([]) == {};
    assert ReopenAll([], [], [QUESTION]) == Success([]);
    assert [QUESTION][..0] == [];
    assert AskAll([], [], {}, {}) == Success([]);
    assert Latest([], 1).None?;
    assert [] + [NewDecision(QUESTION, {})] == [NewDecision(QUESTION, {})];
  }

  lemma Opened() returns (next: Session)
    ensures Computed(CONFIG, ROW0, OPENING) == Success(next) && Sound(next)
    ensures next.status.ConvergenceRequired? && next.frontier == [] && next.pending == [QUESTION]
    ensures next.decisions == [NewDecision(QUESTION, {})] && next.threads == [Thread(1, ActiveThread, 7)]
    ensures next.convergence == Convergence(0, 1, Some(MaxAuditRejections), false) && next.revision == 1
    ensures |next.specs| == 1 && Inherited(next.specs) == []
  {
    hide Planned, Computed, Sound, RoundResult, RepairedProposal, RoundLog, RoundApplied;
    InitialIsSound(INITIAL);
    FirstRead();
    var plan := Planned(CONFIG, ROW0, OPENING).value;
    var p := plan.proposal;
    LandsPlainly(ROW0, OPENING, p, plan.reason);
    next := Computed(CONFIG, ROW0, OPENING).value;
    RepairedQuestion(p);
    RepairKeepsRest([], p);
    QuestionAsked(RepairedProposal([], p));
    ResultParts(INITIAL, p, plan.reason, plan.convergence);
  }

  lemma Answers()
    ensures AnswerAll([NewDecision(QUESTION, {})], [(1, ANSWER)], 5) ==
              Success([Retired(NewDecision(QUESTION, {})), Answered(NewDecision(QUESTION, {}), ANSWER, 5)])
    ensures AnsweredIds([(1, ANSWER)]) == {1} && Latest([NewDecision(QUESTION, {})], 1).Some?
  {
    var d := NewDecision(QUESTION, {});
    var log := [d];
    assert [(1, ANSWER)][..0] == [];
    assert AnswerAll(log, [], 5) == Success(log);
    assert log[..0] == [];
    assert History([], 1) == [];
    assert History(log, 1) == [d];
    assert LatestIndex(log, 1) == 0;
    assert log[0 := Retired(d)] + [Answered(d, ANSWER, 5)] == [Retired(d), Answered(d, ANSWER, 5)];
  }

  lemma SecondRead(row: Row)
    requires var s := row.session;
             && s.status.ConvergenceRequired? && s.frontier == [] && s.pending == [QUESTION] && s.decisions == [NewDecision(QUESTION, {})]
             && |s.specs| == 1 && Inherited(s.specs) == [] && s.convergence.rejections == 1 && s.threads == [Thread(1, ActiveThread, 7)]
    ensures var plan := Planned(CONFIG, row, ENDING);
            && plan.Success? && plan.value.reason.None?
            && plan.value.base.threads == row.session.threads && plan.value.base.specs == row.session.specs
            && plan.value.convergence.rejections == 1 && plan.value.convergence.finalized
            && var p := plan.value.proposal;
            p.questions == [] && p.reopens == [] && !p.createdThread && p.thread == 7 && p.spec.defaults == [] && p.ready
  {
    Answers();
    var u := Basis(row, ENDING);
    assert IdsOf([QUESTION]) == {1};
    assert u.Success? && u.value.specs == row.session.specs;
    NothingMerged();
    ReadsPlainly(FinalizeMode, ENDING.raw, 1, KnownIds(u.value.decisions));
    hide Parsed, Merged, AgentsOwn, KnownIds, Basis;
  }

  lemma Ended(row: Row) returns (next: Session)
    requires var s := row.session;
             && Sound(s) && s.revision == 1
             && s.status.ConvergenceRequired? && s.frontier == [] && s.pending == [QUESTION] && s.decisions == [NewDecision(QUESTION, {})]
             && |s.specs| == 1 && Inherited(s.specs) == [] && s.convergence.rejections == 1 && s.threads == [Thread(1, ActiveThread, 7)]
    ensures Computed(CONFIG, row, ENDING) == Success(next) && Sound(next)
    ensures next.status.CandidateReady? && next.frontier == [] && next.revision == 2
    ensures next.threads == [Thread(1, ActiveThread, 7)] && next.convergence.rejections == 1 && next.convergence.finalized
    ensures |next.specs| == 2 && Inherited(next.specs) == []
  {
    hide Planned, Computed, Sound, RoundResult, RepairedProposal, RoundLog, Drafted;
    SecondRead(row);
    var plan := Planned(CONFIG, row, ENDING).value;
    var p := plan.proposal;
    LandsPlainly(row, ENDING, p, plan.reason);
    next := Computed(CONFIG, row, ENDING).value;
    ComputedIsDrafted(CONFIG, row, ENDING);
    DraftShape(CONFIG, row, ENDING);
    RepairedNothing(plan.base.decisions, p);
    NothingMerged();
  }

  lemma ThirdRead(row: Row)
    requires var s := row.session;
             && s.status.CandidateReady? && s.frontier == [] && |s.specs| == 2 && Inherited(s.specs) == []
             && s.convergence.rejections == 1 && s.convergence.finalized && s.threads == [Thread(1, ActiveThread, 7)]
    requires RoundCount(row.events) == 0
    ensures var plan := Planned(CONFIG, row, CORRECTION);
            && plan.Success? && plan.value.reason.None? && plan.value.base.threads == row.session.threads
            && plan.value.convergence.rejections == 1 && plan.value.convergence.finalized
            && var p := plan.value.proposal;
            p.questions == [] && p.reopens == [] && !p.createdThread && p.thread == 7 && !p.ready
  {
    NothingMerged();
    var u := Basis(row, CORRECTION);
    assert u.Success? && u.value.specs == row.session.specs;
    ReadsPlainly(Advance, CORRECTION.raw, 2, KnownIds(u.value.decisions));
    hide Parsed, Merged, AgentsOwn, KnownIds, Basis, RoundCount;
  }

  lemma Corrected(row: Row) returns (next: Session)
    requires var s := row.session;
             && Sound(s) && s.revision == 2 && s.status.CandidateReady? && s.frontier == [] && |s.specs| == 2 && Inherited(s.specs) == []
             && s.convergence.rejections == 1 && s.convergence.finalized && s.threads == [Thread(1, ActiveThread, 7)]
    requires RoundCount(row.events) == 0
    ensures Computed(CONFIG, row, CORRECTION) == Success(next) && next.revision == 3
    ensures next.status.Active? && next.convergence.rejections == 1 && next.convergence.finalized
  {
    hide Planned, Computed, Sound, RoundResult, RepairedProposal, RoundLog, Drafted, RoundCount;
    ThirdRead(row);
    var plan := Planned(CONFIG, row, CORRECTION).value;
    LandsPlainly(row, CORRECTION, plan.proposal, plan.reason);
    next := Computed(CONFIG, row, CORRECTION).value;
    ComputedIsDrafted(CONFIG, row, CORRECTION);
    DraftShape(CONFIG, row, CORRECTION);
  }

  lemma Created()
    ensures Run(CONFIG, [Create(0, INITIAL, 9, 9)]) == Some(World(Tables(map[0 := ROW0], map[], map[], map[9 := Origin(9, 0)]), map[], map[0 := [ROW0]]))
  {
    assert [Create(0, INITIAL, 9, 9)][..0] == [];
  }

  /** The run is possible, and ends in a finalized session that is active with its rejections spent. */
  lemma SpentAndActiveIsReached()
    ensures Run(CONFIG, STEPS).Some? && 0 in Run(CONFIG, STEPS).value.tables.rows
    ensures var s := Run(CONFIG, STEPS).value.tables.rows[0].session;
            s.status.Active? && s.convergence.finalized && s.convergence.rejections >= CONFIG.maxRejections
  {
    hide Computed, Sound, Run, RoundCount;
    Created();
    var start := [Create(0, INITIAL, 9, 9)];
    var s1 := Opened();
    UndisturbedCommits(CONFIG, start, 1, 0, 1, 1, OPENING, s1);
    var row1 := Row(s1, [UserMessage] + Logged(OPENING));
    var s2 := Ended(row1);
    var begun := start + Alone(1, 0, 1, 1, OPENING);
    assert Run(CONFIG, begun).value.tables.rows[0] == row1;
    UndisturbedCommits(CONFIG, begun, 2, 0, 2, 2, ENDING, s2);
    var row2 := Row(s2, row1.events + Logged(ENDING));
    NothingCounted();
    var s3 := Corrected(row2);
    UndisturbedCommits(CONFIG, begun + Alone(2, 0, 2, 2, ENDING), 3, 0, 3, 3, CORRECTION, s3);
  }

  lemma NothingCounted()
    ensures RoundCount([UserMessage] + Logged(OPENING) + Logged(ENDING)) == 0
  {
    CountsAppend([UserMessage], OPENING);
    CountsAppend([UserMessage] + Logged(OPENING), ENDING);
    assert [UserMessage][..0] == [];
  }
}
