/**
 What each command makes of the session it read: answers, parsing, audit, repair and
 application in one, and the server-side budget that ends the interview.
 */
module IntakeCommands {
  import opened Wrappers
  import opened IntakeModel
  import opened IntakeLog
  import opened IntakeRounds
  import opened IntakeApply
  import opened IntakeTheorems
  import opened IntakeParse
  import opened IntakeStore

  /** The two budgets, and the host's wording; the service refuses to start with a budget at zero. */
  datatype Config = Config(maxRounds: nat, maxRejections: nat, host: Host)

  datatype Audited = Audited(proposal: Proposal, rejections: nat, reason: Option<Reason>)

  datatype CommandError = WrongStatus | BrokenContract | BadAudit | NotReady | Refused(why: Refusal) | NoLadder | NoThread | Unsound

  /** `_audit_candidate`: a rejection returns its questions, and the one that spends the budget stops the interview. */
  function AuditCandidate(cfg: Config, p: Proposal, audit: Audit, rejections: nat): Audited {
    var merged := p.(spec := p.spec.(defaults := Merged(p.spec.defaults, audit.defaults)));
    if audit.passed then Audited(merged, rejections, None)
    else
      Audited(merged.(spec := merged.spec.(status := Draft), questions := merged.questions + audit.questions, ready := false),
              rejections + 1,
              if rejections + 1 >= cfg.maxRejections then Some(MaxAuditRejections) else None)
  }

  function RoundCount(events: seq<EventKind>): nat {
    if events == [] then 0 else (if events[|events| - 1].UserAnswers? then 1 else 0) + RoundCount(events[..|events| - 1])
  }

  /** First is the model's opening round of a session that was just created. */
  datatype Command =
    | First(raw: Raw, audit: Audit)
    | Round(answers: seq<(Id, Answer)>, message: bool, event: Id, raw: Raw, audit: Audit)
    | Finalize(answers: seq<(Id, Answer)>, event: Id, raw: Raw, audit: Audit)
    | Confirm
    | Cancel
    | ReplaceThread(thread: Id)

  /** The command runs a model round. */
  predicate Asks(c: Command) {
    c.First? || c.Round? || c.Finalize?
  }

  function ModeOf(c: Command): Mode {
    if c.Finalize? then FinalizeMode else Advance
  }

  function Closed(threads: seq<Thread>): (r: seq<Thread>)
    ensures |r| == |threads|
  {
    seq(|threads|, i requires 0 <= i < |threads| => if threads[i].status.ActiveThread? then threads[i].(status := ClosedThread) else threads[i])
  }

  predicate Resumable(s: Status) {
    s in {Active, ConvergenceRequired, CandidateReady}
  }

  /** Guard and answers: the session the model's round is about. */
  function Basis(row: Row, c: Command): Result<Session, CommandError>
    requires Asks(c)
  {
    var s := row.session;
    match c
    case First(_, _) => if s.revision != 0 then Failure(WrongStatus) else Success(s)
    case Round(answers, message, event, _, _) =>
      if answers == [] && !message then Failure(WrongStatus)
      else if s.status !in {Active, CandidateReady} || (s.status.CandidateReady? && answers != []) then Failure(WrongStatus)
      else Understood(AnswersApplied(s, answers, IdsOf(s.frontier), event))
    case Finalize(answers, event, _, _) =>
      if !s.status.ConvergenceRequired? then Failure(WrongStatus)
      else Understood(AnswersApplied(s, answers, IdsOf(s.pending), event))
  }

  function Understood<T>(r: Result<T, Refusal>): Result<T, CommandError> {
    match r
    case Success(x) => Success(x)
    case Failure(e) => Failure(Refused(e))
  }

  function Inherited(specs: seq<Spec>): seq<Default> {
    if specs == [] then [] else specs[|specs| - 1].defaults
  }

  /** The model's round as it is read, and audited if it calls itself a candidate. */
  function Heard(cfg: Config, u: Session, mode: Mode, raw: Raw, audit: Audit, rejections: nat): Result<Audited, CommandError> {
    match Parsed(cfg.host, mode, raw, |u.specs|, Inherited(u.specs), KnownIds(u.decisions))
    case None => Failure(BrokenContract)
    case Some(p) =>
      if !p.ready then Success(Audited(p, rejections, None))
      else
        match ReadAudit(mode, audit)
        case None => Failure(BadAudit)
        case Some(a) => Success(AuditCandidate(cfg, p, a, rejections))
  }

  /** What is about to be applied, and what becomes of the budget. */
  datatype Plan = Plan(base: Session, proposal: Proposal, reason: Option<Reason>, convergence: Convergence)

  function Planned(cfg: Config, row: Row, c: Command): Result<Plan, CommandError>
    requires Asks(c)
  {
    var s := row.session;
    match Basis(row, c)
    case Failure(e) => Failure(e)
    case Success(u) =>
      match Heard(cfg, u, ModeOf(c), c.raw, c.audit, if c.First? then 0 else s.convergence.rejections)
      case Failure(e) => Failure(e)
      case Success(o) =>
        if c.Finalize? then
          if !o.proposal.ready then Failure(NotReady)
          else Success(Plan(u, o.proposal, None, Convergence(s.convergence.rounds, o.rejections, s.convergence.reason, true)))
        else
          var round := if c.First? then 0 else RoundCount(row.events) + 1;
          var reason := if !o.proposal.ready && round >= cfg.maxRounds && o.reason.None? then Some(MaxFrontierRounds) else o.reason;
          Success(Plan(u, o.proposal, reason, Convergence(round, o.rejections, reason, u.convergence.finalized)))
  }

  /** The session a command builds from the snapshot and its events, before its constructor looks at it. */
  function Drafted(cfg: Config, row: Row, c: Command): Result<Session, CommandError> {
    var s := row.session;
    match c
    case Confirm =>
      if !s.status.CandidateReady? || s.specs == [] then Failure(WrongStatus)
      else if s.specs[|s.specs| - 1].ladder == [] then Failure(NoLadder)
      else
        var last := s.specs[|s.specs| - 1];
        Success(s.(revision := s.revision + 1, status := Confirmed,
                   specs := s.specs[|s.specs| - 1 := last.(status := SupersededSpec)]
                            + [last.(version := last.version + 1, supersedes := Some(last.version), status := ConfirmedSpec)],
                   frontier := [], threads := Closed(s.threads)))
    case Cancel =>
      if !Resumable(s.status) then Failure(WrongStatus)
      else Success(s.(revision := s.revision + 1, status := Cancelled, frontier := [], pending := [], threads := Closed(s.threads)))
    case ReplaceThread(thread) =>
      if !Resumable(s.status) then Failure(WrongStatus)
      else if LastActive(s.threads).None? then Failure(NoThread)
      else
        var n := |s.threads| - 1;
        Success(s.(revision := s.revision + 1,
                   threads := s.threads[n := LastActive(s.threads).value.(status := SupersededThread)]
                              + [Thread(LastActive(s.threads).value.generation + 1, ActiveThread, thread)]))
    case _ =>
      match Planned(cfg, row, c)
      case Failure(e) => Failure(e)
      case Success(plan) => Understood(RoundResult(plan.base, plan.proposal, plan.reason, plan.convergence))
  }

  /** The session a command would commit: one that its constructor accepts. */
  ghost function Computed(cfg: Config, row: Row, c: Command): Result<Session, CommandError> {
    match Drafted(cfg, row, c)
    case Failure(e) => Failure(e)
    case Success(next) => if SessionOk(next) then Success(next) else Failure(Unsound)
  }

  lemma ComputedIsDrafted(cfg: Config, row: Row, c: Command)
    ensures Computed(cfg, row, c).Success? ==> Drafted(cfg, row, c) == Computed(cfg, row, c) && SessionOk(Computed(cfg, row, c).value)
  {
    hide SessionOk, Drafted;
  }

  /** The event that counts: only an advancing round writes `user_answers`. */
  function Logged(c: Command): seq<EventKind> {
    match c
    case Round(_, _, _, _, _) => [UserAnswers, OtherEvent]
    case Finalize(_, _, _, _) => [FinalizeAnswers, OtherEvent]
    case _ => [OtherEvent]
  }

  // ----- the budget ------------------------------------------------------------------------------

  /**
   An active session has answered fewer rounds than the budget; and until the user has
   finalized once, a session that can still be advanced has rejections to spare.
   */
  predicate WithinBudget(cfg: Config, row: Row) {
    && (row.session.status.Active? ==> RoundCount(row.events) < cfg.maxRounds)
    && (!row.session.convergence.finalized && row.session.status in {Active, CandidateReady} ==>
          row.session.convergence.rejections < cfg.maxRejections)
  }

  lemma CountOne(events: seq<EventKind>, e: EventKind)
    ensures RoundCount(events + [e]) == RoundCount(events) + if e.UserAnswers? then 1 else 0
  {
    assert (events + [e])[..|events|] == events;
  }

  lemma CountsAppend(events: seq<EventKind>, c: Command)
    ensures RoundCount(events + Logged(c)) == RoundCount(events) + if c.Round? then 1 else 0
  {
    hide RoundCount;
    var first := Logged(c)[0];
    CountOne(events, first);
    if |Logged(c)| == 2 {
      CountOne(events + [first], OtherEvent);
      assert events + Logged(c) == events + [first] + [OtherEvent];
    }
  }

  /** What the plan says is what the session gets. */
  lemma DraftShape(cfg: Config, row: Row, c: Command)
    requires Asks(c) && Drafted(cfg, row, c).Success?
    ensures Planned(cfg, row, c).Success?
    ensures var plan, next := Planned(cfg, row, c).value, Drafted(cfg, row, c).value;
            && RoundResult(plan.base, plan.proposal, plan.reason, plan.convergence) == Success(next)
            && next.status == StatusAfter(plan.proposal, plan.reason) && next.convergence == plan.convergence
            && next.revision == plan.base.revision + 1 && plan.base.revision == row.session.revision
            && plan.base.convergence == row.session.convergence && plan.base.specs == row.session.specs
    ensures c.First? ==> row.session.revision == 0
    ensures c.Finalize? ==> row.session.status.ConvergenceRequired?
    ensures c.Round? ==> row.session.status in {Active, CandidateReady}
  {
    hide RepairedProposal, ReopenAll, AskAll, SpecsAfter, ThreadsAfter, AnswerAll, Parsed, ReadAudit, RoundCount, IdsOf, Without, KnownIds;
  }

  /** How the audit leaves the budget: a rejection counts, and one that spends it gives the reason to stop. */
  lemma HeardRejections(cfg: Config, u: Session, mode: Mode, raw: Raw, audit: Audit, rejections: nat)
    requires Heard(cfg, u, mode, raw, audit, rejections).Success?
    ensures var o := Heard(cfg, u, mode, raw, audit, rejections).value;
            var p := Parsed(cfg.host, mode, raw, |u.specs|, Inherited(u.specs), KnownIds(u.decisions));
            && p.Some? && o.rejections in {rejections, rejections + 1}
            && (o.rejections == rejections ==> o.reason.None? && o.proposal.ready == p.value.ready)
            && (o.rejections > rejections ==> p.value.ready && !o.proposal.ready && (o.reason.Some? <==> o.rejections >= cfg.maxRejections))
            && (mode.FinalizeMode? ==> o.rejections == rejections)
  {
    hide Parsed, Merged, AgentsOwn;
  }

  /** Every command keeps the budget. */
  lemma CommandsKeepBudget(cfg: Config, row: Row, c: Command)
    requires cfg.maxRounds > 0 && cfg.maxRejections > 0 && WithinBudget(cfg, row) && Computed(cfg, row, c).Success?
    requires row.session.revision == 0 ==> RoundCount(row.events) == 0 && !row.session.convergence.finalized
    ensures WithinBudget(cfg, Row(Computed(cfg, row, c).value, row.events + Logged(c)))
  {
    CountsAppend(row.events, c);
    ComputedIsDrafted(cfg, row, c);
    hide Computed, RoundCount, Closed, Basis, Heard, Parsed, RoundResult, LastActive;
    if Asks(c) {
      DraftShape(cfg, row, c);
      hide Drafted;
      var u := Basis(row, c).value;
      HeardRejections(cfg, u, ModeOf(c), c.raw, c.audit, if c.First? then 0 else row.session.convergence.rejections);
    }
  }

  /** A round that leaves the session active is one of at most maxRounds - 1. */
  lemma ActiveRoundsRunOut(cfg: Config, row: Row, c: Command)
    requires c.Round? && Computed(cfg, row, c).Success? && RoundCount(row.events) + 1 >= cfg.maxRounds
    ensures !Computed(cfg, row, c).value.status.Active?
  {
    ComputedIsDrafted(cfg, row, c);
    DraftShape(cfg, row, c);
    hide Computed, Drafted, RoundCount, Basis, Heard, Parsed, RoundResult;
  }

  /** The round as it was read, before anybody audited it. */
  function ReadOf(cfg: Config, row: Row, c: Command): Option<Proposal>
    requires Asks(c)
  {
    match Basis(row, c)
    case Failure(_) => None
    case Success(u) => Parsed(cfg.host, ModeOf(c), c.raw, |u.specs|, Inherited(u.specs), KnownIds(u.decisions))
  }

  /**
   When the audit budget fails to bound an active session: an accepted round leaves it
   active with its rejections spent if and only if they were spent before, the round is
   no candidate, and it is not the last of its own budget.
   */
  lemma SpentAndActiveIff(cfg: Config, row: Row, c: Command)
    requires c.Round? && Computed(cfg, row, c).Success?
    ensures var next := Computed(cfg, row, c).value;
            (next.status.Active? && next.convergence.rejections >= cfg.maxRejections) <==>
            && row.session.convergence.rejections >= cfg.maxRejections
            && ReadOf(cfg, row, c).Some? && !ReadOf(cfg, row, c).value.ready
            && RoundCount(row.events) + 1 < cfg.maxRounds
  {
    ComputedIsDrafted(cfg, row, c);
    DraftShape(cfg, row, c);
    var u := Basis(row, c).value;
    HeardRejections(cfg, u, Advance, c.raw, c.audit, row.session.convergence.rejections);
    hide Computed, Drafted, RoundCount, Basis, Heard, Parsed, RoundResult;
  }

  /** A session that must converge leaves that state only by finalize or cancel. */
  lemma ConvergenceEnds(cfg: Config, row: Row, c: Command)
    requires row.session.status.ConvergenceRequired? && row.session.revision > 0 && Computed(cfg, row, c).Success?
    ensures var next := Computed(cfg, row, c).value;
            || (c.ReplaceThread? && next.status.ConvergenceRequired? && next.pending == row.session.pending)
            || (c.Finalize? && next.status.CandidateReady? && next.convergence.finalized)
            || (c.Cancel? && next.status.Cancelled?)
  {
    ComputedIsDrafted(cfg, row, c);
    hide Computed, Heard, RoundCount, Closed, Parsed, RoundResult, LastActive;
    if Asks(c) {
      DraftShape(cfg, row, c);
    }
  }

  /** Confirmed and cancelled sessions accept nothing more. */
  lemma TerminalRefuses(cfg: Config, row: Row, c: Command)
    requires row.session.status in {Confirmed, Cancelled} && row.session.revision > 0
    ensures Computed(cfg, row, c).Failure?
  {
    ComputedIsDrafted(cfg, row, c);
    hide Computed, Heard, RoundCount, Closed, Parsed, RoundResult, LastActive;
  }

  // ----- the session's own invariant -----------------------------------------------------------------

  /**
   What every stored session satisfies: its constructor's invariant; while it can be
   resumed, the user is shown exactly what is open; only a session that must converge has
   questions pending; and one that has not advanced yet has no decisions.
   */
  ghost predicate Sound(s: Session) {
    && SessionOk(s)
    && (Resumable(s.status) ==> Coherent(s) && ThreadsLive(s.threads))
    && (s.status in {Active, CandidateReady} ==> s.pending == [])
    && (s.revision == 0 ==> s.status.Active? && s.decisions == [])
  }

  /** Once the required answers are in, nothing is open. */
  lemma BasisHolds(row: Row, c: Command)
    requires Sound(row.session) && Asks(c) && Basis(row, c).Success?
    ensures var u := Basis(row, c).value;
            && SessionOk(u) && Settled(u.decisions) && NothingOpen(u.decisions) && ThreadsLive(u.threads)
            && u.revision == row.session.revision && u.specs == row.session.specs && u.threads == row.session.threads
  {
    var s := row.session;
    hide SpecsOk, SpecOk, LogOk, QuestionsOk, ThreadsOk, AnswerAll, Settled, NothingOpen, IsOpen, IsResolved, Latest;
    if c.First? {
      EmptyLog(s.decisions);
    } else if c.Round? {
      AnswersHold(s, c.answers, IdsOf(s.frontier), c.event);
      assert IdsOf(s.pending) == {};
    } else {
      AnswersHold(s, c.answers, IdsOf(s.pending), c.event);
      assert IdsOf(s.frontier) == {};
    }
  }

  lemma EmptyLog(log: seq<Entry>)
    requires log == []
    ensures Settled(log) && NothingOpen(log)
  {
  }

  /** Parsing and the audit together see to every premise the host can see to. */
  lemma HeardIsSensible(cfg: Config, u: Session, mode: Mode, raw: Raw, audit: Audit, rejections: nat)
    requires SessionOk(u) && Heard(cfg, u, mode, raw, audit, rejections).Success?
    ensures var o := Heard(cfg, u, mode, raw, audit, rejections).value;
            && DistinctReopens(o.proposal.reopens)
            && (forall r :: r in o.proposal.reopens ==>
                  r in raw.reopens && Latest(u.decisions, r.id).Some? && r.id in IdsOf(Dedup(o.proposal.questions)))
            && SensibleSpec(u.specs, o.proposal) && (o.proposal.ready ==> o.proposal.questions == [])
            && (o.reason.Some? ==> !o.proposal.ready) && (mode.FinalizeMode? ==> o.proposal.ready)
            && o.proposal.thread == raw.thread && o.proposal.createdThread == raw.createdThread
  {
    hide LogOk, QuestionsOk, ThreadsOk, StatusOk, Parsed, Latest, Dedup, KnownIds, SpecOk, Merged, AgentsOwn;
    InheritedIsDistinct(u.specs);
    ParsedIsSensible(cfg.host, mode, raw, u.specs, Inherited(u.specs), u.decisions);
    var p := Parsed(cfg.host, mode, raw, |u.specs|, Inherited(u.specs), KnownIds(u.decisions)).value;
    if mode.FinalizeMode? {
      FinalizeNeverAsks(cfg.host, raw, |u.specs|, Inherited(u.specs), KnownIds(u.decisions));
    }
    if p.ready {
      var a := ReadAudit(mode, audit).value;
      AuditedSpecOk(p.spec, a.defaults);
    }
  }

  lemma InheritedIsDistinct(specs: seq<Spec>)
    requires forall k :: 0 <= k < |specs| ==> SpecOk(specs[k])
    ensures DistinctDefaults(Inherited(specs))
  {
  }

  /** The audit only adds defaults, so the specification stays well formed. */
  lemma AuditedSpecOk(spec: Spec, more: seq<Default>)
    requires SpecOk(spec)
    ensures SpecOk(spec.(defaults := Merged(spec.defaults, more))) && SpecOk(spec.(defaults := Merged(spec.defaults, more), status := Draft))
  {
    hide Merged;
    MergedMeans(spec.defaults, more);
    var m := Merged(spec.defaults, more);
    forall k, d | 0 <= k < |spec.ladder| && d in spec.ladder[k]
      ensures exists i :: 0 <= i < |m| && m[i].id == d
    {
      assert HasDefault(spec.defaults, d);
      assert HasDefault(m, d);
    }
  }

  lemma PlanIsPrepared(cfg: Config, row: Row, c: Command)
    requires Sound(row.session) && Asks(c) && Planned(cfg, row, c).Success?
    ensures var plan := Planned(cfg, row, c).value;
            && Prepared(plan.base, plan.proposal, plan.reason, plan.convergence)
            && plan.base.revision == row.session.revision && plan.base.threads == row.session.threads
            && (c.Finalize? ==> plan.proposal.ready && plan.reason.None?)
  {
    hide Sound, SessionOk, Settled, NothingOpen, ThreadsLive, Basis, Heard, RoundCount, SensibleSpec, Dedup, Latest;
    BasisHolds(row, c);
    HeardIsSensible(cfg, Basis(row, c).value, ModeOf(c), c.raw, c.audit, if c.First? then 0 else row.session.convergence.rejections);
  }

  /**
   The whole pipeline, from the answers to the constructor: once the answers are accepted
   and the round is read, the command succeeds if and only if the model gave its reopens
   reasons, brought its new decisions under unused keys, stayed on its thread, and asks
   nothing that depends on what is open. No backstop and no other check can fail.
   */
  lemma RoundsSucceedIff(cfg: Config, row: Row, c: Command)
    requires Sound(row.session) && Asks(c) && Planned(cfg, row, c).Success?
    ensures var plan := Planned(cfg, row, c).value;
            Computed(cfg, row, c).Success? <==> WellMeant(plan.base, plan.proposal, plan.reason)
  {
    hide Sound, Planned, Prepared, WellMeant, RoundResult, SessionOk;
    PlanIsPrepared(cfg, row, c);
    var plan := Planned(cfg, row, c).value;
    AcceptedIff(plan.base, plan.proposal, plan.reason, plan.convergence);
  }

  /**
   Neither the model nor the audit can send the user back to answering once they
   finalize: the round is never short of a candidate, the audit is never refused, and what
   is accepted waits for confirmation with nothing left to ask.
   */
  lemma FinalizeNeverSendsBack(cfg: Config, row: Row, c: Command)
    requires Sound(row.session) && c.Finalize?
    ensures Planned(cfg, row, c) != Failure(NotReady) && Planned(cfg, row, c) != Failure(BadAudit)
    ensures Computed(cfg, row, c).Success? ==>
              var next := Computed(cfg, row, c).value;
              && next.status.CandidateReady? && next.frontier == [] && next.pending == [] && NothingOpen(next.decisions)
  {
    ComputedIsDrafted(cfg, row, c);
    hide Computed, Parsed, RoundResult, RoundCount, SpecsOk, SpecOk, LogOk, QuestionsOk, ThreadsOk, IsOpen, Sound, AnswersApplied, Merged,
         AgentsOwn, KnownIds;
    if Basis(row, c).Success? {
      BasisHolds(row, c);
      var u := Basis(row, c).value;
      if Heard(cfg, u, FinalizeMode, c.raw, c.audit, row.session.convergence.rejections).Success? {
        HeardIsSensible(cfg, u, FinalizeMode, c.raw, c.audit, row.session.convergence.rejections);
      }
    }
    if Drafted(cfg, row, c).Success? {
      DraftShape(cfg, row, c);
    }
  }

  lemma ConfirmIsSound(cfg: Config, row: Row)
    requires SessionOk(row.session) && Drafted(cfg, row, Confirm).Success?
    ensures Sound(Drafted(cfg, row, Confirm).value)
  {
    hide LogOk, IsOpen, IsResolved, Latest;
    var next := Drafted(cfg, row, Confirm).value;
    assert forall k :: 0 <= k < |next.specs| - 2 ==> next.specs[k] == row.session.specs[k];
    assert SpecOk(row.session.specs[|row.session.specs| - 1]);
  }

  lemma CancelIsSound(cfg: Config, row: Row)
    requires SessionOk(row.session) && Drafted(cfg, row, Cancel).Success?
    ensures Sound(Drafted(cfg, row, Cancel).value)
  {
    hide LogOk, IsOpen, IsResolved, Latest, SpecsOk, SpecOk;
  }

  lemma ReplaceIsSound(cfg: Config, row: Row, thread: Id)
    requires Sound(row.session) && Drafted(cfg, row, ReplaceThread(thread)).Success?
    ensures Sound(Drafted(cfg, row, ReplaceThread(thread)).value)
  {
    hide LogOk, IsOpen, IsResolved, Latest, SpecsOk, SpecOk, QuestionsOk, LastActive;
    LastIsActive(row.session.threads);
  }

  lemma LastIsActive(threads: seq<Thread>)
    requires ThreadsLive(threads)
    ensures LastActive(threads) == if threads == [] then None else Some(threads[|threads| - 1])
  {
  }

  /** Confirming, cancelling and replacing the thread succeed whenever their guards do: the constructor never refuses. */
  lemma GuardsDecide(cfg: Config, row: Row, c: Command)
    requires Sound(row.session) && !Asks(c)
    ensures Computed(cfg, row, c) == Drafted(cfg, row, c)
  {
    hide Sound, Drafted, SessionOk;
    if Drafted(cfg, row, c).Success? {
      SoundIsOk(row.session);
      match c {
        case Confirm => ConfirmIsSound(cfg, row);
        case Cancel => CancelIsSound(cfg, row);
        case ReplaceThread(thread) => ReplaceIsSound(cfg, row, thread);
      }
      SoundIsOk(Drafted(cfg, row, c).value);
    }
  }

  lemma SoundIsOk(s: Session)
    requires Sound(s)
    ensures SessionOk(s)
  {
    hide SessionOk;
  }

  /** Every command keeps a sound session sound, whatever the user and the model wrote. */
  lemma CommandsKeepSound(cfg: Config, row: Row, c: Command)
    requires Sound(row.session) && Computed(cfg, row, c).Success?
    ensures Sound(Computed(cfg, row, c).value)
  {
    hide Sound, SessionOk, Drafted;
    ComputedIsDrafted(cfg, row, c);
    SoundIsOk(row.session);
    match c {
      case Confirm => ConfirmIsSound(cfg, row);
      case Cancel => CancelIsSound(cfg, row);
      case ReplaceThread(thread) => ReplaceIsSound(cfg, row, thread);
      case _ => RoundIsSound(cfg, row, c);
    }
  }

  lemma RoundIsSound(cfg: Config, row: Row, c: Command)
    requires Sound(row.session) && Asks(c) && Computed(cfg, row, c).Success?
    ensures Sound(Computed(cfg, row, c).value)
  {
    ComputedIsDrafted(cfg, row, c);
    DraftShape(cfg, row, c);
    PlanIsPrepared(cfg, row, c);
    var plan, next := Planned(cfg, row, c).value, Computed(cfg, row, c).value;
    hide Computed, Drafted, Planned, RoundResult, Dedup, Latest, SensibleSpec, Settled, NothingOpen, Coherent, SpecsOk, SpecOk, LogOk,
         QuestionsOk, StatusOk, RoundLog, RepairedProposal;
    RoundsLand(plan.base, plan.proposal, plan.reason, plan.convergence, next);
    RoundsAreCoherent(plan.base, plan.proposal, plan.reason, plan.convergence, next);
    ThreadsStayOk(plan.base.threads, plan.proposal);
  }

  // ----- whose answers they are -------------------------------------------------------------------------

  /** The later history of a decision still holds every revision of the earlier one, with its answer. */
  ghost predicate AnswersKept(before: seq<Entry>, after: seq<Entry>) {
    && |before| <= |after|
    && forall k :: 0 <= k < |before| ==> after[k].revision == before[k].revision && after[k].answer == before[k].answer
  }

  lemma AnswerKeeps(log: seq<Entry>, id: Id, a: Answer, event: Id)
    requires AnswerOne(log, id, a, event).Success?
    ensures AnswersKept(History(log, id), History(AnswerOne(log, id, a, event).value, id))
    ensures Latest(log, id).Some? && Latest(AnswerOne(log, id, a, event).value, id).Some?
    ensures var q, now := Latest(log, id).value.question, Latest(AnswerOne(log, id, a, event).value, id).value;
            now.question == q && now.answer.Some? && Recorded(q, a, now.answer.value)
  {
    hide History;
    AnswerRefusedIff(log, id, a, event);
    var current := Latest(log, id).value;
    HistorySucceeded(log, id, Retired(current), Answered(current, Normalized(current.question, a).value, event), id);
  }

  /** After the answers, each answered decision holds what the user said, and nothing said before is gone. */
  lemma {:induction false} AnswersAreTheUsers(log: seq<Entry>, answers: seq<(Id, Answer)>, event: Id, id: Id)
    requires AnswerAll(log, answers, event).Success?
    ensures var log' := AnswerAll(log, answers, event).value;
            && AnswersKept(History(log, id), History(log', id))
            && (id in AnsweredIds(answers) ==>
                  exists a :: a in answers && a.0 == id && SaidSo(log, log', id, a.1))
    decreases |answers|
  {
    hide AnswerOne, History, SaidSo, Recorded;
    if answers != [] {
      var front := answers[..|answers| - 1];
      var last := answers[|answers| - 1];
      var mid := AnswerAll(log, front, event).value;
      var log' := AnswerAll(log, answers, event).value;
      assert answers == front + [last];
      AnswersAreTheUsers(log, front, event, id);
      AnswerAllMeans(log, front, event);
      AnswerAllMeans(log, answers, event);
      AnswerOneMeans(mid, last.0, last.1, event, id);
      AnswerKeeps(mid, last.0, last.1, event);
      if id == last.0 {
        assert id !in AnsweredIds(front);
        LastSaidSo(log, mid, log', id, last.1);
      } else if id in AnsweredIds(answers) {
        assert id in AnsweredIds(front);
        var a :| a in front && a.0 == id && SaidSo(log, mid, id, a.1);
        StillSaidSo(log, mid, log', id, a.1);
        assert a in answers;
      }
    }
  }

  /**
   The decision was open, and its question is now resolved with what the user said: the same
   words, the same strategy, and the options selected, or all that are offered where both
   routes are taken without a selection.
   */
  ghost predicate SaidSo(before: seq<Entry>, after: seq<Entry>, id: Id, a: Answer) {
    && IsOpen(before, id) && IsResolved(after, id)
    && var q, now := Latest(before, id).value.question, Latest(after, id).value;
    now.question == q && now.answer.Some? && Recorded(q, a, now.answer.value)
  }

  lemma LastSaidSo(log: seq<Entry>, mid: seq<Entry>, log': seq<Entry>, id: Id, a: Answer)
    requires IsOpen(log, id) && History(mid, id) == History(log, id) && IsResolved(log', id)
    requires Latest(mid, id).Some?
    requires var q, now := Latest(mid, id).value.question, Latest(log', id).value;
             now.question == q && now.answer.Some? && Recorded(q, a, now.answer.value)
    ensures SaidSo(log, log', id, a)
  {
  }

  lemma StillSaidSo(log: seq<Entry>, mid: seq<Entry>, log': seq<Entry>, id: Id, a: Answer)
    requires SaidSo(log, mid, id, a) && History(log', id) == History(mid, id)
    ensures SaidSo(log, log', id, a)
  {
  }

  lemma RoundKeepsAnswers(s: Session, p: Proposal, reason: Option<Reason>, c: Convergence, next: Session, id: Id)
    requires RoundResult(s, p, reason, c) == Success(next)
    ensures AnswersKept(History(s.decisions, id), History(next.decisions, id))
    ensures IsResolved(next.decisions, id) ==> History(next.decisions, id) == History(s.decisions, id)
  {
    hide History, PutBack, Standing, RepairedProposal, RoundResult;
    RoundsLand(s, p, reason, c, next);
    var questions := RepairedProposal(s.decisions, p).questions;
    if id in IdsOf(questions) {
      var q :| q in questions && q.id == id;
      assert IsOpen(next.decisions, q.id);
      AskedKeepsAnswers(History(s.decisions, id), History(next.decisions, id), q);
    }
  }

  lemma AskedKeepsAnswers(before: seq<Entry>, after: seq<Entry>, q: Question)
    requires PutBack(before, after, q) || Standing(before, after, q, false)
    ensures AnswersKept(before, after)
  {
    if PutBack(before, after, q) {
      forall k | 0 <= k < |before| - 1
        ensures after[k] == before[k]
      {
        assert after[k] == after[..|before| - 1][k];
      }
    }
  }

  /**
   Nobody but the user answers: whatever the model wrote, a decision that an accepted
   command leaves resolved was resolved just so before, or was open and holds what the
   user answered in this command; and no revision or answer of the past is lost or altered.
   */
  lemma OnlyTheUserAnswers(cfg: Config, row: Row, c: Command, id: Id)
    requires Computed(cfg, row, c).Success?
    ensures var before, after := row.session.decisions, Computed(cfg, row, c).value.decisions;
            && AnswersKept(History(before, id), History(after, id))
            && (IsResolved(after, id) ==>
                  || History(after, id) == History(before, id)
                  || ((c.Round? || c.Finalize?) && exists a :: a in c.answers && a.0 == id && SaidSo(before, after, id, a.1)))
  {
    ComputedIsDrafted(cfg, row, c);
    hide Computed, History, IsResolved, SaidSo, AnswersKept, Closed, LastActive;
    if Asks(c) {
      DraftShape(cfg, row, c);
      var plan, next := Planned(cfg, row, c).value, Computed(cfg, row, c).value;
      PlanBase(cfg, row, c);
      hide Drafted, Planned, RoundResult;
      RoundKeepsAnswers(plan.base, plan.proposal, plan.reason, plan.convergence, next, id);
      if c.Round? || c.Finalize? {
        AnswersAreTheUsers(row.session.decisions, c.answers, c.event, id);
        AnswerAllMeans(row.session.decisions, c.answers, c.event);
        KeptKept(History(row.session.decisions, id), History(plan.base.decisions, id), History(next.decisions, id));
        if IsResolved(next.decisions, id) && id in AnsweredIds(c.answers) {
          var a :| a in c.answers && a.0 == id && SaidSo(row.session.decisions, plan.base.decisions, id, a.1);
          StillSaidSo(row.session.decisions, plan.base.decisions, next.decisions, id, a.1);
        }
      }
    } else {
      assert AnswersKept(History(row.session.decisions, id), History(row.session.decisions, id)) by {
        KeptItself(History(row.session.decisions, id));
      }
    }
  }

  lemma PlanBase(cfg: Config, row: Row, c: Command)
    requires Asks(c) && Planned(cfg, row, c).Success?
    ensures var u := Planned(cfg, row, c).value.base;
            if c.First? then u == row.session
            else AnswerAll(row.session.decisions, c.answers, c.event) == Success(u.decisions)
  {
    hide AnswerAll, Heard, Without, RoundCount, IdsOf, AnsweredIds, Latest;
  }

  lemma KeptItself(h: seq<Entry>)
    ensures AnswersKept(h, h)
  {
  }

  lemma KeptKept(a: seq<Entry>, b: seq<Entry>, c: seq<Entry>)
    requires AnswersKept(a, b) && AnswersKept(b, c)
    ensures AnswersKept(a, c)
  {
  }
}
