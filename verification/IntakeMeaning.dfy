/**
 What the commands of an interview make of a session, said on its own fields: the three
 plain commands, what a round costs, how a round is read and audited, what is written for a
 question, and what becomes of threads and declared defaults.
 */
module IntakeMeaning {
  import opened Characters
  import opened Wrappers
  import opened IntakeModel
  import opened IntakeLog
  import opened IntakeRounds
  import opened IntakeApply
  import opened IntakeTheorems
  import opened IntakeParse
  import opened IntakeCommands
  import opened IntakeStore
  import opened IntakeProtocol

  // ----- threads ------------------------------------------------------------------------

  /** The last active thread. */
  ghost predicate IsLastActive(threads: seq<Thread>, k: nat) {
    && k < |threads| && threads[k].status == ActiveThread
    && forall j :: k < j < |threads| ==> threads[j].status != ActiveThread
  }

  lemma {:induction false} LastActiveIs(threads: seq<Thread>)
    ensures LastActive(threads).None? <==> forall k :: 0 <= k < |threads| ==> threads[k].status != ActiveThread
    ensures LastActive(threads).Some? ==> exists k: nat :: IsLastActive(threads, k) && threads[k] == LastActive(threads).value
  {
    if threads != [] {
      var front := threads[..|threads| - 1];
      LastActiveIs(front);
      if threads[|threads| - 1].status == ActiveThread {
        assert IsLastActive(threads, |threads| - 1);
      } else if LastActive(front).Some? {
        var k: nat :| IsLastActive(front, k) && front[k] == LastActive(front).value;
        assert IsLastActive(threads, k);
      }
    }
  }

  /** Every active thread is closed, and no other thread changes. */
  ghost predicate AllClosed(before: seq<Thread>, after: seq<Thread>) {
    && |after| == |before|
    && forall k :: 0 <= k < |before| ==>
         && after[k].generation == before[k].generation && after[k].id == before[k].id
         && after[k].status == (if before[k].status == ActiveThread then ClosedThread else before[k].status)
  }

  /** A round opens the first thread of a session or runs on its active one; in no other case it goes through. */
  lemma ThreadsAfterMeans(threads: seq<Thread>, p: Proposal)
    requires ThreadsLive(threads)
    ensures ThreadsAfter(threads, p) ==
            if p.createdThread && threads == [] then Success([Thread(1, ActiveThread, p.thread)])
            else if !p.createdThread && threads != [] && threads[|threads| - 1].id == p.thread then Success(threads)
            else Failure(ThreadMismatch)
  {
    LastIsActive(threads);
    if threads == [] {
      assert threads + [Thread(1, ActiveThread, p.thread)] == [Thread(1, ActiveThread, p.thread)];
    }
  }

  // ----- confirm, cancel, replace the thread ---------------------------------------------------

  /**
   Confirming takes a candidate with a ladder; the candidate is superseded by its own text,
   confirmed under the next version. Decisions and budget stay, and no thread stays active.
   */
  lemma ConfirmMeans(cfg: Config, row: Row)
    ensures var s := row.session;
            var n := |s.specs| - 1;
            Drafted(cfg, row, Confirm).Success? <==> s.status == CandidateReady && s.specs != [] && s.specs[n].ladder != []
    ensures Drafted(cfg, row, Confirm).Success? ==>
              var s, next := row.session, Drafted(cfg, row, Confirm).value;
              var n := |s.specs| - 1;
              && next.status == Confirmed && next.revision == s.revision + 1
              && |next.specs| == |s.specs| + 1 && (forall k :: 0 <= k < n ==> next.specs[k] == s.specs[k])
              && next.specs[n] == Spec(s.specs[n].version, SupersededSpec, s.specs[n].supersedes, s.specs[n].defaults, s.specs[n].ladder,
                                       s.specs[n].refs)
              && next.specs[n + 1] == Spec(s.specs[n].version + 1, ConfirmedSpec, Some(s.specs[n].version), s.specs[n].defaults,
                                           s.specs[n].ladder, s.specs[n].refs)
              && next.decisions == s.decisions && next.convergence == s.convergence
              && next.frontier == [] && next.pending == s.pending && AllClosed(s.threads, next.threads)
  {
  }

  /** Cancelling takes any session that is not finished, and clears what it shows. */
  lemma CancelMeans(cfg: Config, row: Row)
    ensures Drafted(cfg, row, Cancel).Success? <==> row.session.status in {Active, ConvergenceRequired, CandidateReady}
    ensures Drafted(cfg, row, Cancel).Success? ==>
              var s, next := row.session, Drafted(cfg, row, Cancel).value;
              && next.status == Cancelled && next.revision == s.revision + 1
              && next.specs == s.specs && next.decisions == s.decisions && next.convergence == s.convergence
              && next.frontier == [] && next.pending == [] && AllClosed(s.threads, next.threads)
  {
  }

  /** Replacing the thread supersedes the active one by a new generation, and leaves everything else. */
  lemma ReplaceMeans(cfg: Config, row: Row, thread: Id)
    requires ThreadsLive(row.session.threads)
    ensures Drafted(cfg, row, ReplaceThread(thread)).Success? <==>
            row.session.status in {Active, ConvergenceRequired, CandidateReady} && row.session.threads != []
    ensures Drafted(cfg, row, ReplaceThread(thread)).Success? ==>
              var s, next := row.session, Drafted(cfg, row, ReplaceThread(thread)).value;
              var n := |s.threads| - 1;
              && next == s.(revision := s.revision + 1, threads := next.threads)
              && next.threads == s.threads[..n] + [Thread(s.threads[n].generation, SupersededThread, s.threads[n].id),
                                                   Thread(s.threads[n].generation + 1, ActiveThread, thread)]
  {
    LastIsActive(row.session.threads);
  }

  // ----- when a round starts --------------------------------------------------------------------------

  /** An answer to an open decision that its question allows. */
  ghost predicate Answerable(log: seq<Entry>, a: (Id, Answer)) {
    Latest(log, a.0).Some? && Latest(log, a.0).value.status == Open && !Unfit(Latest(log, a.0).value.question, a.1)
  }

  ghost predicate AllAnswerable(log: seq<Entry>, answers: seq<(Id, Answer)>) {
    forall a :: a in answers ==> Answerable(log, a)
  }

  /** A list of answers is accepted exactly when they are to different decisions, each open, and each allowed by its question. */
  lemma {:induction false} AnswersGoThroughIff(log: seq<Entry>, answers: seq<(Id, Answer)>, event: Id)
    ensures AnswerAll(log, answers, event).Success? <==> DistinctAnswers(answers) && AllAnswerable(log, answers)
    decreases |answers|
  {
    hide Latest, Unfit, AnswerOne, Recorded;
    if answers != [] {
      var front, last := answers[..|answers| - 1], answers[|answers| - 1];
      assert answers == front + [last];
      AnswersGoThroughIff(log, front, event);
      DistinctSnoc(front, last);
      AnswerableSnoc(log, front, last);
      hide AllAnswerable, DistinctAnswers;
      if AnswerAll(log, front, event).Success? {
        var mid := AnswerAll(log, front, event).value;
        AnswerAllMeans(log, front, event);
        AnswerRefusedIff(mid, last.0, last.1, event);
        MidLooksUp(log, mid, last.0, AnsweredIds(front));
      }
    }
  }

  lemma AnswerableSnoc(log: seq<Entry>, front: seq<(Id, Answer)>, last: (Id, Answer))
    ensures AllAnswerable(log, front + [last]) <==> AllAnswerable(log, front) && Answerable(log, last)
  {
    hide Answerable;
    assert forall a :: a in front + [last] <==> a in front || a == last;
  }

  lemma DistinctSnoc(front: seq<(Id, Answer)>, last: (Id, Answer))
    ensures DistinctAnswers(front + [last]) <==> DistinctAnswers(front) && last.0 !in AnsweredIds(front)
  {
    var all := front + [last];
    assert forall i :: 0 <= i < |front| ==> all[i] == front[i] && front[i] in front;
    if last.0 in AnsweredIds(front) {
      var x :| x in front && x.0 == last.0;
      var i :| 0 <= i < |front| && front[i] == x;
      assert all[i].0 == all[|front|].0;
    }
  }

  lemma MidLooksUp(log: seq<Entry>, mid: seq<Entry>, id: Id, answered: set<Id>)
    requires forall x :: x in answered ==> IsResolved(mid, x)
    requires forall x :: x !in answered ==> History(mid, x) == History(log, x)
    ensures id !in answered ==> Latest(mid, id) == Latest(log, id)
    ensures id in answered ==> Latest(mid, id).Some? && Latest(mid, id).value.status != Open
  {
    hide History;
  }

  /** The answers cover the questions shown, are to different open decisions, and are allowed. */
  ghost predicate GoodAnswers(s: Session, answers: seq<(Id, Answer)>, shown: seq<Question>) {
    && (forall q :: q in shown ==> exists a :: a in answers && a.0 == q.id)
    && DistinctAnswers(answers) && AllAnswerable(s.decisions, answers)
  }

  lemma AppliedIff(s: Session, answers: seq<(Id, Answer)>, shown: seq<Question>, event: Id)
    ensures AnswersApplied(s, answers, IdsOf(shown), event).Success? <==> GoodAnswers(s, answers, shown)
    ensures AnswersApplied(s, answers, IdsOf(shown), event).Success? ==>
              var u := AnswersApplied(s, answers, IdsOf(shown), event).value;
              && u == s.(decisions := u.decisions, frontier := u.frontier, pending := u.pending)
              && AnswerAll(s.decisions, answers, event) == Success(u.decisions)
              && (forall q :: q in u.frontier <==> q in s.frontier && forall a :: a in answers ==> a.0 != q.id)
              && (forall q :: q in u.pending <==> q in s.pending && forall a :: a in answers ==> a.0 != q.id)
  {
    hide AnswerAll, Latest, Unfit, DistinctAnswers, Answerable;
    AnswersGoThroughIff(s.decisions, answers, event);
    assert IdsOf(shown) <= AnsweredIds(answers) <==> forall q :: q in shown ==> exists a :: a in answers && a.0 == q.id by {
      CoverIff(shown, answers);
    }
    if a :| a in answers && Latest(s.decisions, a.0).None? {
      assert !Answerable(s.decisions, a) by {
        UnknownIsUnanswerable(s.decisions, a);
      }
    }
  }

  lemma UnknownIsUnanswerable(log: seq<Entry>, a: (Id, Answer))
    requires Latest(log, a.0).None?
    ensures !Answerable(log, a)
  {
  }

  lemma CoverIff(shown: seq<Question>, answers: seq<(Id, Answer)>)
    ensures IdsOf(shown) <= AnsweredIds(answers) <==> forall q :: q in shown ==> exists a :: a in answers && a.0 == q.id
  {
    if IdsOf(shown) <= AnsweredIds(answers) {
      forall q | q in shown
        ensures exists a :: a in answers && a.0 == q.id
      {
        assert q.id in IdsOf(shown);
      }
    }
  }

  /**
   When a round gets as far as its model: the opening round on a new session, an advancing
   one with answers or a message on a session that is asking or is a candidate, which takes
   no answers, and a finalizing one on a session that must converge; all with good answers to
   every question shown.
   */
  lemma RoundStartsIff(row: Row, c: Command)
    requires Asks(c)
    ensures var s := row.session;
            Basis(row, c).Success? <==>
            match c
            case First(_, _) => s.revision == 0
            case Round(answers, message, _, _, _) =>
              && (answers != [] || message)
              && (s.status == Active || (s.status == CandidateReady && answers == []))
              && GoodAnswers(s, answers, s.frontier)
            case Finalize(answers, _, _, _) => s.status == ConvergenceRequired && GoodAnswers(s, answers, s.pending)
  {
    hide AnswersApplied, GoodAnswers;
    match c {
      case First(_, _) =>
      case Round(answers, _, event, _, _) => AppliedIff(row.session, answers, row.session.frontier, event);
      case Finalize(answers, event, _, _) => AppliedIff(row.session, answers, row.session.pending, event);
    }
  }

  // ----- what a round costs ------------------------------------------------------------------------

  /** The answered rounds of a session are its `user_answers` events. */
  lemma {:induction false} RoundsAreCounted(events: seq<EventKind>)
    ensures RoundCount(events) == multiset(events)[UserAnswers]
    decreases |events|
  {
    if events != [] {
      RoundsAreCounted(events[..|events| - 1]);
      assert events == events[..|events| - 1] + [events[|events| - 1]];
    }
  }

  /** The round as it was read calls itself a candidate. */
  ghost predicate CallsItselfReady(cfg: Config, u: Session, mode: Mode, raw: Raw) {
    var p := Parsed(cfg.host, mode, raw, |u.specs|, Inherited(u.specs), KnownIds(u.decisions));
    p.Some? && p.value.ready
  }

  /**
   What an advancing round costs: it counts as the next answered round, a candidate that the
   audit refuses costs one rejection, and the interview must converge if that was the last
   rejection, or if there is no candidate and the rounds are spent.
   */
  lemma RoundCosts(cfg: Config, row: Row, c: Command)
    requires (c.First? || c.Round?) && Drafted(cfg, row, c).Success?
    ensures Planned(cfg, row, c).Success?
    ensures var s, next, u := row.session, Drafted(cfg, row, c).value, Planned(cfg, row, c).value.base;
            var rounds := if c.First? then 0 else multiset(row.events)[UserAnswers] + 1;
            var before := if c.First? then 0 else s.convergence.rejections;
            var claims := CallsItselfReady(cfg, u, Advance, c.raw);
            var refused := claims && c.audit.questions != [];
            var candidate := claims && !refused;
            && next.convergence.rounds == rounds && next.convergence.finalized == s.convergence.finalized
            && next.convergence.rejections == before + (if refused then 1 else 0)
            && next.convergence.reason == (if refused && before + 1 >= cfg.maxRejections then Some(MaxAuditRejections)
                                           else if !candidate && rounds >= cfg.maxRounds then Some(MaxFrontierRounds)
                                           else None)
            && next.status == (if next.convergence.reason.Some? then ConvergenceRequired
                               else if candidate then CandidateReady else Active)
  {
    hide RoundResult, AnswersApplied, Parsed, RoundCount;
    DraftShape(cfg, row, c);
    RoundsAreCounted(row.events);
  }

  /** A finalizing round costs nothing and is marked as the user's own end of the interview. */
  lemma FinalizeCosts(cfg: Config, row: Row, c: Command)
    requires c.Finalize? && Drafted(cfg, row, c).Success?
    ensures var s, next := row.session, Drafted(cfg, row, c).value;
            && next.status == CandidateReady
            && next.convergence == Convergence(s.convergence.rounds, s.convergence.rejections, s.convergence.reason, true)
  {
    hide RoundResult, AnswersApplied, Parsed, RoundCount;
    DraftShape(cfg, row, c);
  }

  // ----- how a round is read and audited --------------------------------------------------------------

  /** When a round is taken as read: always while advancing, and finalizing exactly if it is a candidate whose leftover questions can be settled. */
  lemma ReadIff(host: Host, mode: Mode, raw: Raw, specs: nat, inherited: seq<Default>, known: set<Id>)
    requires DistinctDefaults(inherited)
    ensures Parsed(host, mode, raw, specs, inherited, known).Some? <==>
            mode == Advance || (raw.ready && raw.ladder != [] && forall q :: q in Dedup(raw.questions) ==> host.settle(q).Some?)
    ensures Parsed(host, mode, raw, specs, inherited, known).Some? ==>
              var p := Parsed(host, mode, raw, specs, inherited, known).value;
              && (p.ready <==> raw.ready && p.questions == [] && raw.ladder != [])
              && p.spec.refs == raw.refs && p.spec.version == specs + 1 && |p.spec.ladder| == |raw.ladder|
              && p.spec.supersedes == (if specs == 0 then None else Some(specs))
              && p.thread == raw.thread && p.createdThread == raw.createdThread
              && (forall d :: d in inherited ==> HasDefault(p.spec.defaults, d.id))
              && (forall d :: d in raw.defaults && (mode == FinalizeMode || forall x :: x in raw.defaults && x.id == d.id ==> !x.problem) ==>
                    HasDefault(p.spec.defaults, d.id))
              && (forall q :: q in Dedup(raw.questions) && mode == Advance ==> q in p.questions)
  {
    hide Dedup, HasDefault, HandedBack, ParsedReopens, Merged, Defaulted;
    var declared := Merged([], raw.defaults);
    MergedMeans([], raw.defaults);
    SettledIff(host, declared, Dedup(raw.questions));
    if Parsed(host, mode, raw, specs, inherited, known).Some? {
      if mode == Advance {
        AdvanceKeeps(host, raw, inherited);
      } else {
        DefaultedMeans(host, declared, Dedup(raw.questions));
        var settled := Defaulted(host, declared, Dedup(raw.questions)).value;
        MergedMeans(inherited, settled);
        forall d | d in raw.defaults
          ensures HasDefault(settled, d.id)
        {
          MemberIsHad(raw.defaults, d);
          assert HasDefault(declared, d.id);
          PrefixHas(declared, settled, d.id);
        }
        forall d | d in inherited
          ensures HasDefault(inherited, d.id)
        {
          MemberIsHad(inherited, d);
        }
      }
    }
  }

  lemma MemberIsHad(defaults: seq<Default>, d: Default)
    requires d in defaults
    ensures HasDefault(defaults, d.id)
  {
    var i :| 0 <= i < |defaults| && defaults[i] == d;
  }

  lemma PrefixHas(a: seq<Default>, b: seq<Default>, id: Id)
    requires a <= b && HasDefault(a, id)
    ensures HasDefault(b, id)
  {
    var i :| 0 <= i < |a| && a[i].id == id;
    assert b[i] == a[i];
  }

  lemma {:induction false} SettledIff(host: Host, defaults: seq<Default>, questions: seq<Question>)
    ensures Defaulted(host, defaults, questions).Some? <==> forall q :: q in questions ==> host.settle(q).Some?
    decreases |questions|
  {
    if questions != [] {
      SettledIff(host, defaults, questions[..|questions| - 1]);
      assert questions == questions[..|questions| - 1] + [questions[|questions| - 1]];
    }
  }

  lemma AdvanceKeeps(host: Host, raw: Raw, inherited: seq<Default>)
    requires DistinctDefaults(inherited)
    ensures var kept := HandedBack(host, Merged([], raw.defaults), Dedup(raw.questions)).kept;
            && (forall d :: d in inherited ==> HasDefault(Merged(inherited, kept), d.id))
            && (forall d :: d in raw.defaults && (forall x :: x in raw.defaults && x.id == d.id ==> !x.problem) ==>
                  HasDefault(Merged(inherited, kept), d.id))
  {
    hide Dedup, HasDefault, HandedBack, Merged;
    var declared := Merged([], raw.defaults);
    MergedMeans([], raw.defaults);
    DedupIsDistinct(raw.questions);
    HandedBackMeans(host, declared, Dedup(raw.questions));
    var kept := HandedBack(host, declared, Dedup(raw.questions)).kept;
    MergedMeans(inherited, kept);
    forall d | d in inherited
      ensures HasDefault(inherited, d.id)
    {
      MemberIsHad(inherited, d);
    }
    forall d | d in raw.defaults && forall x :: x in raw.defaults && x.id == d.id ==> !x.problem
      ensures HasDefault(kept, d.id)
    {
      MemberIsHad(raw.defaults, d);
      var x := Having(declared, d.id);
      MergedFrom([], raw.defaults, x);
      MemberIsHad(kept, x);
    }
  }

  lemma Having(defaults: seq<Default>, id: Id) returns (d: Default)
    requires HasDefault(defaults, id)
    ensures d in defaults && d.id == id
  {
    var i :| 0 <= i < |defaults| && defaults[i].id == id;
    d := defaults[i];
  }

  /**
   What an audit makes of a candidate. Passed: only its declared defaults are added, in
   advance mode the agent's own. Refused: its questions come behind, the specification is a
   draft again, and a rejection is spent, the last one ending the interview.
   */
  lemma AuditMeans(cfg: Config, p: Proposal, mode: Mode, audit: Audit, rejections: nat)
    requires DistinctDefaults(p.spec.defaults)
    ensures ReadAudit(mode, audit).Some? <==> mode == FinalizeMode || (audit.passed <==> audit.questions == [])
    ensures ReadAudit(mode, audit).Some? ==>
              var o := AuditCandidate(cfg, p, ReadAudit(mode, audit).value, rejections);
              && (forall d :: d in p.spec.defaults ==> HasDefault(o.proposal.spec.defaults, d.id))
              && (forall d :: d in audit.defaults && (mode == FinalizeMode || forall x :: x in audit.defaults && x.id == d.id ==> !x.problem) ==>
                    HasDefault(o.proposal.spec.defaults, d.id))
              && (if mode == FinalizeMode || audit.questions == [] then
                    && o == Audited(p.(spec := p.spec.(defaults := o.proposal.spec.defaults)), rejections, None)
                  else
                    && o.proposal == p.(spec := p.spec.(defaults := o.proposal.spec.defaults, status := Draft),
                                        questions := p.questions + audit.questions, ready := false)
                    && o.rejections == rejections + 1
                    && o.reason == (if rejections + 1 >= cfg.maxRejections then Some(MaxAuditRejections) else None))
  {
    hide HasDefault, Merged;
    if ReadAudit(mode, audit).Some? {
      var declared := Merged([], audit.defaults);
      MergedMeans([], audit.defaults);
      var more := ReadAudit(mode, audit).value.defaults;
      MergedMeans(p.spec.defaults, more);
      forall d | d in p.spec.defaults
        ensures HasDefault(p.spec.defaults, d.id)
      {
        MemberIsHad(p.spec.defaults, d);
      }
      forall d | d in audit.defaults && (mode == FinalizeMode || forall x :: x in audit.defaults && x.id == d.id ==> !x.problem)
        ensures HasDefault(more, d.id)
      {
        MemberIsHad(audit.defaults, d);
        var x := Having(declared, d.id);
        MergedFrom([], audit.defaults, x);
        MemberIsHad(more, x);
      }
    }
  }

  // ----- what is written for a question ----------------------------------------------------------------

  /** What asking one question does to the log, in each of the four cases. */
  lemma AskedIs(log: seq<Entry>, q: Question, reopened: set<Id>, refs: set<Id>)
    ensures var r := AskOne(log, q, reopened, refs);
            if q.id in reopened then r == Success(log)
            else match Latest(log, q.id)
                 case None => r == Success(log + [Entry(q.id, q.key, Open, q, 1, None, None, None, refs)])
                 case Some(current) =>
                   if current.status == Open then
                     && r.Success? && |r.value| == |log| && Latest(r.value, q.id) == Some(current.(question := q))
                     && forall other :: other != q.id ==> Latest(r.value, other) == Latest(log, other)
                   else r == Failure(RepeatedWithoutReopen)
  {
    hide History;
    if q.id !in reopened && Latest(log, q.id).Some? && Latest(log, q.id).value.status == Open {
      var current := Latest(log, q.id).value;
      assert current.question == q ==> current.(question := q) == current;
      if current.question != q {
        forall other
          ensures other != q.id ==> Latest(AskOne(log, q, reopened, refs).value, other) == Latest(log, other)
          ensures Latest(AskOne(log, q, reopened, refs).value, q.id) == Some(current.(question := q))
        {
          HistoryReplaced(log, q.id, current.(question := q), other);
        }
      }
    }
  }

  /** What reopening one decision writes: the same decision, one revision higher, open under the new question and for the reason given. */
  lemma ReopenedIs(log: seq<Entry>, r: Reopen, questions: seq<Question>)
    requires r.id in IdsOf(questions)
    ensures ReopenOne(log, r, questions).Success? <==> IsResolved(log, r.id)
    ensures ReopenOne(log, r, questions).Success? ==>
              var before, after := Latest(log, r.id).value, Latest(ReopenOne(log, r, questions).value, r.id);
              && after.Some? && after.value.question in questions && after.value.question.id == r.id
              && after.value == Entry(r.id, before.key, Open, after.value.question, before.revision + 1, Some(before.revision), None,
                                      Some(r.reason), r.refs)
  {
    hide History, QuestionFor;
    if IsResolved(log, r.id) {
      var current := Latest(log, r.id).value;
      HistorySucceeded(log, r.id, Retired(current), Reopened(current, QuestionFor(questions, r.id), r), r.id);
    }
  }

  /** A ladder may cite the defaults of the latest specification: such a citation is kept in what is applied. */
  lemma EarlierDefaultsCanBeCited(cfg: Config, row: Row, c: Command, k: nat, d: Id)
    requires SessionOk(row.session) && row.session.specs != [] && Asks(c) && Planned(cfg, row, c).Success?
    requires k < |c.raw.ladder| && d in c.raw.ladder[k] && HasDefault(row.session.specs[|row.session.specs| - 1].defaults, d)
    ensures var ladder := Planned(cfg, row, c).value.proposal.spec.ladder;
            |ladder| == |c.raw.ladder| && d in ladder[k]
  {
    LastSpecIsDistinct(row.session);
    BasisKeepsSpecs(row, c);
    hide SessionOk, Merged, HandedBack, Defaulted, Dedup, HasDefault, ParsedReopens, RoundCount, Basis, KnownIds, AgentsOwn;
    var u := Basis(row, c).value;
    CitationsStay(cfg.host, ModeOf(c), c.raw, |u.specs|, Inherited(u.specs), KnownIds(u.decisions), k, d);
  }

  lemma BasisKeepsSpecs(row: Row, c: Command)
    requires Asks(c) && Basis(row, c).Success?
    ensures Basis(row, c).value.specs == row.session.specs
  {
    hide AnswerAll, Without, IdsOf, AnsweredIds, Latest;
  }

  lemma CitationsStay(host: Host, mode: Mode, raw: Raw, specs: nat, inherited: seq<Default>, known: set<Id>, k: nat, d: Id)
    requires DistinctDefaults(inherited) && Parsed(host, mode, raw, specs, inherited, known).Some?
    requires k < |raw.ladder| && d in raw.ladder[k] && HasDefault(inherited, d)
    ensures var ladder := Parsed(host, mode, raw, specs, inherited, known).value.spec.ladder;
            |ladder| == |raw.ladder| && d in ladder[k]
  {
    hide HandedBack, Defaulted, Dedup, HasDefault, ParsedReopens, Merged;
    var declared := Merged([], raw.defaults);
    MergedMeans(inherited, if mode == Advance then HandedBack(host, declared, Dedup(raw.questions)).kept
                           else Defaulted(host, declared, Dedup(raw.questions)).value);
  }

  /** Where a kept reopen comes from: a request for a decision that is not open, with its own references or the round's. */
  ghost predicate KeptFrom(log: seq<Entry>, request: Reopen, fallback: set<Id>, r: Reopen) {
    && !IsOpen(log, request.id) && r.id == request.id && r.reason == request.reason
    && r.refs == if request.refs == {} then fallback else request.refs
  }

  /** The repair keeps exactly the requests for decisions that are not open, and gives those without references the round's. */
  lemma {:induction false} KeptAre(log: seq<Entry>, reopens: seq<Reopen>, fallback: set<Id>, r: Reopen)
    ensures r in KeptReopens(log, reopens, fallback) <==> exists o :: o in reopens && KeptFrom(log, o, fallback, r)
    decreases |reopens|
  {
    hide Latest, IsOpen;
    if reopens == [] {
    } else {
      var front, last := reopens[..|reopens| - 1], reopens[|reopens| - 1];
      KeptAre(log, front, fallback, r);
      assert reopens == front + [last];
      var earlier := exists o :: o in front && KeptFrom(log, o, fallback, r);
      assert (exists o :: o in reopens && KeptFrom(log, o, fallback, r)) <==> earlier || KeptFrom(log, last, fallback, r) by {
        if KeptFrom(log, last, fallback, r) {
          assert last in reopens;
        }
      }
      assert WithProvenance(last, fallback) == Reopen(last.id, last.reason, if last.refs == {} then fallback else last.refs);
    }
  }

  // ----- declared defaults ------------------------------------------------------------------------------

  /**
   No round takes back a default the user has been shown: every default of the latest
   specification is declared, under its identifier, in the one a round puts in its place;
   the older ones stay as they were, superseded.
   */
  lemma DefaultsStay(cfg: Config, row: Row, c: Command)
    requires SessionOk(row.session) && Asks(c) && Computed(cfg, row, c).Success? && row.session.specs != []
    ensures var specs, specs' := row.session.specs, Computed(cfg, row, c).value.specs;
            var n := |specs| - 1;
            && |specs'| == |specs| + 1 && (forall k :: 0 <= k < n ==> specs'[k] == specs[k])
            && specs'[n] == specs[n].(status := SupersededSpec)
            && forall d :: d in specs[n].defaults ==> HasDefault(specs'[n + 1].defaults, d.id)
  {
    ComputedIsDrafted(cfg, row, c);
    DraftShape(cfg, row, c);
    LastSpecIsDistinct(row.session);
    hide Computed, Drafted, Planned, RoundResult, RepairedProposal, RoundLog, SessionOk, SpecsAfter, HasDefault;
    var plan, next := Planned(cfg, row, c).value, Computed(cfg, row, c).value;
    RoundsLand(plan.base, plan.proposal, plan.reason, plan.convergence, next);
    SpecsAfterMeans(row.session.specs, plan.proposal.spec);
  }

  lemma LastSpecIsDistinct(s: Session)
    requires SessionOk(s) && s.specs != []
    ensures DistinctDefaults(s.specs[|s.specs| - 1].defaults)
  {
    hide LogOk, QuestionsOk, ThreadsOk, StatusOk, SpecsOk;
  }

  lemma SpecsAfterMeans(specs: seq<Spec>, spec: Spec)
    requires specs != [] && DistinctDefaults(specs[|specs| - 1].defaults)
    ensures var n, specs' := |specs| - 1, SpecsAfter(specs, spec);
            && |specs'| == |specs| + 1 && (forall k :: 0 <= k < n ==> specs'[k] == specs[k])
            && specs'[n] == specs[n].(status := SupersededSpec) && specs'[n + 1].(defaults := spec.defaults) == spec
            && forall d :: d in specs[n].defaults ==> HasDefault(specs'[n + 1].defaults, d.id)
  {
    hide HasDefault, Merged;
    var n := |specs| - 1;
    MergedMeans(specs[n].defaults, spec.defaults);
    forall d | d in specs[n].defaults
      ensures HasDefault(specs[n].defaults, d.id)
    {
      MemberIsHad(specs[n].defaults, d);
    }
  }

  // ----- every row of every run ----------------------------------------------------------------------------

  /**
   In every run, an active session has answered fewer rounds than its budget, and until the
   user has finalized once a session that can still be advanced has rejections to spare.
   */
  lemma BudgetsHoldInRuns(cfg: Config, steps: seq<Step>, sid: Id, k: nat, row: Row)
    requires cfg.maxRounds > 0 && cfg.maxRejections > 0 && RowIn(cfg, steps, sid, k, row)
    ensures row.session.revision == k
    ensures row.session.status == Active ==> multiset(row.events)[UserAnswers] < cfg.maxRounds
    ensures !row.session.convergence.finalized && row.session.status in {Active, CandidateReady} ==>
              row.session.convergence.rejections < cfg.maxRejections
  {
    hide Sound, RowIn;
    RunsKeepSound(cfg, steps, sid, k, row);
    RoundsAreCounted(row.events);
  }

  /**
   In every run, the open decisions of a session are exactly the questions it shows; a
   candidate shows none; one that must converge shows what is pending; and specifications,
   threads and the revisions of a decision count up from one, all but the last superseded.
   */
  lemma RowsAreCoherent(cfg: Config, steps: seq<Step>, sid: Id, k: nat, row: Row, id: Id)
    requires cfg.maxRounds > 0 && cfg.maxRejections > 0 && RowIn(cfg, steps, sid, k, row)
    requires row.session.status != Confirmed && row.session.status != Cancelled
    ensures var s := row.session;
            && ((exists e :: Latest(s.decisions, id) == Some(e) && e.status == Open) <==>
                  exists q :: q in s.frontier + s.pending && q.id == id)
            && (s.status == CandidateReady ==> s.frontier == [] && s.pending == [])
            && (s.status == ConvergenceRequired ==> s.frontier == [])
            && (forall i :: 0 <= i < |s.specs| ==> s.specs[i].version == i + 1 && (i + 1 < |s.specs| ==> s.specs[i].status == SupersededSpec))
            && (forall i :: 0 <= i < |s.threads| ==> s.threads[i].generation == i + 1 && (i + 1 < |s.threads| ==> s.threads[i].status == SupersededThread))
            && (forall i :: 0 <= i < |History(s.decisions, id)| ==>
                  && History(s.decisions, id)[i].revision == i + 1
                  && (i + 1 < |History(s.decisions, id)| ==> History(s.decisions, id)[i].status == Superseded))
  {
    hide RowIn, History;
    RunsKeepSound(cfg, steps, sid, k, row);
    var s := row.session;
    assert HistoryOk(History(s.decisions, id));
    assert (exists q :: q in s.frontier + s.pending && q.id == id) <==> id in IdsOf(s.frontier) + IdsOf(s.pending);
  }

  /**
   In every run, every revision of every decision: it is filed under its own question, which
   keeps its key; it supersedes the one before it; it has an answer if it is resolved and
   none if it is open, with offered options only, one of them at most on a single choice
   unless both routes are taken; and it was reopened, if at all, for a reason that says
   something.
   */
  lemma RevisionsAreSound(cfg: Config, steps: seq<Step>, sid: Id, k: nat, row: Row, e: Entry)
    requires cfg.maxRounds > 0 && cfg.maxRejections > 0 && RowIn(cfg, steps, sid, k, row) && e in row.session.decisions
    ensures e.question.id == e.id && e.question.key == e.key && e.revision >= 1
    ensures e.supersedes == if e.revision == 1 then None else Some(e.revision - 1)
    ensures (e.status == Resolved ==> e.answer.Some?) && (e.status == Open ==> e.answer.None?)
    ensures e.answer.Some? ==>
              var x := e.answer.value.options;
              && (forall i :: 0 <= i < |x| ==> x[i] in e.question.options) && (e.question.mode == TextOnly ==> x == [])
              && (e.question.mode in {SingleChoice, ChoiceWithText} && e.answer.value.strategy != Some(BothRoutes) ==> |x| <= 1)
    ensures e.status == Open && e.revision > 1 ==> e.reopenReason.Some?
    ensures e.reopenReason.Some? ==> exists i :: 0 <= i < |e.reopenReason.value| && !IsSpace(e.reopenReason.value[i])
  {
    hide RowIn;
    RunsKeepSound(cfg, steps, sid, k, row);
    EntryIsSound(row.session, e);
  }

  lemma EntryIsSound(s: Session, e: Entry)
    requires Sound(s) && e in s.decisions
    ensures EntryOk(e)
  {
    hide EntryOk, HistoryOk, KeysDistinct, QuestionsOk, ThreadsOk, StatusOk, SpecsOk, SpecOk, Coherent, ThreadsLive;
    var i :| 0 <= i < |s.decisions| && s.decisions[i] == e;
  }

  // ----- submissions ------------------------------------------------------------------------------------

  /**
   While a command is under way its submission is kept under its own key and the revision it
   was typed at; a failure only notes the reason on it, and a commit past that revision or
   its own release drops it.
   */
  lemma SubmissionsAre(cfg: Config, w: World, f: Id, submission: nat, reason: string)
    requires f in w.flights && w.flights[f].sid in w.tables.rows
    ensures var x := w.flights[f];
            var kept := After(cfg, w, Hold(f, submission));
            && kept.tables == w.tables.(held := kept.tables.held) && kept.flights == w.flights && kept.history == w.history
            && (forall other :: other != x.sid ==> (other in kept.tables.held <==> other in w.tables.held))
            && (forall other :: other != x.sid && other in w.tables.held ==> kept.tables.held[other] == w.tables.held[other])
            && x.sid in kept.tables.held && kept.tables.held[x.sid] == Held(x.snapshot.revision, x.key, submission, None)
            && After(cfg, kept, Fail(f, reason)).tables.held ==
               kept.tables.held[x.sid := Held(x.snapshot.revision, x.key, submission, Some(reason))]
            && After(cfg, kept, Release(f)).tables.held == w.tables.held - {x.sid}
  {
    var x := w.flights[f];
    assert w.tables.held[x.sid := Held(x.snapshot.revision, x.key, submission, None)] - {x.sid} == w.tables.held - {x.sid};
  }
}
