/**
 Answers, repair and application together: a sensible round always lands, keeps the
 session's invariants, and never answers for the user.
 */
module IntakeTheorems {
  import opened Wrappers
  import opened IntakeModel
  import opened IntakeLog
  import opened IntakeRounds
  import opened IntakeApply

  /** Nothing latest is superseded: every decision is open or resolved. */
  ghost predicate Settled(log: seq<Entry>) {
    forall id :: Latest(log, id).Some? ==> IsOpen(log, id) || IsResolved(log, id)
  }

  // ----- what a round must bring ------------------------------------------------------------

  /** Reopens are of known decisions, once each, for a reason, with a replacement question. */
  ghost predicate SensibleReopens(log: seq<Entry>, p: Proposal) {
    && DistinctReopens(p.reopens)
    && forall r :: r in p.reopens ==> Latest(log, r.id).Some? && !Blank(r.reason) && r.id in IdsOf(Dedup(p.questions))
  }

  /** A decision nobody has seen comes under a key no decision uses. */
  ghost predicate SensibleKeys(log: seq<Entry>, p: Proposal) {
    forall q, x :: q in Dedup(p.questions) && Latest(log, q.id).None? && Latest(log, x).Some? ==> Latest(log, x).value.key != q.key
  }

  predicate SensibleSpec(specs: seq<Spec>, p: Proposal) {
    && SpecOk(p.spec) && p.spec.version == |specs| + 1
    && p.spec.status == (if p.ready then CandidateSpec else Draft)
  }

  /** A new thread only where there is none; otherwise the round runs on the active one. */
  predicate SensibleThread(threads: seq<Thread>, p: Proposal) {
    if p.createdThread then LastActive(threads).None? else LastActive(threads).Some? && LastActive(threads).value.id == p.thread
  }

  /** No thread is closed yet: every thread but an active last one is superseded. */
  predicate ThreadsLive(threads: seq<Thread>) {
    threads != [] ==> threads[|threads| - 1].status.ActiveThread?
  }

  ghost predicate NothingOpen(log: seq<Entry>) {
    forall id :: !IsOpen(log, id)
  }

  // ----- the log after a round ------------------------------------------------------------------

  /** The repaired round meets every condition the two loops of the application have. */
  lemma RepairMakesReady(log: seq<Entry>, p: Proposal)
    requires LogOk(log) && Settled(log) && SensibleReopens(log, p) && SensibleKeys(log, p)
    ensures var r := RepairedProposal(log, p);
            && DistinctReopens(r.reopens) && DistinctIds(r.questions) && ReopenIds(r.reopens) <= IdsOf(r.questions)
            && (forall x :: x in r.reopens ==> IsResolved(log, x.id) && !Blank(x.reason))
            && (forall q :: q in r.questions ==>
                  && (Latest(log, q.id).Some? ==> q.key == Latest(log, q.id).value.key)
                  && (IsResolved(log, q.id) ==> q.id in ReopenIds(r.reopens))
                  && (Latest(log, q.id).None? ==> q in Dedup(p.questions)))
            && (forall id :: id in IdsOf(Dedup(p.questions)) && !IsResolved(log, id) ==> id in IdsOf(r.questions))
            && (forall id :: id in IdsOf(r.questions) ==> id in IdsOf(Dedup(p.questions)))
  {
    hide LogOk, History, Dedup, KeptReopens, RepairAll, IsOpen, IsResolved, Latest, Blank;
    var incoming := Dedup(p.questions);
    DedupIsDistinct(p.questions);
    KeptReopensOk(log, p.reopens, p.spec.refs);
    var kept := KeptReopens(log, p.reopens, p.spec.refs);
    RepairAllOk(log, kept, incoming, p.spec.refs);
    var r := RepairAll(log, kept, incoming, p.spec.refs);
    AskedAgainIsAReason();
    forall x | x in r.reopens
      ensures IsResolved(log, x.id) && !Blank(x.reason)
    {
      assert x.id in ReopenIds(r.reopens);
      if x in kept {
        var o :| o in p.reopens && o.id == x.id && o.reason == x.reason;
        assert x.id in ReopenIds(kept);
      }
    }
    forall id | id in ReopenIds(kept)
      ensures id in IdsOf(r.questions)
    {
      var o :| o in p.reopens && o.id == id;
    }
    forall q | q in r.questions
      ensures q.id in IdsOf(incoming)
      ensures Latest(log, q.id).Some? ==> q.key == Latest(log, q.id).value.key
      ensures Latest(log, q.id).None? ==> q in incoming
    {
      var o :| o in incoming && q == Keyed(log, o);
      assert q.id == o.id;
    }
  }

  lemma AskedAgainIsAReason()
    ensures !Blank(ASKED_AGAIN)
  {
    assert ASKED_AGAIN[0] == 'a';
  }

  /**
   How the log reads after a round, decision by decision: what was asked stands open, put
   back one revision higher if it was resolved, and nothing else is touched.
   */
  ghost predicate RoundLog(before: seq<Entry>, after: seq<Entry>, questions: seq<Question>) {
    && (forall id :: id !in IdsOf(questions) ==> History(after, id) == History(before, id))
    && (forall q :: q in questions ==>
          && IsOpen(after, q.id) && Latest(after, q.id).value.question == q
          && (if IsResolved(before, q.id) then PutBack(History(before, q.id), History(after, q.id), q)
              else Standing(History(before, q.id), History(after, q.id), q, false)))
  }

  /** The two loops of the application, one after the other. */
  function RoundApplied(log: seq<Entry>, r: Proposal): Result<seq<Entry>, Refusal> {
    if !(ReopenIds(r.reopens) <= IdsOf(r.questions)) then Failure(ReopenWithoutQuestion)
    else
      match ReopenAll(log, r.reopens, r.questions)
      case Failure(e) => Failure(e)
      case Success(mid) => AskAll(mid, r.questions, ReopenIds(r.reopens), r.spec.refs)
  }

  /** Whatever the model proposed, the repaired round asks no decision twice. */
  lemma RepairedIsDistinct(log: seq<Entry>, p: Proposal)
    ensures DistinctIds(RepairedProposal(log, p).questions)
  {
    hide Dedup, KeptReopens;
    DedupIsDistinct(p.questions);
    AlwaysRepaired(log, KeptReopens(log, p.reopens, p.spec.refs), Dedup(p.questions), p.spec.refs);
  }

  lemma {:induction false} AlwaysRepaired(log: seq<Entry>, reopens: seq<Reopen>, incoming: seq<Question>, fallback: set<Id>)
    requires DistinctIds(incoming)
    ensures QuestionsRepaired(log, incoming, RepairAll(log, reopens, incoming, fallback).questions)
    decreases |incoming|
  {
    hide QuestionsRepaired, Latest, IsResolved;
    if incoming == [] {
      assert QuestionsRepaired(log, [], []) by {
        NothingRepaired(log);
      }
    } else {
      var front := incoming[..|incoming| - 1];
      var q := incoming[|incoming| - 1];
      AlwaysRepaired(log, reopens, front, fallback);
      assert incoming == front + [q];
      assert q.id !in IdsOf(front);
      QuestionKept(log, front, RepairAll(log, reopens, front, fallback).questions, q);
    }
  }

  lemma NothingRepaired(log: seq<Entry>)
    ensures QuestionsRepaired(log, [], [])
  {
  }

  /** What any round that goes through does to the log. */
  lemma RoundLogMeans(log: seq<Entry>, r: Proposal)
    requires DistinctIds(r.questions) && RoundApplied(log, r).Success?
    ensures RoundLog(log, RoundApplied(log, r).value, r.questions)
    ensures forall x :: x in r.reopens ==>
              var e := Latest(RoundApplied(log, r).value, x.id);
              IsResolved(log, x.id) && e.Some? && e.value.reopenReason == Some(x.reason)
  {
    hide History, PutBack, Standing, IsResolved, ReopenAll, AskAll, QuestionFor;
    var mid := ReopenAll(log, r.reopens, r.questions).value;
    var after := RoundApplied(log, r).value;
    ReopenAllMeans(log, r.reopens, r.questions);
    AskAllMeans(mid, r.questions, ReopenIds(r.reopens), r.spec.refs);
    forall id | id !in IdsOf(r.questions)
      ensures History(after, id) == History(log, id)
    {
      assert id !in ReopenIds(r.reopens);
    }
    forall q | q in r.questions
      ensures IsOpen(after, q.id) && Latest(after, q.id).value.question == q
      ensures if IsResolved(log, q.id) then PutBack(History(log, q.id), History(after, q.id), q)
              else Standing(History(log, q.id), History(after, q.id), q, false)
    {
      QuestionLands(log, mid, after, r, q);
    }
    forall x | x in r.reopens
      ensures Latest(after, x.id) == Latest(mid, x.id)
    {
      assert x.id in ReopenIds(r.reopens);
      var q :| q in r.questions && q.id == x.id;
      ReopenedStands(History(mid, q.id), History(after, q.id), q);
    }
  }

  lemma QuestionLands(log: seq<Entry>, mid: seq<Entry>, after: seq<Entry>, r: Proposal, q: Question)
    requires DistinctIds(r.questions) && q in r.questions && ReopenIds(r.reopens) <= IdsOf(r.questions)
    requires forall x :: x in ReopenIds(r.reopens) ==> PutBack(History(log, x), History(mid, x), QuestionFor(r.questions, x))
    requires forall x :: x !in ReopenIds(r.reopens) ==> History(mid, x) == History(log, x)
    requires forall x :: x in r.reopens ==> IsResolved(log, x.id)
    requires Standing(History(mid, q.id), History(after, q.id), q, q.id in ReopenIds(r.reopens))
    requires q.id in ReopenIds(r.reopens) || !IsResolved(mid, q.id)
    ensures IsOpen(after, q.id) && Latest(after, q.id).value.question == q
    ensures if IsResolved(log, q.id) then PutBack(History(log, q.id), History(after, q.id), q)
            else Standing(History(log, q.id), History(after, q.id), q, false)
  {
    hide History, PutBack, Standing, QuestionFor, IsResolved;
    if q.id in ReopenIds(r.reopens) {
      ReopenedStands(History(mid, q.id), History(after, q.id), q);
      assert QuestionFor(r.questions, q.id) == q;
      PutBackIsOpen(History(log, q.id), History(after, q.id), q);
    } else {
      SameIsResolved(log, mid, q.id);
      StandingIsOpen(History(mid, q.id), History(after, q.id), q);
    }
  }

  lemma SameIsResolved(log: seq<Entry>, mid: seq<Entry>, id: Id)
    requires History(mid, id) == History(log, id)
    ensures IsResolved(mid, id) == IsResolved(log, id)
  {
  }

  // ----- when a round goes through --------------------------------------------------------------

  lemma ReopenedMid(log: seq<Entry>, r: Proposal)
    requires LogOk(log) && DistinctReopens(r.reopens) && DistinctIds(r.questions) && ReopenIds(r.reopens) <= IdsOf(r.questions)
    requires forall x :: x in r.reopens ==> IsResolved(log, x.id) && !Blank(x.reason)
    requires forall q :: q in r.questions && Latest(log, q.id).Some? ==> q.key == Latest(log, q.id).value.key
    ensures ReopenAll(log, r.reopens, r.questions).Success?
    ensures var mid := ReopenAll(log, r.reopens, r.questions).value;
            && LogOk(mid)
            && (forall id :: id in ReopenIds(r.reopens) ==> PutBack(History(log, id), History(mid, id), QuestionFor(r.questions, id)))
            && (forall id :: id !in ReopenIds(r.reopens) ==> History(mid, id) == History(log, id))
  {
    hide LogOk, History, Latest, IsResolved, Blank, PutBack, QuestionFor;
    forall x | x in r.reopens
      ensures Latest(log, x.id).Some? && QuestionFor(r.questions, x.id).key == Latest(log, x.id).value.key
    {
      assert x.id in ReopenIds(r.reopens);
      ResolvedIsKnown(log, x.id);
      assert QuestionFor(r.questions, x.id) in r.questions;
    }
    ReopenAllOk(log, r.reopens, r.questions);
    ReopenAllMeans(log, r.reopens, r.questions);
  }

  lemma ResolvedIsKnown(log: seq<Entry>, id: Id)
    requires IsResolved(log, id) || IsOpen(log, id)
    ensures Latest(log, id).Some?
  {
  }

  /** After the reopens, every remaining question is fit to be asked. */
  lemma MidIsAskable(log: seq<Entry>, mid: seq<Entry>, p: Proposal, r: Proposal, q: Question)
    requires Settled(log) && SensibleKeys(log, p) && q in r.questions
    requires ReopenIds(r.reopens) <= IdsOf(r.questions)
    requires forall id :: id in ReopenIds(r.reopens) ==> PutBack(History(log, id), History(mid, id), QuestionFor(r.questions, id))
    requires forall id :: id !in ReopenIds(r.reopens) ==> History(mid, id) == History(log, id)
    requires Latest(log, q.id).Some? ==> q.key == Latest(log, q.id).value.key
    requires IsResolved(log, q.id) ==> q.id in ReopenIds(r.reopens)
    requires Latest(log, q.id).None? ==> q in Dedup(p.questions)
    ensures Askable(mid, q, ReopenIds(r.reopens))
  {
    hide History, PutBack, QuestionFor, Dedup;
    if q.id !in ReopenIds(r.reopens) && Latest(log, q.id).None? {
      forall x | Latest(mid, x).Some?
        ensures Latest(mid, x).value.key != q.key
      {
        if x in ReopenIds(r.reopens) {
          PutBackIsOpen(History(log, x), History(mid, x), QuestionFor(r.questions, x));
          assert Latest(log, x).Some? && Latest(mid, x).value.key == Latest(log, x).value.key;
        } else {
          assert Latest(mid, x) == Latest(log, x);
        }
      }
    }
  }

  lemma NewKeysDiffer(log: seq<Entry>, p: Proposal, r: Proposal, a: Question, b: Question)
    requires SensibleKeys(log, p) && a in r.questions && b in r.questions && Latest(log, a.id).None? && a.key == b.key
    requires forall q :: q in r.questions ==>
               && (Latest(log, q.id).Some? ==> q.key == Latest(log, q.id).value.key)
               && (Latest(log, q.id).None? ==> q in Dedup(p.questions))
    ensures a == b
  {
    hide Latest, Dedup;
    DedupIsDistinct(p.questions);
    assert a in Dedup(p.questions);
  }

  /** A repaired sensible round always applies to the log, and leaves it whole. */
  lemma SensibleLogHolds(log: seq<Entry>, p: Proposal)
    requires LogOk(log) && Settled(log) && SensibleReopens(log, p) && SensibleKeys(log, p)
    ensures RoundApplied(log, RepairedProposal(log, p)).Success? && LogOk(RoundApplied(log, RepairedProposal(log, p)).value)
  {
    hide LogOk, History, PutBack, Standing, Askable, RepairedProposal, SensibleKeys, SensibleReopens, Dedup, IsResolved, Blank, Latest,
         ReopenAll, AskAll, QuestionFor;
    var r := RepairedProposal(log, p);
    RepairMakesReady(log, p);
    ReopenedMid(log, r);
    var mid := ReopenAll(log, r.reopens, r.questions).value;
    forall q | q in r.questions
      ensures Askable(mid, q, ReopenIds(r.reopens))
    {
      MidIsAskable(log, mid, p, r, q);
    }
    forall a, b | a in r.questions && b in r.questions && Latest(mid, a.id).None? && a.key == b.key
      ensures a == b
    {
      SameOrPutBack(log, mid, r, a.id);
      NewKeysDiffer(log, p, r, a, b);
    }
    AskAllOk(mid, r.questions, ReopenIds(r.reopens), r.spec.refs);
  }

  lemma SameOrPutBack(log: seq<Entry>, mid: seq<Entry>, r: Proposal, id: Id)
    requires ReopenIds(r.reopens) <= IdsOf(r.questions)
    requires forall x :: x in ReopenIds(r.reopens) ==> PutBack(History(log, x), History(mid, x), QuestionFor(r.questions, x))
    requires forall x :: x !in ReopenIds(r.reopens) ==> History(mid, x) == History(log, x)
    ensures Latest(mid, id).None? ==> Latest(log, id).None?
  {
    hide History, QuestionFor;
  }

  /** No decision loses or changes its key in a round. */
  lemma KeysStay(before: seq<Entry>, after: seq<Entry>, questions: seq<Question>, id: Id)
    requires RoundLog(before, after, questions)
    ensures Latest(before, id).Some? ==> Latest(after, id).Some? && Latest(after, id).value.key == Latest(before, id).value.key
    ensures Latest(before, id).None? ==> forall q :: q in questions && q.id == id ==> Latest(after, id).Some? && Latest(after, id).value.key == q.key
  {
    hide History, PutBack, Standing;
    if id in IdsOf(questions) {
      forall q | q in questions && q.id == id
        ensures Latest(after, id).Some?
        ensures Latest(before, id).Some? ==> Latest(after, id).value.key == Latest(before, id).value.key
        ensures Latest(before, id).None? ==> Latest(after, id).value.key == q.key
      {
        if IsResolved(before, id) {
          PutBackIsOpen(History(before, id), History(after, id), q);
        } else {
          StandingIsOpen(History(before, id), History(after, id), q);
        }
      }
    }
  }

  /** A new decision that is asked keeps its place and its words through repair. */
  lemma NewIsKept(log: seq<Entry>, p: Proposal, q: Question)
    requires q in Dedup(p.questions) && Latest(log, q.id).None?
    ensures q in RepairedProposal(log, p).questions
  {
    hide Dedup, KeptReopens, Latest, IsResolved;
    NewIsNotResolved(log, q.id);
    NewStays(log, KeptReopens(log, p.reopens, p.spec.refs), Dedup(p.questions), p.spec.refs, q);
  }

  lemma NewIsNotResolved(log: seq<Entry>, id: Id)
    requires Latest(log, id).None?
    ensures !IsResolved(log, id)
  {
  }

  lemma {:induction false} NewStays(log: seq<Entry>, reopens: seq<Reopen>, incoming: seq<Question>, fallback: set<Id>, q: Question)
    requires q in incoming && Latest(log, q.id).None? && !IsResolved(log, q.id)
    ensures q in RepairAll(log, reopens, incoming, fallback).questions
    decreases |incoming|
  {
    hide Latest, IsResolved;
    var front := incoming[..|incoming| - 1];
    assert incoming == front + [incoming[|incoming| - 1]];
    if q in front {
      NewStays(log, reopens, front, fallback, q);
    }
  }

  /** If the log a round leaves is whole, every new decision came under an unused key. */
  lemma KeysWereUnused(log: seq<Entry>, p: Proposal, after: seq<Entry>)
    requires RoundLog(log, after, RepairedProposal(log, p).questions) && KeysDistinct(after)
    ensures SensibleKeys(log, p)
  {
    hide RoundLog, RepairedProposal, Dedup, Latest;
    forall q, x | q in Dedup(p.questions) && Latest(log, q.id).None? && Latest(log, x).Some?
      ensures Latest(log, x).value.key != q.key
    {
      NewIsKept(log, p, q);
      KeysStay(log, after, RepairedProposal(log, p).questions, q.id);
      KeysStay(log, after, RepairedProposal(log, p).questions, x);
    }
  }

  /** A reopen of a decision that is not already open goes through repair with its reason. */
  lemma {:induction false} ReopenIsKept(log: seq<Entry>, reopens: seq<Reopen>, fallback: set<Id>, r: Reopen)
    requires r in reopens && !IsOpen(log, r.id)
    ensures WithProvenance(r, fallback) in KeptReopens(log, reopens, fallback)
    decreases |reopens|
  {
    hide IsOpen;
    var front := reopens[..|reopens| - 1];
    assert reopens == front + [reopens[|reopens| - 1]];
    if r in front {
      ReopenIsKept(log, front, fallback, r);
    }
  }

  lemma {:induction false} KeptStays(log: seq<Entry>, reopens: seq<Reopen>, incoming: seq<Question>, fallback: set<Id>, x: Reopen)
    requires x in reopens
    ensures x in RepairAll(log, reopens, incoming, fallback).reopens
    decreases |incoming|
  {
    hide IsResolved, Latest;
    if incoming != [] {
      KeptStays(log, reopens, incoming[..|incoming| - 1], fallback, x);
    }
  }

  /** If the log a round leaves is whole, every reopen of a decision that was not open had a reason. */
  lemma ReasonsWereGiven(log: seq<Entry>, p: Proposal, x: Reopen)
    requires RoundApplied(log, RepairedProposal(log, p)).Success? && LogOk(RoundApplied(log, RepairedProposal(log, p)).value)
    requires x in p.reopens && !IsOpen(log, x.id)
    ensures !Blank(x.reason)
  {
    hide RoundApplied, RepairAll, Dedup, KeptReopens, History, IsOpen, IsResolved, KeysDistinct, HistoryOk, RoundLog;
    var r := RepairedProposal(log, p);
    var after := RoundApplied(log, r).value;
    ReopenIsKept(log, p.reopens, p.spec.refs, x);
    KeptStays(log, KeptReopens(log, p.reopens, p.spec.refs), Dedup(p.questions), p.spec.refs, WithProvenance(x, p.spec.refs));
    RepairedIsDistinct(log, p);
    RoundLogMeans(log, r);
    assert WithProvenance(x, p.spec.refs) in r.reopens;
    LatestOk(after, x.id);
  }

  // ----- the session after a round ------------------------------------------------------------------

  /** `_apply_round`: where the questions go, and what the session becomes. */
  function StatusAfter(p: Proposal, reason: Option<Reason>): Status {
    if reason.Some? then ConvergenceRequired else if p.ready then CandidateReady else Active
  }

  function PendingAfter(p: Proposal, reason: Option<Reason>): seq<Question> {
    if reason.Some? then p.questions else []
  }

  /** Frontier questions may only depend on decisions that are resolved and not asked again. */
  ghost predicate DependenciesHold(log: seq<Entry>, questions: seq<Question>) {
    forall q, d :: q in questions && d in q.dependsOn ==> IsResolved(log, d) && d !in IdsOf(questions)
  }

  lemma SpecsStayOk(specs: seq<Spec>, p: Proposal)
    requires SpecsOk(specs) && (forall k :: 0 <= k < |specs| ==> SpecOk(specs[k])) && SensibleSpec(specs, p)
    ensures var specs' := SpecsAfter(specs, p.spec);
            && SpecsOk(specs') && (forall k :: 0 <= k < |specs'| ==> SpecOk(specs'[k]))
            && specs' != [] && specs'[|specs'| - 1].status == if p.ready then CandidateSpec else Draft
  {
    hide Merged, SpecOk;
    SpecParts(p.spec);
    if specs != [] {
      var n := |specs| - 1;
      SpecParts(specs[n]);
      MergedSpecOk(specs[n].defaults, p.spec);
    }
  }

  lemma SpecParts(s: Spec)
    requires SpecOk(s)
    ensures DistinctDefaults(s.defaults) && SpecOk(s.(status := SupersededSpec))
  {
  }

  lemma MergedSpecOk(existing: seq<Default>, spec: Spec)
    requires SpecOk(spec) && DistinctDefaults(existing)
    ensures SpecOk(spec.(defaults := Merged(existing, spec.defaults)))
  {
    hide Merged;
    MergedMeans(existing, spec.defaults);
    var m := Merged(existing, spec.defaults);
    forall k, d | 0 <= k < |spec.ladder| && d in spec.ladder[k]
      ensures exists i :: 0 <= i < |m| && m[i].id == d
    {
      assert HasDefault(spec.defaults, d);
      assert HasDefault(m, d);
    }
  }

  lemma ThreadsStayOk(threads: seq<Thread>, p: Proposal)
    requires ThreadsOk(threads) && ThreadsLive(threads)
    ensures ThreadsAfter(threads, p).Success? <==> SensibleThread(threads, p)
    ensures ThreadsAfter(threads, p).Success? ==> ThreadsOk(ThreadsAfter(threads, p).value) && ThreadsLive(ThreadsAfter(threads, p).value)
  {
  }

  /** Decision statuses after a round: asked means open, everything else is as it was. */
  lemma StatusesAfter(before: seq<Entry>, after: seq<Entry>, questions: seq<Question>, id: Id)
    requires RoundLog(before, after, questions)
    ensures IsOpen(after, id) <==> id in IdsOf(questions) || IsOpen(before, id)
    ensures IsResolved(after, id) <==> id !in IdsOf(questions) && IsResolved(before, id)
    ensures Settled(before) && Latest(after, id).Some? ==> IsOpen(after, id) || IsResolved(after, id)
  {
    hide History, PutBack, Standing;
    if id in IdsOf(questions) {
      var q :| q in questions && q.id == id;
    } else {
      assert Latest(after, id) == Latest(before, id);
    }
  }

  /** Whether the questions fit the log they were written into is a matter of their dependencies only. */
  lemma FrontierOkIff(before: seq<Entry>, after: seq<Entry>, questions: seq<Question>)
    requires RoundLog(before, after, questions) && DistinctIds(questions)
    ensures QuestionsOk(after, [], questions)
    ensures QuestionsOk(after, questions, []) <==> DependenciesHold(before, questions)
  {
    hide History, PutBack, Standing, IsOpen, IsResolved;
    forall id
      ensures IsResolved(after, id) <==> id !in IdsOf(questions) && IsResolved(before, id)
      ensures id in IdsOf(questions) ==> IsOpen(after, id)
    {
      StatusesAfter(before, after, questions, id);
    }
    if QuestionsOk(after, questions, []) {
      forall q, d | q in questions && d in q.dependsOn
        ensures IsResolved(before, d) && d !in IdsOf(questions)
      {
        var k :| 0 <= k < |questions| && questions[k] == q;
      }
    }
  }

  lemma WithoutNone(questions: seq<Question>)
    ensures Without(questions, {}) == questions
  {
  }

  lemma {:induction false} WithoutAll(questions: seq<Question>, ids: set<Id>)
    requires forall q :: q in questions ==> q.id in ids
    ensures Without(questions, ids) == []
  {
    if questions != [] {
      WithoutAll(questions[1..], ids);
    }
  }

  /** The session that the application builds from a round. */
  ghost predicate Landed(s: Session, p: Proposal, reason: Option<Reason>, c: Convergence, next: Session) {
    var questions := RepairedProposal(s.decisions, p).questions;
    && next.revision == s.revision + 1 && next.status == StatusAfter(p, reason) && next.convergence == c
    && RoundLog(s.decisions, next.decisions, questions)
    && next.specs == SpecsAfter(s.specs, p.spec)
    && next.frontier == (if reason.Some? then [] else questions)
    && next.pending == (if reason.Some? then questions else [])
    && ThreadsAfter(s.threads, p) == Success(next.threads)
  }

  /** The application of a round that was repaired against the same log. */
  function RoundResult(s: Session, p: Proposal, reason: Option<Reason>, c: Convergence): Result<Session, Refusal> {
    var r := RepairedProposal(s.decisions, p);
    Applied(s, r, StatusAfter(p, reason), PendingAfter(r, reason), c)
  }

  lemma RepairKeepsRest(log: seq<Entry>, p: Proposal)
    ensures RepairedProposal(log, p) == p.(questions := RepairedProposal(log, p).questions, reopens := RepairedProposal(log, p).reopens)
  {
  }

  /** A round goes through exactly when its decisions and its thread do. */
  lemma ResultParts(s: Session, p: Proposal, reason: Option<Reason>, c: Convergence)
    ensures RoundResult(s, p, reason, c).Success? <==>
              RoundApplied(s.decisions, RepairedProposal(s.decisions, p)).Success? && ThreadsAfter(s.threads, p).Success?
    ensures RoundResult(s, p, reason, c).Success? ==>
              RoundResult(s, p, reason, c).value.decisions == RoundApplied(s.decisions, RepairedProposal(s.decisions, p)).value
  {
    hide RepairedProposal, ReopenAll, AskAll, LastActive, SpecsAfter, Without;
    RepairKeepsRest(s.decisions, p);
  }

  /** What every round that goes through makes of the session, whatever the model wrote. */
  lemma RoundsLand(s: Session, p: Proposal, reason: Option<Reason>, c: Convergence, next: Session)
    requires RoundResult(s, p, reason, c) == Success(next)
    ensures Landed(s, p, reason, c, next)
    ensures DistinctIds(RepairedProposal(s.decisions, p).questions)
  {
    hide RepairedProposal, RoundLog, SpecsAfter, RoundApplied, ReopenAll, AskAll;
    var r := RepairedProposal(s.decisions, p);
    ResultParts(s, p, reason, c);
    RepairedIsDistinct(s.decisions, p);
    RoundLogMeans(s.decisions, r);
    RepairKeepsRest(s.decisions, p);
    WithoutNone(r.questions);
    WithoutAll(r.questions, IdsOf(r.questions));
    assert IdsOf([]) == {};
  }

  /** Whatever the model wrote, when nothing was open the open decisions are again exactly what the user sees. */
  lemma RoundsAreCoherent(s: Session, p: Proposal, reason: Option<Reason>, c: Convergence, next: Session)
    requires RoundResult(s, p, reason, c) == Success(next) && Settled(s.decisions) && NothingOpen(s.decisions)
    ensures Coherent(next)
  {
    hide RepairedProposal, RoundLog, IsOpen, IsResolved, Latest, RoundResult;
    RoundsLand(s, p, reason, c, next);
    var questions := RepairedProposal(s.decisions, p).questions;
    forall id
      ensures IsOpen(next.decisions, id) <==> id in IdsOf(questions)
      ensures Latest(next.decisions, id).Some? ==> IsOpen(next.decisions, id) || IsResolved(next.decisions, id)
    {
      StatusesAfter(s.decisions, next.decisions, questions, id);
    }
    assert IdsOf([]) == {};
  }

  // ----- which rounds are accepted ---------------------------------------------------------------

  /** What the host has already seen to when a round reaches the log: parsing, the audit, and the user's answers. */
  ghost predicate Prepared(s: Session, p: Proposal, reason: Option<Reason>, c: Convergence) {
    && SessionOk(s) && Settled(s.decisions) && NothingOpen(s.decisions) && ThreadsLive(s.threads)
    && DistinctReopens(p.reopens)
    && (forall r :: r in p.reopens ==> Latest(s.decisions, r.id).Some? && r.id in IdsOf(Dedup(p.questions)))
    && SensibleSpec(s.specs, p) && (p.ready ==> p.questions == [])
    && (reason.Some? ==> c.reason.Some? && !p.ready)
  }

  /** What only the model can get wrong. */
  ghost predicate WellMeant(s: Session, p: Proposal, reason: Option<Reason>) {
    && (forall r :: r in p.reopens ==> !Blank(r.reason))
    && SensibleKeys(s.decisions, p) && SensibleThread(s.threads, p)
    && (reason.Some? || DependenciesHold(s.decisions, RepairedProposal(s.decisions, p).questions))
  }

  /**
   A prepared round is accepted, by the application and by the constructor of what comes
   out, if and only if its reopens give reasons, its new decisions come under unused keys,
   it ran on the session's thread, and what it puts before the user depends only on
   decisions that are resolved and not asked again.
   */
  lemma AcceptedIff(s: Session, p: Proposal, reason: Option<Reason>, c: Convergence)
    requires Prepared(s, p, reason, c)
    ensures RoundResult(s, p, reason, c).Success? && SessionOk(RoundResult(s, p, reason, c).value) <==> WellMeant(s, p, reason)
  {
    hide RoundResult, RepairedProposal, Prepared, WellMeant, SessionOk;
    if WellMeant(s, p, reason) {
      WellMeantIsAccepted(s, p, reason, c);
    }
    if RoundResult(s, p, reason, c).Success? && SessionOk(RoundResult(s, p, reason, c).value) {
      AcceptedIsWellMeant(s, p, reason, c);
    }
  }

  lemma WellMeantIsAccepted(s: Session, p: Proposal, reason: Option<Reason>, c: Convergence)
    requires Prepared(s, p, reason, c) && WellMeant(s, p, reason)
    ensures RoundResult(s, p, reason, c).Success? && SessionOk(RoundResult(s, p, reason, c).value)
  {
    hide RoundResult, RepairedProposal, RoundApplied, LogOk, Dedup, Latest, Blank, Settled, DependenciesHold, QuestionsOk, SpecsOk, SpecOk,
         SensibleKeys, RoundLog, SpecsAfter, StatusOk, SensibleSpec, NothingOpen;
    var r := RepairedProposal(s.decisions, p);
    SensibleLogHolds(s.decisions, p);
    ThreadsStayOk(s.threads, p);
    ResultParts(s, p, reason, c);
    var next := RoundResult(s, p, reason, c).value;
    RoundsLand(s, p, reason, c, next);
    SpecsStayOk(s.specs, p);
    FrontierOkIff(s.decisions, next.decisions, r.questions);
    RoundsAreCoherent(s, p, reason, c, next);
    RepairedNothing(s.decisions, p);
    StatusHolds(p, r, reason, next);
  }

  lemma AcceptedIsWellMeant(s: Session, p: Proposal, reason: Option<Reason>, c: Convergence)
    requires Prepared(s, p, reason, c) && RoundResult(s, p, reason, c).Success? && SessionOk(RoundResult(s, p, reason, c).value)
    ensures WellMeant(s, p, reason)
  {
    hide RoundResult, RepairedProposal, RoundApplied, HistoryOk, EntryOk, Dedup, Latest, Blank, Settled, DependenciesHold, QuestionsOk, SpecsOk,
         SpecOk, SensibleKeys, RoundLog, SpecsAfter, StatusOk, SensibleSpec, History;
    var r := RepairedProposal(s.decisions, p);
    var next := RoundResult(s, p, reason, c).value;
    ThreadsStayOk(s.threads, p);
    ResultParts(s, p, reason, c);
    RoundsLand(s, p, reason, c, next);
    KeysWereUnused(s.decisions, p, next.decisions);
    forall x | x in p.reopens
      ensures !Blank(x.reason)
    {
      assert !IsOpen(s.decisions, x.id);
      ReasonsWereGiven(s.decisions, p, x);
    }
    FrontierOkIff(s.decisions, next.decisions, r.questions);
  }

  lemma StatusHolds(p: Proposal, r: Proposal, reason: Option<Reason>, next: Session)
    requires next.status == StatusAfter(p, reason) && (reason.Some? ==> next.convergence.reason.Some? && !p.ready)
    requires next.frontier == (if reason.Some? then [] else r.questions) && next.pending == (if reason.Some? then r.questions else [])
    requires next.specs != [] && next.specs[|next.specs| - 1].status == (if p.ready then CandidateSpec else Draft)
    requires p.ready ==> r.questions == []
    requires Coherent(next)
    ensures StatusOk(next)
  {
    hide IsOpen, IsResolved, Latest;
  }

  lemma RepairedNothing(log: seq<Entry>, p: Proposal)
    ensures p.questions == [] ==> RepairedProposal(log, p).questions == []
  {
  }

  // ----- answers ---------------------------------------------------------------------------------------

  lemma AnsweredLogStatus(log: seq<Entry>, answers: seq<(Id, Answer)>, event: Id, id: Id)
    requires AnswerAll(log, answers, event).Success?
    ensures var log' := AnswerAll(log, answers, event).value;
            && (IsOpen(log', id) <==> IsOpen(log, id) && id !in AnsweredIds(answers))
            && (IsResolved(log', id) <==> IsResolved(log, id) || id in AnsweredIds(answers))
            && (Latest(log', id).Some? <==> Latest(log, id).Some?)
  {
    hide History, AnswerAll;
    AnswerAllMeans(log, answers, event);
    if id !in AnsweredIds(answers) {
      assert Latest(AnswerAll(log, answers, event).value, id) == Latest(log, id);
    } else {
      ResolvedIsKnown(log, id);
    }
  }

  lemma {:induction false} WithoutKeepsOrder(questions: seq<Question>, ids: set<Id>)
    requires DistinctIds(questions)
    ensures DistinctIds(Without(questions, ids)) && IdsOf(Without(questions, ids)) == IdsOf(questions) - ids
  {
    if questions != [] {
      WithoutKeepsOrder(questions[1..], ids);
      var rest := Without(questions[1..], ids);
      assert questions == [questions[0]] + questions[1..];
      assert forall i :: 0 <= i < |rest| ==> rest[i] in questions[1..];
      assert forall q :: q in questions[1..] ==> q.id != questions[0].id;
    }
  }

  /** Accepted answers keep the session whole, and the user keeps seeing exactly what is still open. */
  lemma AnswersHold(s: Session, answers: seq<(Id, Answer)>, required: set<Id>, event: Id)
    requires SessionOk(s) && Coherent(s) && AnswersApplied(s, answers, required, event).Success?
    ensures var u := AnswersApplied(s, answers, required, event).value;
            && SessionOk(u) && Coherent(u) && Settled(u.decisions)
            && u.revision == s.revision && u.specs == s.specs && u.threads == s.threads
            && (IdsOf(s.frontier) + IdsOf(s.pending) <= required ==> NothingOpen(u.decisions))
  {
    hide LogOk, AnswerAll, IsOpen, IsResolved, Latest, SpecsOk, SpecOk, ThreadsOk;
    var u := AnswersApplied(s, answers, required, event).value;
    AnswerAllMeans(s.decisions, answers, event);
    WithoutKeepsOrder(s.frontier, AnsweredIds(answers));
    WithoutKeepsOrder(s.pending, AnsweredIds(answers));
    forall id
      ensures IsOpen(u.decisions, id) <==> IsOpen(s.decisions, id) && id !in AnsweredIds(answers)
      ensures IsResolved(u.decisions, id) <==> IsResolved(s.decisions, id) || id in AnsweredIds(answers)
      ensures Latest(u.decisions, id).Some? <==> Latest(s.decisions, id).Some?
    {
      AnsweredLogStatus(s.decisions, answers, event, id);
    }
    WithoutQuestionsOk(s.decisions, u.decisions, s.frontier, s.pending, AnsweredIds(answers));
    if s.frontier == [] {
      assert u.frontier == [];
    }
    if s.pending == [] {
      assert u.pending == [];
    }
  }

  lemma WithoutQuestionsOk(before: seq<Entry>, after: seq<Entry>, frontier: seq<Question>, pending: seq<Question>, ids: set<Id>)
    requires QuestionsOk(before, frontier, pending)
    requires forall id :: IsOpen(before, id) && id !in ids ==> IsOpen(after, id)
    requires forall id :: IsResolved(before, id) ==> IsResolved(after, id)
    ensures QuestionsOk(after, Without(frontier, ids), Without(pending, ids))
  {
    hide IsOpen, IsResolved;
    WithoutKeepsOrder(frontier, ids);
    WithoutKeepsOrder(pending, ids);
    var f, w := Without(frontier, ids), Without(pending, ids);
    assert forall k :: 0 <= k < |f| ==> f[k] in f;
    assert forall k :: 0 <= k < |w| ==> w[k] in w;
  }

  // ----- nobody answers for the user -----------------------------------------------------------------------

  /**
   Whatever the model wrote, repair and application create no answer and change none: a
   decision resolved before the round is either untouched, or retired with its answer
   kept and put back to the user one revision higher; whatever is resolved afterwards was
   resolved before; and no history is rewritten or loses its count.
   */
  lemma NobodyAnswersForTheUser(s: Session, p: Proposal, reason: Option<Reason>, c: Convergence, next: Session, id: Id)
    requires HistoryOk(History(s.decisions, id)) && RoundResult(s, p, reason, c) == Success(next)
    ensures IsResolved(next.decisions, id) ==> History(next.decisions, id) == History(s.decisions, id)
    ensures IsResolved(s.decisions, id) ==>
              || History(next.decisions, id) == History(s.decisions, id)
              || exists q :: q in RepairedProposal(s.decisions, p).questions && q.id == id
                             && PutBack(History(s.decisions, id), History(next.decisions, id), q)
    ensures HistoryOk(History(next.decisions, id))
  {
    hide History, PutBack, Standing, RepairedProposal, RoundResult, HistoryOk;
    RoundsLand(s, p, reason, c, next);
    var questions := RepairedProposal(s.decisions, p).questions;
    if id in IdsOf(questions) {
      var q :| q in questions && q.id == id;
      assert IsOpen(next.decisions, q.id);
      HistoriesCount(History(s.decisions, id), History(next.decisions, id), q);
    }
  }

  lemma HistoriesCount(before: seq<Entry>, after: seq<Entry>, q: Question)
    requires HistoryOk(before) && (PutBack(before, after, q) || Standing(before, after, q, false))
    ensures HistoryOk(after)
  {
    if PutBack(before, after, q) {
      forall k | 0 <= k < |before| - 1
        ensures after[k] == before[k]
      {
        assert after[k] == after[..|before| - 1][k];
      }
    }
  }

  /** A question the user already answered in these very words is never asked again. */
  lemma RepeatsAreDropped(log: seq<Entry>, p: Proposal, q: Question)
    requires LogOk(log) && Settled(log) && SensibleReopens(log, p) && SensibleKeys(log, p)
    requires q in RepairedProposal(log, p).questions && IsResolved(log, q.id)
    ensures q.id in ReopenIds(p.reopens) || Latest(log, q.id).value.question != q
  {
    hide LogOk, Dedup, Latest, IsResolved;
    DedupIsDistinct(p.questions);
    KeptReopensOk(log, p.reopens, p.spec.refs);
    OnlyNewWordings(log, KeptReopens(log, p.reopens, p.spec.refs), Dedup(p.questions), p.spec.refs, q);
  }

  lemma {:induction false} OnlyNewWordings(log: seq<Entry>, reopens: seq<Reopen>, incoming: seq<Question>, fallback: set<Id>, q: Question)
    requires q in RepairAll(log, reopens, incoming, fallback).questions && IsResolved(log, q.id)
    ensures q.id in ReopenIds(reopens) || Latest(log, q.id).value.question != q
    decreases |incoming|
  {
    hide Latest;
    if incoming != [] {
      var front := incoming[..|incoming| - 1];
      if q in RepairAll(log, reopens, front, fallback).questions {
        OnlyNewWordings(log, reopens, front, fallback, q);
      }
    }
  }

  // ----- what parsing already guarantees ----------------------------------------------------------------------

  /** `_parse_reopen_requests`: once each, known, and with a replacement question. */
  function ParsedReopens(raw: seq<Reopen>, questions: set<Id>, known: set<Id>): seq<Reopen>
    decreases |raw|
  {
    if raw == [] then []
    else
      var kept := ParsedReopens(raw[..|raw| - 1], questions, known);
      var r := raw[|raw| - 1];
      if r.id in ReopenIds(kept) || r.id !in known || r.id !in questions then kept else kept + [r]
  }

  method ParseReopens(raw: seq<Reopen>, questions: set<Id>, known: set<Id>) returns (kept: seq<Reopen>)
    ensures kept == ParsedReopens(raw, questions, known)
  {
    kept := [];
    var seen: set<Id> := {};
    var k := 0;
    while k < |raw|
      invariant 0 <= k <= |raw|
      invariant kept == ParsedReopens(raw[..k], questions, known) && seen == ReopenIds(kept)
    {
      assert raw[..k + 1][..k] == raw[..k];
      if raw[k].id !in seen && raw[k].id in known && raw[k].id in questions {
        assert forall r :: r in kept + [raw[k]] <==> r in kept || r == raw[k];
        seen := seen + {raw[k].id};
        kept := kept + [raw[k]];
      }
      k := k + 1;
    }
    assert raw[..k] == raw;
  }

  lemma {:induction false} ParsedReopensOk(raw: seq<Reopen>, questions: set<Id>, known: set<Id>)
    ensures var kept := ParsedReopens(raw, questions, known);
            && DistinctReopens(kept)
            && forall r :: r in kept ==> r in raw && r.id in known && r.id in questions
    decreases |raw|
  {
    if raw != [] {
      var front := raw[..|raw| - 1];
      ParsedReopensOk(front, questions, known);
      var kept := ParsedReopens(front, questions, known);
      assert forall i :: 0 <= i < |kept| ==> kept[i].id in ReopenIds(kept);
    }
  }

  lemma {:induction false} DedupDistinct(questions: seq<Question>)
    requires DistinctIds(questions) && DistinctKeys(questions)
    ensures Dedup(questions) == questions
  {
    if questions != [] {
      DedupDistinct(questions[..|questions| - 1]);
      assert questions == questions[..|questions| - 1] + [questions[|questions| - 1]];
    }
  }

  /** Reopens that went through parsing are distinct, known and have their question. */
  lemma ParsingMakesReopensSensible(log: seq<Entry>, p: Proposal, raw: seq<Reopen>, known: set<Id>)
    requires DistinctIds(p.questions) && DistinctKeys(p.questions)
    requires forall id :: id in known ==> Latest(log, id).Some?
    requires p.reopens == ParsedReopens(raw, IdsOf(p.questions), known)
    ensures DistinctReopens(p.reopens)
    ensures forall r :: r in p.reopens ==> r in raw && Latest(log, r.id).Some? && r.id in IdsOf(Dedup(p.questions))
  {
    hide Latest, Dedup;
    ParsedReopensOk(raw, IdsOf(p.questions), known);
    DedupDistinct(p.questions);
  }
}
