/**
 One interview round on the decision log: the user's answers, the repair of what the
 model proposed, and its application (`_apply_answers`, `_repair_proposal`,
 `_apply_proposal` of src/derivation_app/intake_session_service.py).
 */
module IntakeRounds {
  import opened Wrappers
  import opened IntakeModel
  import opened IntakeLog

  datatype Refusal = MissingAnswers | UnknownDecision | NotOpen | BadAnswer | ReopenWithoutQuestion | ReopenUnresolved
                   | RepeatedWithoutReopen | ThreadMismatch

  datatype Reopen = Reopen(id: Id, reason: string, refs: set<Id>)

  datatype Proposal = Proposal(spec: Spec, questions: seq<Question>, reopens: seq<Reopen>, ready: bool, thread: Id, createdThread: bool)

  // ----- answers ---------------------------------------------------------------------------

  predicate DistinctAnswers(answers: seq<(Id, Answer)>) {
    forall i, j :: 0 <= i < j < |answers| ==> answers[i].0 != answers[j].0
  }

  function AnsweredIds(answers: seq<(Id, Answer)>): set<Id> {
    set a | a in answers :: a.0
  }

  function Retired(e: Entry): Entry {
    e.(status := Superseded)
  }

  /** The revision that resolves an open decision. */
  function Answered(current: Entry, answer: Answer, event: Id): Entry {
    Entry(current.id, current.key, Resolved, current.question, current.revision + 1, Some(current.revision), Some(answer), None, {event})
  }

  function AnswerOne(log: seq<Entry>, id: Id, a: Answer, event: Id): Result<seq<Entry>, Refusal> {
    if Latest(log, id).None? then Failure(UnknownDecision)
    else
      var current := Latest(log, id).value;
      if !current.status.Open? then Failure(NotOpen)
      else
        var fitted := Normalized(current.question, a);
        if fitted.None? || !Fits(current.question, fitted.value) then Failure(BadAnswer)
        else Success(Succeeded(log, id, Retired(current), Answered(current, fitted.value, event)))
  }

  function AnswerAll(log: seq<Entry>, answers: seq<(Id, Answer)>, event: Id): Result<seq<Entry>, Refusal>
    decreases |answers|
  {
    if answers == [] then Success(log)
    else
      match AnswerAll(log, answers[..|answers| - 1], event)
      case Failure(e) => Failure(e)
      case Success(front) => AnswerOne(front, answers[|answers| - 1].0, answers[|answers| - 1].1, event)
  }

  function Without(questions: seq<Question>, ids: set<Id>): (r: seq<Question>)
    ensures forall q :: q in r <==> q in questions && q.id !in ids
  {
    if questions == [] then []
    else (if questions[0].id in ids then [] else [questions[0]]) + Without(questions[1..], ids)
  }

  function AnswersApplied(s: Session, answers: seq<(Id, Answer)>, required: set<Id>, event: Id): Result<Session, Refusal> {
    if !(required <= AnsweredIds(answers)) then Failure(MissingAnswers)
    else if exists a :: a in answers && Latest(s.decisions, a.0).None? then Failure(UnknownDecision)
    else
      match AnswerAll(s.decisions, answers, event)
      case Failure(e) => Failure(e)
      case Success(log) =>
        Success(s.(decisions := log, frontier := Without(s.frontier, AnsweredIds(answers)),
                   pending := Without(s.pending, AnsweredIds(answers))))
  }

  /** One answer retires the open revision and adds the resolved one; nothing else changes. */
  lemma AnswerOneMeans(log: seq<Entry>, id: Id, a: Answer, event: Id, other: Id)
    requires AnswerOne(log, id, a, event).Success?
    ensures var log' := AnswerOne(log, id, a, event).value;
            && IsResolved(log', id)
            && (other != id ==> History(log', other) == History(log, other))
    ensures LogOk(log) ==> LogOk(AnswerOne(log, id, a, event).value)
  {
    hide History, LogOk;
    var current := Latest(log, id).value;
    var next := Answered(current, Normalized(current.question, a).value, event);
    HistorySucceeded(log, id, Retired(current), next, other);
    if LogOk(log) {
      LatestOk(log, id);
      SucceededOk(log, id, next);
    }
  }

  lemma LatestOk(log: seq<Entry>, id: Id)
    requires LogOk(log) && Latest(log, id).Some?
    ensures EntryOk(Latest(log, id).value) && EntryOk(Retired(Latest(log, id).value))
  {
    hide KeysDistinct, HistoryOk;
    assert Latest(log, id).value in log;
  }

  /** Answers that all go through were to distinct open decisions, and touch nothing else. */
  lemma {:induction false} AnswerAllMeans(log: seq<Entry>, answers: seq<(Id, Answer)>, event: Id)
    requires AnswerAll(log, answers, event).Success?
    ensures DistinctAnswers(answers)
    ensures var log' := AnswerAll(log, answers, event).value;
            && (forall id :: id in AnsweredIds(answers) ==> IsOpen(log, id) && IsResolved(log', id))
            && (forall id :: id !in AnsweredIds(answers) ==> History(log', id) == History(log, id))
            && (LogOk(log) ==> LogOk(log'))
    decreases |answers|
  {
    hide LogOk, History, AnswerOne;
    if answers != [] {
      var front := answers[..|answers| - 1];
      var last := answers[|answers| - 1];
      AnswerAllMeans(log, front, event);
      var mid := AnswerAll(log, front, event).value;
      assert answers == front + [last];
      assert AnsweredIds(answers) == AnsweredIds(front) + {last.0};
      AnswerNeedsOpen(mid, last.0, last.1, event);
      assert last.0 !in AnsweredIds(front);
      forall i | 0 <= i < |front|
        ensures answers[i].0 != last.0
      {
        assert front[i].0 in AnsweredIds(front);
      }
      forall id
        ensures id != last.0 ==> History(AnswerAll(log, answers, event).value, id) == History(mid, id)
      {
        AnswerOneMeans(mid, last.0, last.1, event, id);
      }
      AnswerOneMeans(mid, last.0, last.1, event, last.0);
    }
  }

  lemma AnswerNeedsOpen(log: seq<Entry>, id: Id, a: Answer, event: Id)
    requires AnswerOne(log, id, a, event).Success?
    ensures IsOpen(log, id)
  {
    hide History;
  }

  /** The next answer meets the log as it was before the round: no earlier answer was to the same decision. */
  lemma NextAnswer(log: seq<Entry>, answers: seq<(Id, Answer)>, event: Id, k: nat, now: seq<Entry>)
    requires DistinctAnswers(answers) && k < |answers| && AnswerAll(log, answers[..k], event) == Success(now)
    ensures AnswerAll(log, answers[..k + 1], event) == AnswerOne(now, answers[k].0, answers[k].1, event)
    ensures Latest(now, answers[k].0) == Latest(log, answers[k].0)
  {
    hide AnswerOne, LogOk, History;
    assert answers[..k + 1][..k] == answers[..k];
    AnswerAllMeans(log, answers[..k], event);
    assert answers[k].0 !in AnsweredIds(answers[..k]);
  }

  /** `_apply_answers`: looks each decision up as it was before the round. */
  method ApplyAnswers(s: Session, answers: seq<(Id, Answer)>, required: set<Id>, event: Id) returns (r: Result<Session, Refusal>)
    requires DistinctAnswers(answers)
    ensures r == AnswersApplied(s, answers, required, event)
  {
    hide Latest, Succeeded, Answered, Fits, Normalized, AnswerAll, DistinctAnswers;
    if !(required <= AnsweredIds(answers)) { return Failure(MissingAnswers); }
    if exists a :: a in answers && Latest(s.decisions, a.0).None? { return Failure(UnknownDecision); }
    var decisions := s.decisions;
    NoAnswers(s.decisions, event);
    assert answers[..0] == [];
    var k := 0;
    while k < |answers|
      invariant 0 <= k <= |answers|
      invariant AnswerAll(s.decisions, answers[..k], event) == Success(decisions)
    {
      var (id, answer) := answers[k];
      NextAnswer(s.decisions, answers, event, k, decisions);
      var current := Latest(s.decisions, id).value;
      if !current.status.Open? {
        AnswersStayRefused(s.decisions, answers, event, k + 1);
        return Failure(NotOpen);
      }
      var fitted := Normalized(current.question, answer);
      if fitted.None? || !Fits(current.question, fitted.value) {
        AnswersStayRefused(s.decisions, answers, event, k + 1);
        return Failure(BadAnswer);
      }
      decisions := Succeeded(decisions, id, Retired(current), Answered(current, fitted.value, event));
      k := k + 1;
    }
    assert answers[..k] == answers;
    r := Success(s.(decisions := decisions, frontier := Without(s.frontier, AnsweredIds(answers)),
                    pending := Without(s.pending, AnsweredIds(answers))));
  }

  /** The options an answer stands for: those it selects, and all the question's where it takes both routes without selecting. */
  function ChosenOptions(q: Question, a: Answer): seq<Id> {
    if a.strategy == Some(BothRoutes) && a.options == [] then q.options else a.options
  }

  /** The recorded answer has the user's words, strategy and options, and every option is the question's. */
  ghost predicate Recorded(q: Question, a: Answer, x: Answer) {
    && x.custom == a.custom && x.strategy == a.strategy && x.options == ChosenOptions(q, a)
    && forall i :: 0 <= i < |x.options| ==> x.options[i] in q.options
  }

  /** An answer that the question does not allow. */
  ghost predicate Unfit(q: Question, a: Answer) {
    || (q.mode == TextOnly && (a.options != [] || a.strategy in {Some(SimplestFirst), Some(BothRoutes)}))
    || (a.strategy == Some(BothRoutes) && (|q.options| < 2 || |a.options| == 1))
    || (exists i :: 0 <= i < |a.options| && a.options[i] !in q.options)
    || (q.mode in {SingleChoice, ChoiceWithText} && |a.options| > 1 && a.strategy != Some(BothRoutes))
  }

  /**
   When an answer is refused: for a decision nobody asked, one that is not open, or, if it
   is open, exactly if the question does not allow the answer. Otherwise what is recorded,
   under the question as it was asked, is what the user said.
   */
  lemma AnswerRefusedIff(log: seq<Entry>, id: Id, a: Answer, event: Id)
    ensures var r := AnswerOne(log, id, a, event);
            match Latest(log, id)
            case None => r == Failure(UnknownDecision)
            case Some(current) =>
              if current.status != Open then r == Failure(NotOpen)
              else if Unfit(current.question, a) then r == Failure(BadAnswer)
              else
                && r.Success? && Latest(r.value, id).Some?
                && var now := Latest(r.value, id).value;
                && now.status == Resolved && now.question == current.question && now.key == current.key && now.refs == {event}
                && now.answer.Some? && Recorded(current.question, a, now.answer.value)
                && now.revision == current.revision + 1 && now.supersedes == Some(current.revision) && now.reopenReason.None?
  {
    hide History;
    if Latest(log, id).Some? && AnswerOne(log, id, a, event).Success? {
      var current := Latest(log, id).value;
      HistorySucceeded(log, id, Retired(current), Answered(current, Normalized(current.question, a).value, event), id);
    }
  }

  lemma NoAnswers(log: seq<Entry>, event: Id)
    ensures AnswerAll(log, [], event) == Success(log)
  {
  }

  lemma {:induction false} AnswersStayRefused(log: seq<Entry>, answers: seq<(Id, Answer)>, event: Id, k: nat)
    requires k <= |answers| && AnswerAll(log, answers[..k], event).Failure?
    ensures AnswerAll(log, answers, event) == AnswerAll(log, answers[..k], event)
    decreases |answers|
  {
    hide AnswerOne;
    if k == |answers| {
      assert answers[..k] == answers;
    } else {
      assert answers[..|answers| - 1][..k] == answers[..k];
      AnswersStayRefused(log, answers[..|answers| - 1], event, k);
    }
  }

  // ----- repair ----------------------------------------------------------------------------

  /** The first question per decision and per semantic key. */
  function Dedup(questions: seq<Question>): seq<Question>
    decreases |questions|
  {
    if questions == [] then []
    else
      var kept := Dedup(questions[..|questions| - 1]);
      var q := questions[|questions| - 1];
      if exists k :: k in kept && (k.id == q.id || k.key == q.key) then kept else kept + [q]
  }

  predicate DistinctKeys(questions: seq<Question>) {
    forall i, j :: 0 <= i < j < |questions| ==> questions[i].key != questions[j].key
  }

  lemma {:induction false} DedupIsDistinct(questions: seq<Question>)
    ensures DistinctIds(Dedup(questions)) && DistinctKeys(Dedup(questions))
    ensures forall q :: q in Dedup(questions) ==> q in questions
    decreases |questions|
  {
    if questions != [] {
      var front, q := questions[..|questions| - 1], questions[|questions| - 1];
      DedupIsDistinct(front);
      OneMoreDistinct(Dedup(front), q);
      assert questions == front + [q];
    }
  }

  lemma OneMoreDistinct(kept: seq<Question>, q: Question)
    requires DistinctIds(kept) && DistinctKeys(kept)
    ensures !(exists k :: k in kept && (k.id == q.id || k.key == q.key)) ==> DistinctIds(kept + [q]) && DistinctKeys(kept + [q])
  {
    assert forall i :: 0 <= i < |kept| ==> kept[i] in kept;
  }

  /** `deduplicate_intake_questions`, with its two sets of what was seen. */
  method Deduplicate(questions: seq<Question>) returns (kept: seq<Question>)
    ensures kept == Dedup(questions)
  {
    var seenDecisions: set<Id> := {};
    var seenKeys: set<string> := {};
    kept := [];
    var k := 0;
    while k < |questions|
      invariant 0 <= k <= |questions|
      invariant kept == Dedup(questions[..k])
      invariant seenDecisions == IdsOf(kept) && seenKeys == set q | q in kept :: q.key
    {
      assert questions[..k + 1][..k] == questions[..k];
      var q := questions[k];
      if q.id !in seenDecisions && q.key !in seenKeys {
        seenDecisions, seenKeys := seenDecisions + {q.id}, seenKeys + {q.key};
        kept := kept + [q];
      }
      k := k + 1;
    }
    assert questions[..k] == questions;
  }

  /** A reopen that names no messages takes the round's. */
  function WithProvenance(r: Reopen, fallback: set<Id>): Reopen {
    if r.refs != {} then r else r.(refs := fallback)
  }

  /** Reopening a decision that already waits on the user is dropped. */
  function KeptReopens(log: seq<Entry>, reopens: seq<Reopen>, fallback: set<Id>): seq<Reopen>
    decreases |reopens|
  {
    if reopens == [] then []
    else
      var kept := KeptReopens(log, reopens[..|reopens| - 1], fallback);
      var r := reopens[|reopens| - 1];
      if IsOpen(log, r.id) then kept else kept + [WithProvenance(r, fallback)]
  }

  function ReopenIds(reopens: seq<Reopen>): set<Id> {
    set r | r in reopens :: r.id
  }

  predicate DistinctReopens(reopens: seq<Reopen>) {
    forall i, j :: 0 <= i < j < |reopens| ==> reopens[i].id != reopens[j].id
  }

  const ASKED_AGAIN := "asked again with different wording"

  datatype Repaired = Repaired(questions: seq<Question>, reopens: seq<Reopen>)

  /** A decision keeps the semantic key it was recorded under. */
  function Keyed(log: seq<Entry>, q: Question): Question {
    if Latest(log, q.id).Some? then q.(key := Latest(log, q.id).value.key) else q
  }

  /** One question against the log: repeated, re-asked in other words, or simply kept. */
  function RepairOne(log: seq<Entry>, reopened: set<Id>, r: Repaired, q: Question, fallback: set<Id>): Repaired {
    var keyed := Keyed(log, q);
    if q.id in reopened || !IsResolved(log, q.id) then r.(questions := r.questions + [keyed])
    else if Latest(log, q.id).value.question == keyed then r
    else Repaired(r.questions + [keyed], r.reopens + [Reopen(q.id, ASKED_AGAIN, fallback)])
  }

  function RepairAll(log: seq<Entry>, reopens: seq<Reopen>, questions: seq<Question>, fallback: set<Id>): Repaired
    decreases |questions|
  {
    if questions == [] then Repaired([], reopens)
    else
      RepairOne(log, ReopenIds(reopens), RepairAll(log, reopens, questions[..|questions| - 1], fallback), questions[|questions| - 1], fallback)
  }

  function RepairedProposal(log: seq<Entry>, p: Proposal): Proposal {
    var r := RepairAll(log, KeptReopens(log, p.reopens, p.spec.refs), Dedup(p.questions), p.spec.refs);
    p.(questions := r.questions, reopens := r.reopens)
  }

  /** `_repair_proposal`. */
  method RepairProposal(s: Session, p: Proposal) returns (r: Proposal)
    ensures r == RepairedProposal(s.decisions, p)
  {
    hide History, Dedup;
    var incoming := Deduplicate(p.questions);
    var reopens: seq<Reopen> := [];
    var k := 0;
    while k < |p.reopens|
      invariant 0 <= k <= |p.reopens|
      invariant reopens == KeptReopens(s.decisions, p.reopens[..k], p.spec.refs)
    {
      assert p.reopens[..k + 1][..k] == p.reopens[..k];
      var current := Latest(s.decisions, p.reopens[k].id);
      if !(current.Some? && current.value.status.Open?) {
        reopens := reopens + [WithProvenance(p.reopens[k], p.spec.refs)];
      }
      k := k + 1;
    }
    assert p.reopens[..k] == p.reopens;
    ghost var kept := reopens;
    var reopened := ReopenIds(reopens);
    var questions: seq<Question> := [];
    k := 0;
    while k < |incoming|
      invariant 0 <= k <= |incoming|
      invariant Repaired(questions, reopens) == RepairAll(s.decisions, kept, incoming[..k], p.spec.refs)
    {
      assert incoming[..k + 1][..k] == incoming[..k];
      var current := Latest(s.decisions, incoming[k].id);
      if current.None? {
        questions := questions + [incoming[k]];
      } else {
        var question := incoming[k].(key := current.value.key);
        if question.id in reopened {
          questions := questions + [question];
        } else if current.value.status.Resolved? {
          if current.value.question != question {
            reopens := reopens + [Reopen(question.id, ASKED_AGAIN, p.spec.refs)];
            questions := questions + [question];
          }
        } else {
          questions := questions + [question];
        }
      }
      k := k + 1;
    }
    assert incoming[..k] == incoming;
    r := p.(questions := questions, reopens := reopens);
  }

  // ----- what repair guarantees ----------------------------------------------------------------

  lemma {:induction false} KeptReopensOk(log: seq<Entry>, reopens: seq<Reopen>, fallback: set<Id>)
    requires DistinctReopens(reopens) && forall r :: r in reopens ==> Latest(log, r.id).Some?
    ensures var kept := KeptReopens(log, reopens, fallback);
            && DistinctReopens(kept)
            && (forall id :: id in ReopenIds(kept) <==> id in ReopenIds(reopens) && !IsOpen(log, id))
            && forall r :: r in kept ==> exists o :: o in reopens && o.id == r.id && o.reason == r.reason
    decreases |reopens|
  {
    hide History, Latest;
    if reopens != [] {
      var front := reopens[..|reopens| - 1];
      var last := reopens[|reopens| - 1];
      assert forall r :: r in reopens <==> r in front || r == last;
      KeptReopensOk(log, front, fallback);
      var before, kept := KeptReopens(log, front, fallback), KeptReopens(log, reopens, fallback);
      assert last.id !in ReopenIds(front);
      if !IsOpen(log, last.id) {
        var w := WithProvenance(last, fallback);
        assert kept == before + [w] && w.id == last.id;
        assert forall r :: r in kept <==> r in before || r == w;
        assert forall i :: 0 <= i < |before| ==> before[i].id in ReopenIds(before);
      }
    }
  }

  /** Every question asked is one of the round's, under its recorded key, and none twice. */
  ghost predicate QuestionsRepaired(log: seq<Entry>, incoming: seq<Question>, questions: seq<Question>) {
    DistinctIds(questions) && forall q :: q in questions ==> exists o :: o in incoming && q == Keyed(log, o)
  }

  /** A resolved decision is asked if and only if it is reopened; the round's own reopens all stand. */
  ghost predicate ReopensRepaired(log: seq<Entry>, reopens: seq<Reopen>, r: Repaired) {
    && DistinctReopens(r.reopens) && reopens <= r.reopens
    && (forall id :: id in ReopenIds(r.reopens) <==>
          id in ReopenIds(reopens) || (id in IdsOf(r.questions) && IsResolved(log, id)))
    && (forall x :: x in r.reopens ==> x in reopens || x.reason == ASKED_AGAIN)
  }

  /** Only a repetition of an answered question is dropped. */
  ghost predicate NothingLost(log: seq<Entry>, reopens: seq<Reopen>, incoming: seq<Question>, questions: seq<Question>) {
    forall id :: id in IdsOf(incoming) && (id in ReopenIds(reopens) || !IsResolved(log, id)) ==> id in IdsOf(questions)
  }

  ghost predicate RepairedOk(log: seq<Entry>, reopens: seq<Reopen>, incoming: seq<Question>, r: Repaired) {
    && QuestionsRepaired(log, incoming, r.questions) && ReopensRepaired(log, reopens, r)
    && NothingLost(log, reopens, incoming, r.questions)
  }

  lemma QuestionKept(log: seq<Entry>, front: seq<Question>, questions: seq<Question>, q: Question)
    requires QuestionsRepaired(log, front, questions) && q.id !in IdsOf(front)
    ensures QuestionsRepaired(log, front + [q], questions) && QuestionsRepaired(log, front + [q], questions + [Keyed(log, q)])
    ensures q.id !in IdsOf(questions)
    ensures IdsOf(front + [q]) == IdsOf(front) + {q.id} && IdsOf(questions + [Keyed(log, q)]) == IdsOf(questions) + {q.id}
  {
    hide Latest;
    var keyed := Keyed(log, q);
    forall x | x in questions
      ensures x.id in IdsOf(front)
    {
      var o :| o in front && x == Keyed(log, o);
      assert x.id == o.id;
    }
    assert keyed.id == q.id && q in front + [q];
    forall x | x in questions + [keyed]
      ensures exists o :: o in front + [q] && x == Keyed(log, o)
    {
      if x in questions {
        var o :| o in front && x == Keyed(log, o);
        assert o in front + [q];
      }
    }
    IdsAppend(front, q);
    IdsAppend(questions, keyed);
  }

  lemma IdsAppend(questions: seq<Question>, q: Question)
    ensures IdsOf(questions + [q]) == IdsOf(questions) + {q.id}
  {
    assert forall x :: x in questions + [q] <==> x in questions || x == q;
  }

  lemma ReopenAdded(log: seq<Entry>, reopens: seq<Reopen>, r: Repaired, keyed: Question, x: Reopen)
    requires ReopensRepaired(log, reopens, r) && keyed.id !in IdsOf(r.questions) && x.id == keyed.id && x.reason == ASKED_AGAIN
    requires keyed.id !in ReopenIds(reopens) && IsResolved(log, keyed.id)
    ensures ReopensRepaired(log, reopens, Repaired(r.questions + [keyed], r.reopens + [x]))
  {
    hide IsResolved;
    IdsAppend(r.questions, keyed);
    assert x.id !in ReopenIds(r.reopens);
    assert forall i :: 0 <= i < |r.reopens| ==> r.reopens[i].id in ReopenIds(r.reopens);
    assert forall y :: y in r.reopens + [x] <==> y in r.reopens || y == x;
    assert ReopenIds(r.reopens + [x]) == ReopenIds(r.reopens) + {x.id};
  }

  lemma ReopensSame(log: seq<Entry>, reopens: seq<Reopen>, r: Repaired, keyed: Question)
    requires ReopensRepaired(log, reopens, r) && (keyed.id in ReopenIds(reopens) || !IsResolved(log, keyed.id))
    ensures ReopensRepaired(log, reopens, r.(questions := r.questions + [keyed]))
  {
    hide IsResolved;
    IdsAppend(r.questions, keyed);
  }

  lemma RepairOneOk(log: seq<Entry>, reopens: seq<Reopen>, front: seq<Question>, r: Repaired, q: Question, fallback: set<Id>)
    requires RepairedOk(log, reopens, front, r) && q.id !in IdsOf(front)
    ensures RepairedOk(log, reopens, front + [q], RepairOne(log, ReopenIds(reopens), r, q, fallback))
  {
    hide QuestionsRepaired, ReopensRepaired, IsResolved, Latest;
    var keyed := Keyed(log, q);
    QuestionKept(log, front, r.questions, q);
    if q.id in ReopenIds(reopens) || !IsResolved(log, q.id) {
      ReopensSame(log, reopens, r, keyed);
    } else {
      ReopenAdded(log, reopens, r, keyed, Reopen(q.id, ASKED_AGAIN, fallback));
    }
  }

  lemma {:induction false} RepairAllOk(log: seq<Entry>, reopens: seq<Reopen>, incoming: seq<Question>, fallback: set<Id>)
    requires DistinctReopens(reopens) && DistinctIds(incoming)
    ensures RepairedOk(log, reopens, incoming, RepairAll(log, reopens, incoming, fallback))
    decreases |incoming|
  {
    hide RepairOne, Latest;
    if incoming != [] {
      var front := incoming[..|incoming| - 1];
      RepairAllOk(log, reopens, front, fallback);
      assert incoming == front + [incoming[|incoming| - 1]];
      RepairOneOk(log, reopens, front, RepairAll(log, reopens, front, fallback), incoming[|incoming| - 1], fallback);
    }
  }
}
