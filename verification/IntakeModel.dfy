/**
 The frozen records of an Intake interview and what their constructors insist on
 (src/derivation_app/intake_session.py). Prose fields of a question are one text;
 message references, which never repeat, are sets.
 */
module IntakeModel {
  import opened Characters
  import opened Wrappers

  type Id = nat

  datatype AnswerMode = SingleChoice | MultiChoice | ChoiceWithText | TextOnly

  datatype Strategy = Selected | SimplestFirst | BothRoutes

  datatype Question = Question(id: Id, key: string, wording: string, mode: AnswerMode, options: seq<Id>, dependsOn: set<Id>)

  datatype Answer = Answer(options: seq<Id>, custom: Option<string>, strategy: Option<Strategy>)

  datatype DecisionStatus = Open | Resolved | Superseded

  datatype Entry = Entry(
    id: Id,
    key: string,
    status: DecisionStatus,
    question: Question,
    revision: nat,
    supersedes: Option<nat>,
    answer: Option<Answer>,
    reopenReason: Option<string>,
    refs: set<Id>)

  datatype SpecStatus = Draft | CandidateSpec | ConfirmedSpec | SupersededSpec

  /** A choice the agent makes without asking; a problem-class one is the user's to make. */
  datatype Default = Default(id: Id, problem: bool, statement: string)

  datatype Spec = Spec(
    version: nat,
    status: SpecStatus,
    supersedes: Option<nat>,
    defaults: seq<Default>,
    ladder: seq<set<Id>>,
    refs: set<Id>)

  datatype ThreadStatus = ActiveThread | SupersededThread | ClosedThread

  datatype Thread = Thread(generation: nat, status: ThreadStatus, id: Id)

  datatype Reason = MaxFrontierRounds | MaxAuditRejections

  datatype Convergence = Convergence(rounds: nat, rejections: nat, reason: Option<Reason>, finalized: bool)

  datatype Status = Active | ConvergenceRequired | CandidateReady | Confirmed | Cancelled

  datatype Session = Session(
    revision: nat,
    status: Status,
    specs: seq<Spec>,
    decisions: seq<Entry>,
    frontier: seq<Question>,
    pending: seq<Question>,
    threads: seq<Thread>,
    convergence: Convergence)

  // ----- answers -----------------------------------------------------------------------

  /** Both routes without a selection means every offered route; None when the strategy does not fit. */
  function Normalized(q: Question, a: Answer): Option<Answer> {
    if a.strategy in {Some(SimplestFirst), Some(BothRoutes)} && q.mode.TextOnly? then None
    else if a.strategy != Some(BothRoutes) then Some(a)
    else if |q.options| < 2 then None
    else if a.options == [] then Some(a.(options := q.options))
    else if |a.options| < 2 then None
    else Some(a)
  }

  predicate Fits(q: Question, a: Answer) {
    && (forall i :: 0 <= i < |a.options| ==> a.options[i] in q.options)
    && (q.mode in {SingleChoice, ChoiceWithText} && |a.options| > 1 ==> a.strategy == Some(BothRoutes))
    && (q.mode.TextOnly? ==> a.options == [])
  }

  predicate Blank(s: string) {
    forall i :: 0 <= i < |s| ==> IsSpace(s[i])
  }

  /** What constructing a decision entry checks. */
  predicate EntryOk(e: Entry) {
    && e.question.id == e.id && e.question.key == e.key
    && e.revision >= 1
    && e.supersedes == (if e.revision > 1 then Some(e.revision - 1) else None)
    && (e.status.Resolved? ==> e.answer.Some?)
    && (e.status.Open? ==> e.answer.None?)
    && (e.answer.Some? ==> Fits(e.question, e.answer.value))
    && (e.revision > 1 && e.status.Open? ==> e.reopenReason.Some?)
    && (e.reopenReason.Some? ==> !Blank(e.reopenReason.value))
  }

  // ----- the decision log ----------------------------------------------------------------

  /** The revisions of one decision, in order. */
  function History(log: seq<Entry>, id: Id): (h: seq<Entry>)
    ensures forall k :: 0 <= k < |h| ==> h[k].id == id && h[k] in log
  {
    if log == [] then []
    else
      var front := History(log[..|log| - 1], id);
      if log[|log| - 1].id == id then front + [log[|log| - 1]] else front
  }

  /** The newest revision of a decision. */
  function Latest(log: seq<Entry>, id: Id): (e: Option<Entry>)
    ensures e.Some? ==> e.value.id == id && e.value in log
  {
    var h := History(log, id);
    if h == [] then None else Some(h[|h| - 1])
  }

  /** Revisions count up from one, and all but the newest are superseded. */
  predicate HistoryOk(h: seq<Entry>) {
    && (forall k :: 0 <= k < |h| ==> h[k].revision == k + 1)
    && (forall k :: 0 <= k < |h| - 1 ==> h[k].status.Superseded?)
  }

  ghost predicate KeysDistinct(log: seq<Entry>) {
    forall a, b :: Latest(log, a).Some? && Latest(log, b).Some? && Latest(log, a).value.key == Latest(log, b).value.key ==> a == b
  }

  ghost predicate LogOk(log: seq<Entry>) {
    && (forall k :: 0 <= k < |log| ==> EntryOk(log[k]))
    && (forall id :: HistoryOk(History(log, id)))
    && KeysDistinct(log)
  }

  predicate IsOpen(log: seq<Entry>, id: Id) {
    Latest(log, id).Some? && Latest(log, id).value.status.Open?
  }

  predicate IsResolved(log: seq<Entry>, id: Id) {
    Latest(log, id).Some? && Latest(log, id).value.status.Resolved?
  }

  function IdsOf(questions: seq<Question>): set<Id> {
    set q | q in questions :: q.id
  }

  predicate DistinctIds(questions: seq<Question>) {
    forall i, j :: 0 <= i < j < |questions| ==> questions[i].id != questions[j].id
  }

  // ----- the session -----------------------------------------------------------------------

  predicate SpecsOk(specs: seq<Spec>) {
    && (forall k :: 0 <= k < |specs| ==> specs[k].version == k + 1)
    && (forall k :: 0 <= k < |specs| - 1 ==> specs[k].status.SupersededSpec?)
  }

  predicate ThreadsOk(threads: seq<Thread>) {
    && (forall k :: 0 <= k < |threads| ==> threads[k].generation == k + 1)
    && (forall k :: 0 <= k < |threads| - 1 ==> threads[k].status.SupersededThread?)
  }

  /** What a specification insists on by itself. */
  predicate SpecOk(s: Spec) {
    && s.version >= 1 && s.supersedes == (if s.version > 1 then Some(s.version - 1) else None)
    && (forall i, j :: 0 <= i < j < |s.defaults| ==> s.defaults[i].id != s.defaults[j].id)
    && (forall k :: 0 <= k < |s.ladder| ==> forall d :: d in s.ladder[k] ==> exists i :: 0 <= i < |s.defaults| && s.defaults[i].id == d)
  }

  /** The questions shown to the user point at open decisions; frontier dependencies are resolved. */
  predicate QuestionsOk(log: seq<Entry>, frontier: seq<Question>, pending: seq<Question>) {
    && DistinctIds(frontier) && DistinctIds(pending) && IdsOf(frontier) !! IdsOf(pending)
    && (forall k :: 0 <= k < |frontier| ==>
          IsOpen(log, frontier[k].id) && forall d :: d in frontier[k].dependsOn ==> IsResolved(log, d))
    && (forall k :: 0 <= k < |pending| ==> IsOpen(log, pending[k].id))
  }

  /** What each status asks of the rest. Every question is blocking. */
  ghost predicate StatusOk(s: Session) {
    && (s.status in {CandidateReady, Confirmed} ==>
          (forall id :: !IsOpen(s.decisions, id)) && s.frontier == [] && s.pending == [])
    && (s.status.ConvergenceRequired? ==> s.specs != [] && s.frontier == [] && s.convergence.reason.Some?)
    && (s.status.Confirmed? ==> s.specs != [] && s.specs[|s.specs| - 1].status.ConfirmedSpec?)
    && (s.status.CandidateReady? ==> s.specs != [] && s.specs[|s.specs| - 1].status.CandidateSpec?)
  }

  /** IntakeSession's own invariant. */
  ghost predicate SessionOk(s: Session) {
    && SpecsOk(s.specs) && (forall k :: 0 <= k < |s.specs| ==> SpecOk(s.specs[k]))
    && LogOk(s.decisions) && QuestionsOk(s.decisions, s.frontier, s.pending)
    && ThreadsOk(s.threads) && StatusOk(s)
  }

  /** Exactly the open decisions are in front of the user, and nothing latest is superseded. */
  ghost predicate Coherent(s: Session) {
    && (forall id :: IsOpen(s.decisions, id) <==> id in IdsOf(s.frontier) + IdsOf(s.pending))
    && (forall id :: Latest(s.decisions, id).Some? ==> IsOpen(s.decisions, id) || IsResolved(s.decisions, id))
  }
}
