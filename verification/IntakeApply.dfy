/** Folding one repaired round into the session (`_apply_proposal`, `_apply_round`). */
module IntakeApply {
  import opened Wrappers
  import opened IntakeModel
  import opened IntakeLog
  import opened IntakeRounds

  // ----- reopened decisions ---------------------------------------------------------------

  function QuestionFor(questions: seq<Question>, id: Id): (q: Question)
    requires id in IdsOf(questions)
    ensures q in questions && q.id == id
    decreases |questions|
  {
    if questions[|questions| - 1].id == id then questions[|questions| - 1]
    else
      assert forall q :: q in questions ==> q in questions[..|questions| - 1] || q == questions[|questions| - 1];
      QuestionFor(questions[..|questions| - 1], id)
  }

  /** The revision that puts a resolved decision back to the user. */
  function Reopened(current: Entry, q: Question, r: Reopen): Entry {
    Entry(current.id, current.key, Open, q, current.revision + 1, Some(current.revision), None, Some(r.reason), r.refs)
  }

  function ReopenOne(log: seq<Entry>, r: Reopen, questions: seq<Question>): Result<seq<Entry>, Refusal>
    requires r.id in IdsOf(questions)
  {
    var current := Latest(log, r.id);
    if current.None? || !current.value.status.Resolved? then Failure(ReopenUnresolved)
    else Success(Succeeded(log, r.id, Retired(current.value), Reopened(current.value, QuestionFor(questions, r.id), r)))
  }

  function ReopenAll(log: seq<Entry>, reopens: seq<Reopen>, questions: seq<Question>): Result<seq<Entry>, Refusal>
    requires ReopenIds(reopens) <= IdsOf(questions)
    decreases |reopens|
  {
    if reopens == [] then Success(log)
    else
      assert reopens[|reopens| - 1].id in ReopenIds(reopens);
      assert forall r :: r in reopens[..|reopens| - 1] ==> r.id in ReopenIds(reopens);
      match ReopenAll(log, reopens[..|reopens| - 1], questions)
      case Failure(e) => Failure(e)
      case Success(front) => ReopenOne(front, reopens[|reopens| - 1], questions)
  }

  /** After its reopen, a decision's answer stays in its history and a question stands one revision higher. */
  ghost predicate PutBack(before: seq<Entry>, after: seq<Entry>, q: Question) {
    && before != [] && before[|before| - 1].status.Resolved?
    && |after| == |before| + 1 && after[..|before| - 1] == before[..|before| - 1]
    && after[|before| - 1] == Retired(before[|before| - 1])
    && after[|before|].status.Open? && after[|before|].question == q && after[|before|].revision == before[|before| - 1].revision + 1
    && after[|before|].key == before[|before| - 1].key
  }

  /** A reopen that goes through retires the answered revision and puts the question to the user, for its reason. */
  lemma ReopenOneMeans(log: seq<Entry>, r: Reopen, questions: seq<Question>, other: Id)
    requires r.id in IdsOf(questions) && ReopenOne(log, r, questions).Success?
    ensures var log' := ReopenOne(log, r, questions).value;
            && IsResolved(log, r.id) && PutBack(History(log, r.id), History(log', r.id), QuestionFor(questions, r.id))
            && Latest(log', r.id).Some? && Latest(log', r.id).value.reopenReason == Some(r.reason)
            && (other != r.id ==> History(log', other) == History(log, other))
  {
    hide History, QuestionFor;
    var current := Latest(log, r.id).value;
    HistorySucceeded(log, r.id, Retired(current), Reopened(current, QuestionFor(questions, r.id), r), other);
  }

  lemma ReopenOneOk(log: seq<Entry>, r: Reopen, questions: seq<Question>)
    requires LogOk(log) && r.id in IdsOf(questions) && IsResolved(log, r.id) && !Blank(r.reason)
    requires QuestionFor(questions, r.id).key == Latest(log, r.id).value.key
    ensures ReopenOne(log, r, questions).Success? && LogOk(ReopenOne(log, r, questions).value)
  {
    hide History, LogOk, QuestionFor;
    LatestOk(log, r.id);
    SucceededOk(log, r.id, Reopened(Latest(log, r.id).value, QuestionFor(questions, r.id), r));
  }

  /** Reopens that all go through were of distinct resolved decisions, and touch nothing else. */
  lemma {:induction false} ReopenAllMeans(log: seq<Entry>, reopens: seq<Reopen>, questions: seq<Question>)
    requires ReopenIds(reopens) <= IdsOf(questions) && ReopenAll(log, reopens, questions).Success?
    ensures DistinctReopens(reopens)
    ensures var log' := ReopenAll(log, reopens, questions).value;
            && (forall r :: r in reopens ==>
                  IsResolved(log, r.id) && Latest(log', r.id).Some? && Latest(log', r.id).value.reopenReason == Some(r.reason))
            && (forall id :: id in ReopenIds(reopens) ==> PutBack(History(log, id), History(log', id), QuestionFor(questions, id)))
            && (forall id :: id !in ReopenIds(reopens) ==> History(log', id) == History(log, id))
    decreases |reopens|
  {
    hide History, QuestionFor, PutBack, ReopenOne;
    if reopens != [] {
      var front := reopens[..|reopens| - 1];
      var last := reopens[|reopens| - 1];
      assert reopens == front + [last];
      assert ReopenIds(reopens) == ReopenIds(front) + {last.id};
      ReopenAllMeans(log, front, questions);
      var mid := ReopenAll(log, front, questions).value;
      ReopenOneMeans(mid, last, questions, last.id);
      if last.id in ReopenIds(front) {
        PutBackIsOpen(History(log, last.id), History(mid, last.id), QuestionFor(questions, last.id));
      }
      forall id | id != last.id
        ensures History(ReopenOne(mid, last, questions).value, id) == History(mid, id)
      {
        ReopenOneMeans(mid, last, questions, id);
      }
      forall i | 0 <= i < |front|
        ensures reopens[i].id != last.id
      {
        assert front[i].id in ReopenIds(front);
      }
      forall r | r in front
        ensures r.id != last.id
      {
        assert r.id in ReopenIds(front);
      }
    }
  }

  lemma PutBackIsOpen(before: seq<Entry>, after: seq<Entry>, q: Question)
    requires PutBack(before, after, q)
    ensures after != [] && after[|after| - 1].status.Open? && after[|after| - 1].question == q
    ensures before != [] && after[|after| - 1].key == before[|before| - 1].key
  {
  }

  /** Distinct reopens of resolved decisions, for a reason and with a question, always go through. */
  lemma {:induction false} ReopenAllOk(log: seq<Entry>, reopens: seq<Reopen>, questions: seq<Question>)
    requires LogOk(log) && DistinctReopens(reopens) && ReopenIds(reopens) <= IdsOf(questions)
    requires forall r :: r in reopens ==>
               IsResolved(log, r.id) && !Blank(r.reason) && QuestionFor(questions, r.id).key == Latest(log, r.id).value.key
    ensures ReopenAll(log, reopens, questions).Success? && LogOk(ReopenAll(log, reopens, questions).value)
    decreases |reopens|
  {
    hide LogOk, History, QuestionFor, PutBack, ReopenOne, Blank;
    if reopens != [] {
      var front := reopens[..|reopens| - 1];
      var last := reopens[|reopens| - 1];
      assert ReopenIds(reopens) == ReopenIds(front) + {last.id};
      assert last.id !in ReopenIds(front);
      ReopenAllOk(log, front, questions);
      ReopenAllMeans(log, front, questions);
      var mid := ReopenAll(log, front, questions).value;
      assert Latest(mid, last.id) == Latest(log, last.id);
      ReopenOneOk(mid, last, questions);
    }
  }

  // ----- asked decisions ---------------------------------------------------------------------

  function NewDecision(q: Question, refs: set<Id>): Entry {
    Entry(q.id, q.key, Open, q, 1, None, None, None, refs)
  }

  function AskOne(log: seq<Entry>, q: Question, reopened: set<Id>, refs: set<Id>): Result<seq<Entry>, Refusal> {
    var current := Latest(log, q.id);
    if q.id in reopened then Success(log)
    else if current.None? then Success(log + [NewDecision(q, refs)])
    else if !current.value.status.Open? then Failure(RepeatedWithoutReopen)
    else if current.value.question == q then Success(log)
    else Success(log[LatestIndex(log, q.id) := current.value.(question := q)])
  }

  function AskAll(log: seq<Entry>, questions: seq<Question>, reopened: set<Id>, refs: set<Id>): Result<seq<Entry>, Refusal>
    decreases |questions|
  {
    if questions == [] then Success(log)
    else
      match AskAll(log, questions[..|questions| - 1], reopened, refs)
      case Failure(e) => Failure(e)
      case Success(front) => AskOne(front, questions[|questions| - 1], reopened, refs)
  }

  /** The question stands open; an earlier revision, if there is one, is the same one in other words. */
  ghost predicate Standing(before: seq<Entry>, after: seq<Entry>, q: Question, reopened: bool) {
    if reopened then after == before
    else if before == [] then
      |after| == 1 && after[0].status.Open? && after[0].question == q && after[0].key == q.key && after[0].revision == 1
    else
      && before[|before| - 1].status.Open?
      && after == before[..|before| - 1] + [before[|before| - 1].(question := q)]
  }

  /** What makes a question fit to be asked: it is reopened, open under the same key, or new under an unused key. */
  ghost predicate Askable(log: seq<Entry>, q: Question, reopened: set<Id>) {
    || q.id in reopened
    || (IsOpen(log, q.id) && Latest(log, q.id).value.key == q.key)
    || (Latest(log, q.id).None? && forall x :: Latest(log, x).Some? ==> Latest(log, x).value.key != q.key)
  }

  /** A question that goes through is standing, and nothing else is touched. */
  lemma AskOneMeans(log: seq<Entry>, q: Question, reopened: set<Id>, refs: set<Id>, other: Id)
    requires AskOne(log, q, reopened, refs).Success?
    ensures var log' := AskOne(log, q, reopened, refs).value;
            && (q.id in reopened || !IsResolved(log, q.id))
            && Standing(History(log, q.id), History(log', q.id), q, q.id in reopened)
            && (other != q.id ==> History(log', other) == History(log, other))
  {
    hide History;
    if q.id in reopened {
    } else if Latest(log, q.id).None? {
      HistoryAppended(log, NewDecision(q, refs), other);
      assert History(log, q.id) + [NewDecision(q, refs)] == [NewDecision(q, refs)];
    } else if Latest(log, q.id).value.question != q {
      HistoryReplaced(log, q.id, Latest(log, q.id).value.(question := q), other);
    } else {
      var h := History(log, q.id);
      assert h == h[..|h| - 1] + [h[|h| - 1].(question := q)];
    }
  }

  lemma AskOneOk(log: seq<Entry>, q: Question, reopened: set<Id>, refs: set<Id>)
    requires LogOk(log) && Askable(log, q, reopened)
    ensures AskOne(log, q, reopened, refs).Success? && LogOk(AskOne(log, q, reopened, refs).value)
  {
    hide History, LogOk, KeysDistinct;
    if q.id in reopened {
    } else if Latest(log, q.id).None? {
      AppendedOk(log, NewDecision(q, refs));
    } else if Latest(log, q.id).value.question != q {
      RewordedOk(log, q.id, q);
    }
  }

  lemma StandingIsOpen(before: seq<Entry>, after: seq<Entry>, q: Question)
    requires Standing(before, after, q, false)
    ensures after != [] && after[|after| - 1].status.Open? && after[|after| - 1].question == q
    ensures before != [] ==> after[|after| - 1].key == before[|before| - 1].key
    ensures before == [] ==> after[|after| - 1].key == q.key
  {
  }

  lemma {:induction false} AskAllMeans(log: seq<Entry>, questions: seq<Question>, reopened: set<Id>, refs: set<Id>)
    requires DistinctIds(questions) && AskAll(log, questions, reopened, refs).Success?
    ensures var log' := AskAll(log, questions, reopened, refs).value;
            && (forall q :: q in questions ==>
                  && (q.id in reopened || !IsResolved(log, q.id))
                  && Standing(History(log, q.id), History(log', q.id), q, q.id in reopened))
            && (forall id :: id !in IdsOf(questions) ==> History(log', id) == History(log, id))
    decreases |questions|
  {
    hide History, Standing, AskOne;
    if questions != [] {
      var front := questions[..|questions| - 1];
      var last := questions[|questions| - 1];
      assert questions == front + [last];
      IdsAppend(front, last);
      assert last.id !in IdsOf(front);
      AskAllMeans(log, front, reopened, refs);
      var mid := AskAll(log, front, reopened, refs).value;
      forall id
        ensures id != last.id ==> History(AskOne(mid, last, reopened, refs).value, id) == History(mid, id)
      {
        AskOneMeans(mid, last, reopened, refs, id);
      }
      AskOneMeans(mid, last, reopened, refs, last.id);
      assert History(mid, last.id) == History(log, last.id);
    }
  }

  /** Distinct questions that are fit to be asked all go through. */
  lemma {:induction false} AskAllOk(log: seq<Entry>, questions: seq<Question>, reopened: set<Id>, refs: set<Id>)
    requires LogOk(log) && DistinctIds(questions) && forall q :: q in questions ==> Askable(log, q, reopened)
    requires forall a, b :: a in questions && b in questions && Latest(log, a.id).None? && a.key == b.key ==> a == b
    ensures AskAll(log, questions, reopened, refs).Success? && LogOk(AskAll(log, questions, reopened, refs).value)
    decreases |questions|
  {
    hide LogOk, History, Standing, AskOne, Askable;
    if questions != [] {
      var front := questions[..|questions| - 1];
      var last := questions[|questions| - 1];
      assert questions == front + [last];
      IdsAppend(front, last);
      assert last.id !in IdsOf(front);
      AskAllOk(log, front, reopened, refs);
      AskAllMeans(log, front, reopened, refs);
      var mid := AskAll(log, front, reopened, refs).value;
      StillAskable(log, mid, front, last, reopened);
      AskOneOk(mid, last, reopened, refs);
    }
  }

  /** Asking other questions leaves this one fit to be asked. */
  lemma StillAskable(log: seq<Entry>, mid: seq<Entry>, front: seq<Question>, q: Question, reopened: set<Id>)
    requires Askable(log, q, reopened) && q.id !in IdsOf(front)
    requires forall x :: x in front ==> Standing(History(log, x.id), History(mid, x.id), x, x.id in reopened)
    requires forall id :: id !in IdsOf(front) ==> History(mid, id) == History(log, id)
    requires forall x :: x in front && Latest(log, q.id).None? && Latest(log, x.id).None? ==> x.key != q.key
    ensures Askable(mid, q, reopened)
  {
    hide History, Standing;
    assert Latest(mid, q.id) == Latest(log, q.id);
    if Latest(log, q.id).None? && q.id !in reopened {
      forall x | Latest(mid, x).Some?
        ensures Latest(mid, x).value.key != q.key
      {
        assert Latest(log, x).Some? ==> Latest(log, x).value.key != q.key;
        if x in IdsOf(front) {
          var f :| f in front && f.id == x;
          assert Standing(History(log, f.id), History(mid, f.id), f, f.id in reopened);
          if x in reopened {
            ReopenedStands(History(log, x), History(mid, x), f);
          } else {
            StandingIsOpen(History(log, x), History(mid, x), f);
            assert History(log, x) == [] ==> Latest(log, f.id).None?;
          }
        } else {
          assert History(mid, x) == History(log, x);
        }
      }
    }
  }

  lemma ReopenedStands(before: seq<Entry>, after: seq<Entry>, q: Question)
    requires Standing(before, after, q, true)
    ensures after == before
  {
  }

  // ----- specifications and threads --------------------------------------------------------------

  predicate HasDefault(defaults: seq<Default>, id: Id) {
    exists i :: 0 <= i < |defaults| && defaults[i].id == id
  }

  /** Union by identifier: the order of first appearance, the newest wording. */
  function Merged(existing: seq<Default>, incoming: seq<Default>): seq<Default>
    decreases |incoming|
  {
    if incoming == [] then existing
    else
      Put(Merged(existing, incoming[..|incoming| - 1]), incoming[|incoming| - 1])
  }

  function Reworded(defaults: seq<Default>, d: Default): (r: seq<Default>)
    ensures |r| == |defaults|
    ensures forall i :: 0 <= i < |r| ==> r[i] == if defaults[i].id == d.id then d else defaults[i]
  {
    seq(|defaults|, i requires 0 <= i < |defaults| => if defaults[i].id == d.id then d else defaults[i])
  }

  predicate DistinctDefaults(defaults: seq<Default>) {
    forall i, j :: 0 <= i < j < |defaults| ==> defaults[i].id != defaults[j].id
  }

  /** What the union of two lists of defaults is. */
  ghost predicate Union(existing: seq<Default>, incoming: seq<Default>, m: seq<Default>) {
    && DistinctDefaults(m) && |existing| <= |m|
    && (forall i :: 0 <= i < |existing| ==> m[i].id == existing[i].id)
    && (forall id :: HasDefault(m, id) <==> HasDefault(existing, id) || HasDefault(incoming, id))
    && (DistinctDefaults(incoming) ==> forall d :: d in incoming ==> d in m)
    && (forall d :: d in existing && !HasDefault(incoming, d.id) ==> d in m)
  }

  /** A default the user has been shown never disappears, and the newest statement of it stands. */
  lemma {:induction false} MergedMeans(existing: seq<Default>, incoming: seq<Default>)
    requires DistinctDefaults(existing)
    ensures Union(existing, incoming, Merged(existing, incoming))
    decreases |incoming|
  {
    hide Union, DistinctDefaults, HasDefault;
    if incoming == [] {
      EmptyUnion(existing);
    } else {
      var front := incoming[..|incoming| - 1];
      MergedMeans(existing, front);
      MergedStep(existing, front, incoming[|incoming| - 1], Merged(existing, front));
      assert incoming == front + [incoming[|incoming| - 1]];
    }
  }

  lemma EmptyUnion(existing: seq<Default>)
    requires DistinctDefaults(existing)
    ensures Union(existing, [], existing)
  {
  }

  function Put(m: seq<Default>, d: Default): seq<Default> {
    if HasDefault(m, d.id) then Reworded(m, d) else m + [d]
  }

  /** Putting one default in: its place is kept, its newest wording stands, the others stay. */
  lemma PutMeans(m: seq<Default>, d: Default)
    requires DistinctDefaults(m)
    ensures DistinctDefaults(Put(m, d)) && |m| <= |Put(m, d)| && d in Put(m, d)
    ensures forall i :: 0 <= i < |m| ==> Put(m, d)[i].id == m[i].id
    ensures forall id :: HasDefault(Put(m, d), id) <==> HasDefault(m, id) || id == d.id
    ensures forall x :: x in m && x.id != d.id ==> x in Put(m, d)
  {
    var next := Put(m, d);
    if HasDefault(m, d.id) {
      var i :| 0 <= i < |m| && m[i].id == d.id;
      assert next[i] == d;
      forall id
        ensures HasDefault(next, id) <==> HasDefault(m, id)
      {
        RewordedKeeps(m, d, id);
      }
    } else {
      DefaultsAppend(m, d);
      assert next[|m|] == d;
    }
    forall x | x in m && x.id != d.id
      ensures x in next
    {
      var i :| 0 <= i < |m| && m[i] == x;
      assert next[i] == x;
    }
  }

  lemma MergedStep(existing: seq<Default>, front: seq<Default>, d: Default, m: seq<Default>)
    requires Union(existing, front, m)
    ensures Union(existing, front + [d], Put(m, d))
  {
    hide HasDefault, Put;
    PutMeans(m, d);
    DefaultsAppend(front, d);
    FrontDistinct(front, d);
  }

  lemma FrontDistinct(front: seq<Default>, d: Default)
    ensures DistinctDefaults(front + [d]) ==> DistinctDefaults(front) && forall x :: x in front ==> x.id != d.id
  {
    if DistinctDefaults(front + [d]) {
      assert forall i :: 0 <= i < |front| ==> (front + [d])[i] == front[i];
      assert (front + [d])[|front|] == d;
    }
  }

  lemma DefaultsAppend(defaults: seq<Default>, d: Default)
    ensures forall id :: HasDefault(defaults + [d], id) <==> HasDefault(defaults, id) || id == d.id
  {
    var all := defaults + [d];
    assert all[|defaults|] == d;
    assert forall i :: 0 <= i < |defaults| ==> all[i] == defaults[i];
  }

  lemma RewordedKeeps(m: seq<Default>, d: Default, id: Id)
    requires HasDefault(m, d.id)
    ensures HasDefault(Reworded(m, d), id) <==> HasDefault(m, id)
  {
    var r := Reworded(m, d);
    assert forall i :: 0 <= i < |m| ==> r[i].id == m[i].id;
  }

  /** `_merge_defaults`, with its table and its order of first appearance. */
  method MergeDefaults(existing: seq<Default>, incoming: seq<Default>) returns (merged: seq<Default>)
    ensures merged == Merged(existing, incoming)
  {
    merged := existing;
    var k := 0;
    while k < |incoming|
      invariant 0 <= k <= |incoming|
      invariant merged == Merged(existing, incoming[..k])
    {
      assert incoming[..k + 1][..k] == incoming[..k];
      merged := if HasDefault(merged, incoming[k].id) then Reworded(merged, incoming[k]) else merged + [incoming[k]];
      k := k + 1;
    }
    assert incoming[..k] == incoming;
  }

  function SpecsAfter(specs: seq<Spec>, spec: Spec): seq<Spec> {
    if specs == [] then [spec]
    else
      var n := |specs| - 1;
      specs[n := specs[n].(status := SupersededSpec)] + [spec.(defaults := Merged(specs[n].defaults, spec.defaults))]
  }

  function LastActive(threads: seq<Thread>): Option<Thread> {
    if threads == [] then None
    else if threads[|threads| - 1].status.ActiveThread? then Some(threads[|threads| - 1])
    else LastActive(threads[..|threads| - 1])
  }

  function ThreadsAfter(threads: seq<Thread>, p: Proposal): Result<seq<Thread>, Refusal> {
    var active := LastActive(threads);
    if p.createdThread then
      if active.Some? then Failure(ThreadMismatch) else Success(threads + [Thread(|threads| + 1, ActiveThread, p.thread)])
    else if active.None? || active.value.id != p.thread then Failure(ThreadMismatch)
    else Success(threads)
  }

  // ----- the round -----------------------------------------------------------------------------------

  /** `_apply_proposal` on a repaired proposal. */
  function Applied(s: Session, p: Proposal, status: Status, pending: seq<Question>, c: Convergence): Result<Session, Refusal> {
    if !(ReopenIds(p.reopens) <= IdsOf(p.questions)) then Failure(ReopenWithoutQuestion)
    else
      var reopened :- ReopenAll(s.decisions, p.reopens, p.questions);
      var asked :- AskAll(reopened, p.questions, ReopenIds(p.reopens), p.spec.refs);
      var threads :- ThreadsAfter(s.threads, p);
      Success(Session(s.revision + 1, status, SpecsAfter(s.specs, p.spec), asked, Without(p.questions, IdsOf(pending)), pending, threads, c))
  }

  /** The first loop: reopened decisions. Distinct requests, so each is looked up as it was before. */
  method ReopenDecisions(log: seq<Entry>, reopens: seq<Reopen>, questions: seq<Question>) returns (r: Result<seq<Entry>, Refusal>)
    requires DistinctReopens(reopens) && ReopenIds(reopens) <= IdsOf(questions)
    ensures r == ReopenAll(log, reopens, questions)
  {
    hide History, Succeeded, Reopened, QuestionFor;
    var decisions := log;
    var k := 0;
    while k < |reopens|
      invariant 0 <= k <= |reopens|
      invariant ReopenIds(reopens[..k]) <= IdsOf(questions)
      invariant ReopenAll(log, reopens[..k], questions) == Success(decisions)
    {
      var request := reopens[k];
      assert request.id in ReopenIds(reopens);
      assert reopens[..k + 1][..k] == reopens[..k];
      ReopenIdsSnoc(reopens, k);
      var current := Latest(decisions, request.id);
      if current.None? || !current.value.status.Resolved? {
        ReopensStayRefused(log, reopens, questions, k + 1);
        return Failure(ReopenUnresolved);
      }
      decisions := Succeeded(decisions, request.id, Retired(current.value),
                             Reopened(current.value, QuestionFor(questions, request.id), request));
      k := k + 1;
    }
    assert reopens[..k] == reopens;
    return Success(decisions);
  }

  /** The second loop: new and reworded questions. */
  method AskQuestions(log: seq<Entry>, questions: seq<Question>, reopened: set<Id>, refs: set<Id>)
    returns (r: Result<seq<Entry>, Refusal>)
    requires DistinctIds(questions)
    ensures r == AskAll(log, questions, reopened, refs)
  {
    hide History, NewDecision;
    var decisions := log;
    var k := 0;
    while k < |questions|
      invariant 0 <= k <= |questions|
      invariant AskAll(log, questions[..k], reopened, refs) == Success(decisions)
    {
      assert questions[..k + 1][..k] == questions[..k];
      var question := questions[k];
      if question.id !in reopened {
        var current := Latest(decisions, question.id);
        if current.None? {
          decisions := decisions + [NewDecision(question, refs)];
        } else if current.value.status.Open? {
          if current.value.question != question {
            decisions := decisions[LatestIndex(decisions, question.id) := current.value.(question := question)];
          }
        } else {
          QuestionsStayRefused(log, questions, reopened, refs, k + 1);
          return Failure(RepeatedWithoutReopen);
        }
      }
      k := k + 1;
    }
    assert questions[..k] == questions;
    return Success(decisions);
  }

  method ApplyProposal(s: Session, p: Proposal, status: Status, pending: seq<Question>, c: Convergence)
    returns (r: Result<Session, Refusal>)
    requires DistinctReopens(p.reopens) && DistinctIds(p.questions)
    ensures r == Applied(s, p, status, pending, c)
  {
    hide ReopenAll, AskAll, Merged, LastActive;
    var reopened := ReopenIds(p.reopens);
    if !(reopened <= IdsOf(p.questions)) { return Failure(ReopenWithoutQuestion); }
    var decisions := ReopenDecisions(s.decisions, p.reopens, p.questions);
    if decisions.Failure? { return Failure(decisions.error); }
    decisions := AskQuestions(decisions.value, p.questions, reopened, p.spec.refs);
    if decisions.Failure? { return Failure(decisions.error); }
    var specs := s.specs;
    var specification := p.spec;
    if specs != [] {
      var n := |specs| - 1;
      var defaults := MergeDefaults(specs[n].defaults, specification.defaults);
      specification := specification.(defaults := defaults);
      specs := specs[n := specs[n].(status := SupersededSpec)];
    }
    specs := specs + [specification];
    var threads := ThreadsAfter(s.threads, p);
    if threads.Failure? { return Failure(threads.error); }
    assert specs == SpecsAfter(s.specs, p.spec);
    r := Success(Session(s.revision + 1, status, specs, decisions.value, Without(p.questions, IdsOf(pending)), pending,
                         threads.value, c));
  }

  lemma ReopenIdsSnoc(reopens: seq<Reopen>, k: nat)
    requires k < |reopens|
    ensures ReopenIds(reopens[..k + 1]) == ReopenIds(reopens[..k]) + {reopens[k].id}
  {
    assert reopens[..k + 1] == reopens[..k] + [reopens[k]];
  }

  lemma {:induction false} ReopensStayRefused(log: seq<Entry>, reopens: seq<Reopen>, questions: seq<Question>, k: nat)
    requires k <= |reopens| && ReopenIds(reopens) <= IdsOf(questions) && ReopenIds(reopens[..k]) <= IdsOf(questions)
    requires ReopenAll(log, reopens[..k], questions).Failure?
    ensures ReopenAll(log, reopens, questions) == ReopenAll(log, reopens[..k], questions)
    decreases |reopens|
  {
    hide ReopenOne;
    if k == |reopens| {
      assert reopens[..k] == reopens;
    } else {
      assert reopens[..|reopens| - 1][..k] == reopens[..k];
      assert forall r :: r in reopens[..|reopens| - 1] ==> r.id in ReopenIds(reopens);
      ReopensStayRefused(log, reopens[..|reopens| - 1], questions, k);
    }
  }

  lemma {:induction false} QuestionsStayRefused(log: seq<Entry>, questions: seq<Question>, reopened: set<Id>, refs: set<Id>, k: nat)
    requires k <= |questions| && AskAll(log, questions[..k], reopened, refs).Failure?
    ensures AskAll(log, questions, reopened, refs) == AskAll(log, questions[..k], reopened, refs)
    decreases |questions|
  {
    hide AskOne;
    if k == |questions| {
      assert questions[..k] == questions;
    } else {
      assert questions[..|questions| - 1][..k] == questions[..k];
      QuestionsStayRefused(log, questions[..|questions| - 1], reopened, refs, k);
    }
  }
}
