/**
 What the verdicts of a candidate's checks decide: which candidates may be judged and
 which may be selected, said on the recorded verdicts themselves.
 */
module RecordVerdicts {
  import opened Wrappers
  import opened RecordModel
  import opened RecordRules
  import opened RecordInvariant
  import opened RecordSteps
  import opened RecordRuns

  /** Every check of the list has been completed. */
  ghost predicate AllCompleted(checks: map<Id, Check>, list: seq<Id>) {
    forall c :: c in list ==> c in checks && checks[c].completed.Some?
  }

  /** No check of the list ended in this verdict. */
  ghost predicate NoneIs(checks: map<Id, Check>, list: seq<Id>, v: Verdict) {
    forall c :: c in list ==> c in checks ==> checks[c].verdict != Some(v)
  }

  /** Fit to be judged: all checks completed, no instrument failed, and in v1 no hard defect found. */
  ghost predicate MayBeJudged(v11: bool, checks: map<Id, Check>, list: seq<Id>) {
    && AllCompleted(checks, list) && NoneIs(checks, list, InstrumentFailure)
    && (!v11 ==> NoneIs(checks, list, HardDefect))
  }

  /** Fit to be selected: fit to be judged, and in 1.1 without hard defect or objection. */
  ghost predicate MayBeSelected(v11: bool, checks: map<Id, Check>, list: seq<Id>) {
    && MayBeJudged(v11, checks, list)
    && (v11 ==> NoneIs(checks, list, HardDefect) && NoneIs(checks, list, Objection))
  }

  /** The five statuses, each by the verdicts it stands for. */
  lemma StatusMeans(v11: bool, checks: map<Id, Check>, list: seq<Id>)
    ensures StatusOf(v11, checks, list) == Provisional <==> !AllCompleted(checks, list)
    ensures StatusOf(v11, checks, list) == Rejected <==>
              !v11 && AllCompleted(checks, list) && !NoneIs(checks, list, HardDefect)
    ensures StatusOf(v11, checks, list) == Blocked_ <==>
              && AllCompleted(checks, list) && !NoneIs(checks, list, InstrumentFailure)
              && (v11 || NoneIs(checks, list, HardDefect))
    ensures StatusOf(v11, checks, list) == Conditional <==>
              && v11 && AllCompleted(checks, list) && NoneIs(checks, list, InstrumentFailure)
              && !(NoneIs(checks, list, HardDefect) && NoneIs(checks, list, Objection))
    ensures StatusOf(v11, checks, list) == Eligible <==> MayBeSelected(v11, checks, list)
    ensures Judgeable(v11, StatusOf(v11, checks, list)) <==> MayBeJudged(v11, checks, list)
  {
  }

  /** A judgement may be requested exactly for a known candidate, cited by its hash, that is fit to be judged. */
  lemma JudgementRequestIff(l: Ledger, e: Event)
    requires e.body.JudgementRequested?
    ensures CanRequestJudgement(l, e) <==>
            && e.body.judgement !in l.judgements
            && e.body.candidate in l.candidates && e.body.sha == l.candidates[e.body.candidate].sha
            && e.body.requester in {System, Human} && e.actor == e.body.requester
            && MayBeJudged(l.IsV11(), l.checks, l.candidates[e.body.candidate].required)
  {
    if e.body.candidate in l.candidates {
      StatusMeans(l.IsV11(), l.checks, l.candidates[e.body.candidate].required);
    }
  }

  /** A judgement may be completed exactly once, by its own judge call, while the candidate is fit to be judged. */
  lemma JudgementCompletionIff(l: Ledger, e: Event)
    requires e.body.JudgementCompleted?
    ensures CanCompleteJudgement(l, e) <==>
            && e.actor.Judge? && e.body.judgement in l.judgements && e.body.candidate in l.candidates
            && l.judgements[e.body.judgement] == Judgement(e.body.candidate, e.body.sha, None, l.judgements[e.body.judgement].call)
            && e.body.call in l.calls && l.calls[e.body.call].role.JudgeRole?
            && l.calls[e.body.call].target == JudgeTarget(e.body.judgement)
            && l.calls[e.body.call].state in (if e.body.judgementVerdict.JudgeInstrumentFailure? then {Failed, Aborted} else {Finished})
            && MayBeJudged(l.IsV11(), l.checks, l.candidates[e.body.candidate].required)
  {
    if e.body.candidate in l.candidates {
      StatusMeans(l.IsV11(), l.checks, l.candidates[e.body.candidate].required);
    }
  }

  /** A selection is the run's only one, of a candidate that passed its judgement and is fit to be selected. */
  lemma SelectionIff(l: Ledger, e: Event)
    requires e.body.SelectionRecorded?
    ensures CanSelect(l, e) <==>
            && l.selections == map[]
            && e.body.candidate in l.candidates && e.body.sha == l.candidates[e.body.candidate].sha
            && e.body.judgement in l.judgements
            && l.judgements[e.body.judgement] == Judgement(e.body.candidate, e.body.sha, Some(Pass), l.judgements[e.body.judgement].call)
            && (match e.actor
                case Human =>
                  && e.body.humanAction.Some? && e.body.humanAction.value in l.actions
                  && l.actions[e.body.humanAction.value].kind == SelectCandidate
                  && l.actions[e.body.humanAction.value].target == OnCandidate(e.body.candidate)
                case System => e.body.humanAction.None?
                case _ => false)
            && MayBeSelected(l.IsV11(), l.checks, l.candidates[e.body.candidate].required)
  {
    if e.body.candidate in l.candidates {
      StatusMeans(l.IsV11(), l.checks, l.candidates[e.body.candidate].required);
    }
  }

  /**
   In every accepted log, whatever came after the judgement was requested: each required
   check of a judged candidate is completed, none by an instrument failure, and in v1 none
   with a hard defect.
   */
  lemma JudgedAreClean(codec: Codec, log: seq<Event>, j: Id)
    requires Fold(codec, log).Some? && j in Fold(codec, log).value.judgements
    ensures var l := Fold(codec, log).value;
            && l.judgements[j].candidate in l.candidates
            && forall c :: c in l.candidates[l.judgements[j].candidate].required ==>
                 && c in l.checks && l.checks[c].completed.Some?
                 && l.checks[c].verdict != Some(InstrumentFailure)
                 && (l.version == Some(V1) ==> l.checks[c].verdict != Some(HardDefect))
  {
    hide Fold, StatusOf, Judgeable;
    FoldOk(codec, log);
    hide Slotted, Homed, Forks, Histories, Calls, Origins, RevisionsDistinct, VersionOk, Checks, Snapshots, Frozen,
         Selected, Budgets, Actions, HumanBranches;
    var l := Fold(codec, log).value;
    StatusMeans(l.IsV11(), l.checks, l.candidates[l.judgements[j].candidate].required);
  }

  /** And a selected candidate passed its judgement, with no hard defect, and in 1.1 no objection, left standing. */
  lemma SelectedAreClean(codec: Codec, log: seq<Event>, s: Id)
    requires Fold(codec, log).Some? && s in Fold(codec, log).value.selections
    ensures var l := Fold(codec, log).value;
            && l.selections[s].candidate in l.candidates && l.selections[s].judgement in l.judgements
            && l.judgements[l.selections[s].judgement].candidate == l.selections[s].candidate
            && l.judgements[l.selections[s].judgement].verdict == Some(Pass)
            && forall c :: c in l.candidates[l.selections[s].candidate].required ==>
                 && c in l.checks && l.checks[c].completed.Some?
                 && (l.checks[c].verdict == Some(Ok) || (l.version != Some(V1_1) && l.checks[c].verdict == Some(Objection)))
  {
    hide Fold, StatusOf, MayBeSelected;
    FoldOk(codec, log);
    hide Slotted, Homed, Forks, Histories, Calls, Origins, RevisionsDistinct, VersionOk, Snapshots, Frozen, Judged,
         Budgets, Actions, HumanBranches, Checks;
    var l := Fold(codec, log).value;
    StatusMeans(l.IsV11(), l.checks, l.candidates[l.selections[s].candidate].required);
    VerdictsLeft(l.IsV11(), l.steps, l.checks, l.count, l.candidates[l.selections[s].candidate].required);
  }

  lemma VerdictsLeft(v11: bool, steps: map<Id, StepRevision>, checks: map<Id, Check>, n: nat, list: seq<Id>)
    requires MayBeSelected(v11, checks, list) && Checks(steps, checks, n)
    ensures forall c :: c in list ==>
              && c in checks && checks[c].completed.Some?
              && (checks[c].verdict == Some(Ok) || (!v11 && checks[c].verdict == Some(Objection)))
  {
    forall c | c in list
      ensures c in checks && checks[c].completed.Some?
      ensures checks[c].verdict == Some(Ok) || (!v11 && checks[c].verdict == Some(Objection))
    {
      assert c in checks && CheckOk(steps, checks[c], n);
      assert checks[c].verdict != Some(InstrumentFailure) && checks[c].verdict != Some(HardDefect);
      assert v11 ==> checks[c].verdict != Some(Objection);
      TwoLeft(checks[c].verdict);
    }
  }

  lemma TwoLeft(v: Option<Verdict>)
    requires v.Some? && v != Some(InstrumentFailure) && v != Some(HardDefect)
    ensures v == Some(Ok) || v == Some(Objection)
  {
    var w := v.value;
    assert w.Ok? || w.Objection? || w.HardDefect? || w.InstrumentFailure?;
  }

  /** The final checks, of any ledger: a run, no call in flight, and every selection still of a clean candidate that passed. */
  lemma FinalChecksIff(l: Ledger)
    ensures FinalChecks(l) <==>
            && l.run.Some?
            && (forall c :: c in l.calls ==> l.calls[c].state != Started)
            && (forall s :: s in l.selections ==>
                  && l.selections[s].candidate in l.candidates
                  && MayBeSelected(l.IsV11(), l.checks, l.candidates[l.selections[s].candidate].required)
                  && l.selections[s].judgement in l.judgements
                  && l.judgements[l.selections[s].judgement].verdict == Some(Pass))
  {
    hide StatusOf, MayBeSelected, Judgeable, MayBeJudged;
    forall s | s in l.selections && l.selections[s].candidate in l.candidates
      ensures CandidateStatusIn(l, l.candidates[l.selections[s].candidate]) == Eligible <==>
              MayBeSelected(l.IsV11(), l.checks, l.candidates[l.selections[s].candidate].required)
    {
      StatusMeans(l.IsV11(), l.checks, l.candidates[l.selections[s].candidate].required);
    }
  }

  // ----- declarations ------------------------------------------------------------------------

  /** Each listed check with an objection or a hard defect, as often as it is listed, and nothing else. */
  lemma {:induction false} UnresolvedMeans(checks: map<Id, Check>, list: seq<Id>, c: Id)
    ensures multiset(Unresolved(checks, list))[c] ==
            if c in checks && checks[c].verdict in {Some(Objection), Some(HardDefect)} then multiset(list)[c] else 0
  {
    if list != [] {
      UnresolvedMeans(checks, list[1..], c);
      assert list == [list[0]] + list[1..];
    }
  }

  /**
   What a declaration must freeze: the branch's whole transcript, every required check whose
   target lies on it once each, and in 1.1 those among them with an objection or a hard defect.
   */
  lemma DeclaredMeans(codec: Codec, l: Ledger, e: Event)
    requires e.body.CandidateDeclared? && CanDeclare(codec, l, e)
    ensures e.body.branch in l.branches && l.branches[e.body.branch].status.Completed?
    ensures e.body.transcript == l.branches[e.body.branch].steps && e.body.transcript != []
    ensures forall c :: multiset(e.body.requiredChecks)[c] ==
                        if c in l.checks && l.checks[c].required && l.checks[c].target in e.body.transcript then 1 else 0
    ensures l.IsV11() ==>
              forall c :: multiset(e.body.unresolved)[c] ==
                          if c in e.body.requiredChecks && l.checks[c].verdict in {Some(Objection), Some(HardDefect)} then 1 else 0
  {
    hide Unresolved;
    forall c
      ensures multiset(e.body.requiredChecks)[c] ==
              if c in l.checks && l.checks[c].required && l.checks[c].target in e.body.transcript then 1 else 0
    {
      assert multiset(e.body.requiredChecks)[c] == multiset(RequiredChecks(l.checks, e.body.transcript))[c];
    }
    if l.IsV11() {
      forall c
        ensures multiset(e.body.unresolved)[c] ==
                if c in e.body.requiredChecks && l.checks[c].verdict in {Some(Objection), Some(HardDefect)} then 1 else 0
      {
        UnresolvedMeans(l.checks, e.body.requiredChecks, c);
        assert multiset(e.body.unresolved)[c] == multiset(Unresolved(l.checks, e.body.requiredChecks))[c];
        assert c in e.body.requiredChecks <==> multiset(e.body.requiredChecks)[c] > 0;
      }
    }
  }
}
