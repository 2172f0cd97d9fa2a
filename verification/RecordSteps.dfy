/**
 Every handler keeps the invariant and only grows the ledger: one lemma per event
 that touches several maps, and one for every accepted event.
 */
module RecordSteps {
  import opened Wrappers
  import opened RecordModel
  import opened RecordRules
  import opened RecordInvariant
  import opened RecordGrowth

  /** The change from l to l' is one an accepted event may make. */
  ghost predicate Good(codec: Codec, l: Ledger, l': Ledger, n: nat) {
    Grew(l, l') && Inv(codec, l', n + 1)
  }

  lemma GrewSelf(l: Ledger)
    ensures Grew(l, l)
  {
  }

  // ----- human actions, sources, the run ------------------------------------------

  lemma ActionAdded(codec: Codec, l: Ledger, e: Event, n: nat)
    requires Inv(codec, l, n) && e.seq_ == n + 1 && e.body.HumanActionRecorded? && CanHumanAction(codec, l, e)
    ensures Actions(l.branches, l.steps, l.calls, l.candidates, AfterHumanAction(l, e).actions, n + 1)
    ensures HumanBranches(l.branches, AfterHumanAction(l, e).actions)
    ensures Kept(l.actions, AfterHumanAction(l, e).actions)
  {
    hide Slotted, Homed, Forks, Histories, Calls, Origins, RevisionsDistinct, VersionOk, Checks, Snapshots, Frozen, Judged,
         Selected, Budgets;
    KeepActions(l.branches, l.steps, l.calls, l.candidates, l.branches, l.steps, l.calls, l.candidates, l.actions, n);
  }

  lemma HumanActionGood(codec: Codec, l: Ledger, e: Event, n: nat)
    requires Inv(codec, l, n) && e.seq_ == n + 1 && e.body.HumanActionRecorded? && CanHumanAction(codec, l, e)
    ensures Good(codec, l, AfterHumanAction(l, e), n)
  {
    hide Slotted, Homed, Forks, Histories, Calls, Origins, RevisionsDistinct, VersionOk, Checks, Snapshots, Frozen, Judged,
         Selected, Budgets, Actions, HumanBranches;
    hide Kept, BranchesGrew, CallsGrew, ChecksGrew, JudgementsGrew, CanHumanAction;
    var l' := AfterHumanAction(l, e);
    GrewSelf(l);
    ActionAdded(codec, l, e, n);
    CoreKept(codec, l, l, n);
    KeepOrigins(codec, l.branches, l.calls, l.actions, l.steps, l.branches, l.calls, l'.actions, l.steps);
  }

  lemma CoreKept(codec: Codec, l: Ledger, l': Ledger, n: nat)
    requires Inv(codec, l, n)
    requires l'.branches == l.branches && l'.steps == l.steps && l'.actions == l.actions
    requires l.calls.Keys <= l'.calls.Keys && l.candidates.Keys <= l'.candidates.Keys
    ensures Histories(l'.branches, n + 1)
    ensures Checks(l.steps, l.checks, n + 1)
    ensures Actions(l'.branches, l'.steps, l'.calls, l'.candidates, l'.actions, n + 1)
  {
    hide Slotted, Homed, Forks, Calls, Origins, RevisionsDistinct, VersionOk, Snapshots, Frozen, Judged, Selected, Budgets;
    KeepHistories(l.branches, l.branches, n);
    KeepChecks(l.steps, l.checks, l.steps, l.checks, n);
    KeepActions(l.branches, l.steps, l.calls, l.candidates, l'.branches, l'.steps, l'.calls, l'.candidates, l.actions, n);
  }

  // ----- calls --------------------------------------------------------------------

  /** Calls may be added or advanced; nothing else changes. */
  lemma CallsGood(codec: Codec, l: Ledger, cl': map<Id, Call>, n: nat)
    requires Inv(codec, l, n)
    requires CallsGrew(l.steps, l.calls, cl')
    requires forall c :: c in cl' ==> (c in l.calls && cl'[c] == l.calls[c]) || CallOk(codec, l.branches, cl'[c])
    requires Budgets(l.run, l.branches, cl')
    ensures Good(codec, l, l.(calls := cl'), n)
    ensures Inv(codec, l.(calls := cl'), n)
  {
    hide Slotted, Homed, Forks, Histories, Calls, Origins, RevisionsDistinct, VersionOk, Checks, Snapshots, Frozen, Judged,
         Selected, Budgets, Actions, HumanBranches;
    hide CallOk, Kept, BranchesGrew, CallsGrew, ChecksGrew, JudgementsGrew;
    var l' := l.(calls := cl');
    GrewSelf(l);
    CallsStay(l, cl');
    CoreKept(codec, l, l', n);
    CallsKeepActions(l, cl', n);
    KeepCalls(codec, l.branches, l.calls, l.branches, cl');
    KeepOrigins(codec, l.branches, l.calls, l.actions, l.steps, l.branches, cl', l.actions, l.steps);
  }

  lemma CallsStay(l: Ledger, cl': map<Id, Call>)
    requires CallsGrew(l.steps, l.calls, cl')
    ensures forall c :: c in l.calls ==> c in cl'
  {
  }

  lemma CallsKeepActions(l: Ledger, cl': map<Id, Call>, n: nat)
    requires Actions(l.branches, l.steps, l.calls, l.candidates, l.actions, n)
    requires forall c :: c in l.calls ==> c in cl'
    ensures Actions(l.branches, l.steps, cl', l.candidates, l.actions, n)
  {
    forall a | a in l.actions
      ensures ActionOk(l.branches, l.steps, cl', l.candidates, l.actions[a], n)
    {
      assert ActionOk(l.branches, l.steps, l.calls, l.candidates, l.actions[a], n);
    }
  }

  lemma UpdatedCallGood(codec: Codec, l: Ledger, c: Id, call: Call, n: nat)
    requires Inv(codec, l, n) && c in l.calls && CallGrew(l.calls[c], call) && CallOk(codec, l.branches, call)
    requires Materialized(l.steps, c) ==> WriterOutputSha(call) == WriterOutputSha(l.calls[c])
    ensures Good(codec, l, l.(calls := l.calls[c := call]), n)
    ensures Inv(codec, l.(calls := l.calls[c := call]), n)
  {
    hide Slotted, Homed, Forks, Histories, Origins, RevisionsDistinct, VersionOk, Checks, Snapshots, Frozen, Judged,
         Selected, Actions, HumanBranches, CallGrew, CallOk, Good, Materialized;
    SameSize(l.calls, c, call);
    OneCallGrew(l.steps, l.calls, c, call);
    CallsGood(codec, l, l.calls[c := call], n);
  }

  lemma OneCallGrew(steps: map<Id, StepRevision>, calls: map<Id, Call>, c: Id, call: Call)
    requires c in calls && CallGrew(calls[c], call)
    requires Materialized(steps, c) ==> WriterOutputSha(call) == WriterOutputSha(calls[c])
    ensures CallsGrew(steps, calls, calls[c := call])
  {
  }

  lemma SameSize(calls: map<Id, Call>, c: Id, call: Call)
    requires c in calls
    ensures |calls[c := call]| == |calls|
  {
    assert calls[c := call].Keys == calls.Keys;
    assert |calls[c := call].Keys| == |calls.Keys|;
  }

  lemma UnknownIsUncited(codec: Codec, l: Ledger, c: Id, n: nat)
    requires Inv(codec, l, n) && c !in l.calls
    ensures !Materialized(l.steps, c)
  {
    hide Slotted, Homed, Forks, Histories, Calls, RevisionsDistinct, VersionOk, Checks, Snapshots, Frozen, Judged,
         Selected, Budgets, Actions, HumanBranches;
    forall s | s in l.steps
      ensures l.steps[s].origin != ModelOrigin(c)
    {
      assert OriginFact(codec, l.branches, l.calls, l.actions, l.steps[s]);
    }
  }

  lemma BudgetForOneMore(l: Ledger, e: Event)
    requires Budgets(l.run, l.branches, l.calls) && e.body.ModelCallStarted? && CanStartCall(l, e)
    ensures Budgets(l.run, l.branches, AfterStartCall(l, e).calls)
  {
    assert AfterStartCall(l, e).calls.Keys == l.calls.Keys + {e.body.call};
  }

  lemma StartedIsSound(codec: Codec, l: Ledger, e: Event)
    requires e.body.ModelCallStarted? && CanStartCall(l, e)
    ensures CallOk(codec, l.branches, AfterStartCall(l, e).calls[e.body.call])
  {
  }

  lemma StartCallGood(codec: Codec, l: Ledger, e: Event, n: nat)
    requires Inv(codec, l, n) && e.seq_ == n + 1 && e.body.ModelCallStarted? && CanStartCall(l, e)
    ensures Good(codec, l, AfterStartCall(l, e), n)
  {
    hide Slotted, Homed, Forks, Histories, Calls, Origins, RevisionsDistinct, VersionOk, Checks, Snapshots, Frozen, Judged,
         Selected, Budgets, Actions, HumanBranches;
    hide CallOk, TargetOk;
    UnknownIsUncited(codec, l, e.body.call, n);
    BudgetForOneMore(l, e);
    StartedIsSound(codec, l, e);
    CallsGood(codec, l, AfterStartCall(l, e).calls, n);
  }

  /** A call that is still in flight is cited by no step. */
  lemma OpenIsUncited(codec: Codec, l: Ledger, c: Id, n: nat)
    requires Inv(codec, l, n) && c in l.calls && l.calls[c].state.Started?
    ensures !Materialized(l.steps, c)
  {
    forall s | s in l.steps
      ensures l.steps[s].origin != ModelOrigin(c)
    {
      assert OriginFact(codec, l.branches, l.calls, l.actions, l.steps[s]);
    }
  }

  lemma ChunkGood(codec: Codec, l: Ledger, e: Event, n: nat)
    requires Inv(codec, l, n) && e.seq_ == n + 1 && e.body.ModelCallChunk? && CanChunk(codec, l, e)
    ensures Good(codec, l, AfterChunk(l, e), n)
  {
    OpenIsUncited(codec, l, e.body.call, n);
    assert CallOk(codec, l.branches, l.calls[e.body.call]);
    UpdatedCallGood(codec, l, e.body.call, AfterChunk(l, e).calls[e.body.call], n);
  }

  lemma CloseGood(codec: Codec, l: Ledger, c: Id, s: CallState, o: Output, n: nat)
    requires Inv(codec, l, n) && c in l.calls && l.calls[c].state.Started? && codec.Sound(o) && Terminal(s)
    ensures Good(codec, l, AfterClose(l, c, s, o), n)
  {
    OpenIsUncited(codec, l, c, n);
    assert CallOk(codec, l.branches, l.calls[c]);
    UpdatedCallGood(codec, l, c, Closed(l.calls[c], s, o), n);
  }

  lemma NormalizeGood(codec: Codec, l: Ledger, e: Event, n: nat)
    requires Inv(codec, l, n) && e.seq_ == n + 1 && e.body.WriterOutputNormalized? && CanNormalize(codec, l, e)
    ensures Good(codec, l, AfterNormalize(l, e), n)
  {
    assert CallOk(codec, l.branches, l.calls[e.body.call]);
    UpdatedCallGood(codec, l, e.body.call, AfterNormalize(l, e).calls[e.body.call], n);
  }

  lemma DisposedGood(codec: Codec, l: Ledger, c: Id, d: Disposition, n: nat)
    requires Inv(codec, l, n) && FinishedWriter(l, c) && l.calls[c].disposition.None?
    ensures Good(codec, l, l.(calls := Disposed(l, c, d)), n)
    ensures Inv(codec, l.(calls := Disposed(l, c, d)), n)
  {
    assert CallOk(codec, l.branches, l.calls[c]);
    UpdatedCallGood(codec, l, c, l.calls[c].(disposition := Some(d)), n);
  }

  // ----- checks, candidates, judgements, selections ----------------------------------

  lemma VerdictsAreComplete(steps: map<Id, StepRevision>, checks: map<Id, Check>, n: nat)
    requires Checks(steps, checks, n)
    ensures forall c :: c in checks && checks[c].verdict.Some? ==> checks[c].completed.Some?
  {
    assert forall c :: c in checks ==> CheckOk(steps, checks[c], n);
  }

  lemma ChecksGood(codec: Codec, l: Ledger, ch': map<Id, Check>, n: nat)
    requires Inv(codec, l, n) && ChecksGrew(l.IsV11(), l.candidates, l.checks, ch')
    requires forall c :: c in ch' ==> (c in l.checks && ch'[c] == l.checks[c]) || CheckOk(l.steps, ch'[c], n + 1)
    ensures Good(codec, l, l.(checks := ch'), n)
  {
    hide Slotted, Homed, Forks, Histories, Calls, Origins, RevisionsDistinct, VersionOk, Checks, Snapshots, Frozen, Judged,
         Selected, Budgets, Actions, HumanBranches;
    hide CheckOk, Kept, BranchesGrew, CallsGrew, ChecksGrew, JudgementsGrew;
    var l' := l.(checks := ch');
    GrewSelf(l);
    CoreKept(codec, l, l', n);
    VerdictsAreComplete(l.steps, l.checks, n);
    KeepChecks(l.steps, l.checks, l.steps, ch', n);
    KeepFrozen(l.IsV11(), l.checks, l.candidates, ch', l.candidates);
    KeepJudged(l.IsV11(), l.checks, l.candidates, l.judgements, ch', l.candidates, l.judgements);
    KeepSelected(l.IsV11(), l.checks, l.candidates, l.judgements, l.selections, ch', l.candidates, l.judgements);
  }

  lemma RequestCheckGood(codec: Codec, l: Ledger, e: Event, n: nat)
    requires Inv(codec, l, n) && e.seq_ == n + 1 && e.body.CheckRequested? && CanRequestCheck(l, e)
    ensures Good(codec, l, AfterRequestCheck(l, e), n)
  {
    hide Slotted, Homed, Forks, Histories, Calls, Origins, RevisionsDistinct, VersionOk, Checks, Snapshots, Frozen, Judged,
         Selected, Budgets, Actions, HumanBranches;
    ChecksGood(codec, l, AfterRequestCheck(l, e).checks, n);
  }

  lemma UpdatedCheckGood(codec: Codec, l: Ledger, c: Id, check: Check, n: nat)
    requires Inv(codec, l, n) && c in l.checks && CheckGrew(l.IsV11(), l.checks[c], check) && CheckOk(l.steps, check, n + 1)
    ensures Good(codec, l, l.(checks := l.checks[c := check]), n)
  {
    hide Slotted, Homed, Forks, Histories, Calls, Origins, RevisionsDistinct, VersionOk, Checks, Snapshots, Frozen, Judged,
         Selected, Budgets, Actions, HumanBranches;
    ChecksGood(codec, l, l.checks[c := check], n);
  }

  lemma CompleteCheckGood(codec: Codec, l: Ledger, e: Event, n: nat)
    requires Inv(codec, l, n) && e.seq_ == n + 1 && e.body.CheckCompleted? && CanCompleteCheck(codec, l, e)
    ensures Good(codec, l, AfterCompleteCheck(l, e), n)
  {
    hide Slotted, Homed, Forks, Histories, Calls, Origins, RevisionsDistinct, VersionOk, Snapshots, Frozen, Judged,
         Selected, Budgets, Actions, HumanBranches, EvidenceOk;
    assert CheckOk(l.steps, l.checks[e.body.check], n);
    UpdatedCheckGood(codec, l, e.body.check, AfterCompleteCheck(l, e).checks[e.body.check], n);
  }

  lemma RetryCheckGood(codec: Codec, l: Ledger, e: Event, n: nat)
    requires Inv(codec, l, n) && e.seq_ == n + 1 && e.body.CheckRetryAuthorized? && CanRetryCheck(l, e)
    ensures Good(codec, l, AfterRetryCheck(l, e), n)
  {
    hide Slotted, Homed, Forks, Histories, Calls, Origins, RevisionsDistinct, VersionOk, Snapshots, Frozen, Judged,
         Selected, Budgets, Actions, HumanBranches;
    assert CheckOk(l.steps, l.checks[e.body.check], n);
    UpdatedCheckGood(codec, l, e.body.check, AfterRetryCheck(l, e).checks[e.body.check], n);
  }

  lemma MultisetElements(ids: seq<Id>, s: set<Id>)
    requires multiset(ids) == multiset(s)
    ensures (set r | r in ids) == s
  {
    forall r
      ensures r in ids <==> r in s
    {
      assert r in ids <==> r in multiset(ids);
      assert r in s <==> r in multiset(s);
    }
  }

  lemma DeclaredIsSound(codec: Codec, l: Ledger, e: Event)
    requires e.body.CandidateDeclared? && CanDeclare(codec, l, e)
    ensures FrozenOk(l.IsV11(), l.checks, AfterDeclare(l, e).candidates[e.body.candidate])
    ensures Snapshot(codec, l.branches, l.steps, AfterDeclare(l, e).candidates[e.body.candidate])
  {
    var required := RequiredChecks(l.checks, e.body.transcript);
    MultisetElements(e.body.requiredChecks, required);
    forall r | r in e.body.requiredChecks
      ensures r in required
    {
      assert r in set r | r in e.body.requiredChecks;
    }
  }

  lemma DeclareGood(codec: Codec, l: Ledger, e: Event, n: nat)
    requires Inv(codec, l, n) && e.seq_ == n + 1 && e.body.CandidateDeclared? && CanDeclare(codec, l, e)
    ensures Good(codec, l, AfterDeclare(l, e), n)
  {
    hide Slotted, Homed, Forks, Histories, Calls, Origins, RevisionsDistinct, VersionOk, Checks, Snapshots, Frozen, Judged,
         Selected, Budgets, Actions, HumanBranches, FrozenOk, Snapshot;
    hide BranchesGrew, CallsGrew, ChecksGrew, JudgementsGrew;
    var l' := AfterDeclare(l, e);
    GrewSelf(l);
    CoreKept(codec, l, l', n);
    DeclaredIsSound(codec, l, e);
    VerdictsAreComplete(l.steps, l.checks, n);
    KeepSnapshots(codec, l.branches, l.steps, l.candidates, l.branches, l.steps, l'.candidates);
    KeepFrozen(l.IsV11(), l.checks, l.candidates, l.checks, l'.candidates);
    KeepJudged(l.IsV11(), l.checks, l.candidates, l.judgements, l.checks, l'.candidates, l.judgements);
    KeepSelected(l.IsV11(), l.checks, l.candidates, l.judgements, l.selections, l.checks, l'.candidates, l.judgements);
    NoNewChecks(l.IsV11(), l.candidates, l'.candidates, l.checks);
  }

  lemma NoNewChecks(v11: bool, ca: map<Id, Candidate>, ca': map<Id, Candidate>, ch: map<Id, Check>)
    ensures ChecksGrew(v11, ca', ch, ch)
  {
  }

  lemma JudgementsGood(codec: Codec, l: Ledger, ju': map<Id, Judgement>, n: nat)
    requires Inv(codec, l, n) && JudgementsGrew(l.judgements, ju')
    requires forall j :: j in ju' ==>
      (j in l.judgements && JudgementGrew(l.judgements[j], ju'[j]))
      || (ju'[j].candidate in l.candidates && ju'[j].sha == l.candidates[ju'[j].candidate].sha
          && Judgeable(l.IsV11(), CandidateStatusIn(l, l.candidates[ju'[j].candidate])))
    ensures Good(codec, l, l.(judgements := ju'), n)
  {
    hide Slotted, Homed, Forks, Histories, Calls, Origins, RevisionsDistinct, VersionOk, Checks, Snapshots, Frozen, Judged,
         Selected, Budgets, Actions, HumanBranches;
    hide Kept, BranchesGrew, CallsGrew, ChecksGrew, JudgementsGrew, StatusOf;
    var l' := l.(judgements := ju');
    GrewSelf(l);
    CoreKept(codec, l, l', n);
    KeepJudged(l.IsV11(), l.checks, l.candidates, l.judgements, l.checks, l.candidates, ju');
    KeepSelected(l.IsV11(), l.checks, l.candidates, l.judgements, l.selections, l.checks, l.candidates, ju');
  }

  lemma RequestJudgementGood(codec: Codec, l: Ledger, e: Event, n: nat)
    requires Inv(codec, l, n) && e.seq_ == n + 1 && e.body.JudgementRequested? && CanRequestJudgement(l, e)
    ensures Good(codec, l, AfterRequestJudgement(l, e), n)
  {
    hide Slotted, Homed, Forks, Histories, Calls, Origins, RevisionsDistinct, VersionOk, Checks, Snapshots, Frozen, Judged,
         Selected, Budgets, Actions, HumanBranches;
    hide StatusOf;
    JudgementsGood(codec, l, AfterRequestJudgement(l, e).judgements, n);
  }

  lemma CompleteJudgementGood(codec: Codec, l: Ledger, e: Event, n: nat)
    requires Inv(codec, l, n) && e.seq_ == n + 1 && e.body.JudgementCompleted? && CanCompleteJudgement(l, e)
    ensures Good(codec, l, AfterCompleteJudgement(l, e), n)
  {
    hide Slotted, Homed, Forks, Histories, Calls, Origins, RevisionsDistinct, VersionOk, Checks, Snapshots, Frozen, Judged,
         Selected, Budgets, Actions, HumanBranches;
    hide StatusOf;
    JudgementsGood(codec, l, AfterCompleteJudgement(l, e).judgements, n);
  }

  lemma SelectedExtends(l: Ledger, e: Event)
    requires e.body.SelectionRecorded? && CanSelect(l, e)
    ensures Selected(l.IsV11(), l.checks, l.candidates, l.judgements, AfterSelect(l, e).selections)
    ensures Kept(l.selections, AfterSelect(l, e).selections)
  {
  }

  lemma SelectGood(codec: Codec, l: Ledger, e: Event, n: nat)
    requires Inv(codec, l, n) && e.seq_ == n + 1 && e.body.SelectionRecorded? && CanSelect(l, e)
    ensures Good(codec, l, AfterSelect(l, e), n)
  {
    hide Slotted, Homed, Forks, Histories, Calls, Origins, RevisionsDistinct, VersionOk, Checks, Snapshots, Frozen, Judged,
         Selected, Budgets, Actions, HumanBranches;
    hide Kept, BranchesGrew, CallsGrew, ChecksGrew, JudgementsGrew, StatusOf;
    GrewSelf(l);
    CoreKept(codec, l, AfterSelect(l, e), n);
    SelectedExtends(l, e);
  }

  lemma RegisterSourceGood(codec: Codec, l: Ledger, e: Event, n: nat)
    requires Inv(codec, l, n) && e.seq_ == n + 1 && e.body.SourceRegistered? && CanRegisterSource(codec, l, e)
    ensures Good(codec, l, AfterRegisterSource(l, e), n)
  {
    hide Slotted, Homed, Forks, Histories, Calls, Origins, RevisionsDistinct, VersionOk, Checks, Snapshots, Frozen, Judged,
         Selected, Budgets, Actions, HumanBranches;
    hide BranchesGrew, CallsGrew, ChecksGrew, JudgementsGrew;
    GrewSelf(l);
    CoreKept(codec, l, AfterRegisterSource(l, e), n);
  }

  // ----- branches and steps -----------------------------------------------------------

  /** Branches may be added or extended together with new steps; nothing else changes. */
  lemma BranchesGood(codec: Codec, l: Ledger, br': map<Id, Branch>, st': map<Id, StepRevision>, n: nat)
    requires Inv(codec, l, n) && BranchesGrew(l.branches, br') && Kept(l.steps, st')
    requires forall b :: b in br' && b !in l.branches ==> ForkOk(br', st', br'[b])
    requires forall b :: b in br' ==>
      (b in l.branches && br'[b].steps == l.branches[b].steps) || TranscriptOk(st', br'[b].steps)
    requires forall b :: b in br' ==>
      (b in l.branches && br'[b].history == l.branches[b].history && br'[b].status == l.branches[b].status)
      || HistoryOk(br'[b], n + 1)
    requires forall s :: s in st' && s !in l.steps ==> HomeOf(br', s, st'[s]) && OriginFact(codec, br', l.calls, l.actions, st'[s])
    requires RevisionsDistinct(br', st') && VersionOk(l.IsV11(), br') && HumanBranches(br', l.actions)
    requires WithinActiveLimit(l.run, br')
    ensures Good(codec, l, l.(branches := br', steps := st'), n)
  {
    hide Slotted, Homed, Forks, Histories, Calls, Origins, RevisionsDistinct, VersionOk, Checks, Snapshots, Frozen, Judged,
         Selected, Budgets, Actions, HumanBranches;
    hide ForkOk, TranscriptOk, HistoryOk, HomeOf, OriginFact, CallsGrew, ChecksGrew, JudgementsGrew, BranchGrew;
    var l' := l.(branches := br', steps := st');
    GrewSelf(l);
    BornBefore(l.branches, n);
    KeepSlotted(l.branches, l.steps, br', st');
    KeepHomed(l.branches, l.steps, br', st');
    KeepForks(l.branches, l.steps, br', st');
    KeepHistories(l.branches, br', n);
    KeepCalls(codec, l.branches, l.calls, br', l.calls);
    KeepOrigins(codec, l.branches, l.calls, l.actions, l.steps, br', l.calls, l.actions, st');
    KeepChecks(l.steps, l.checks, st', l.checks, n);
    KeepSnapshots(codec, l.branches, l.steps, l.candidates, br', st', l.candidates);
    KeepActions(l.branches, l.steps, l.calls, l.candidates, br', st', l.calls, l.candidates, l.actions, n);
    SameCallBudget(l, br');
  }

  lemma BornBefore(br: map<Id, Branch>, n: nat)
    requires Histories(br, n)
    ensures forall b :: b in br ==> br[b].history != [] && Born(br[b]) <= n
  {
    forall b | b in br
      ensures br[b].history != [] && Born(br[b]) <= n
    {
      assert HistoryOk(br[b], n);
    }
  }

  lemma SameCallBudget(l: Ledger, br': map<Id, Branch>)
    requires Budgets(l.run, l.branches, l.calls) && WithinActiveLimit(l.run, br')
    ensures Budgets(l.run, br', l.calls)
  {
  }

  lemma CreatedForkOk(l: Ledger, e: Event, n: nat)
    requires Slotted(l.branches, l.steps) && Histories(l.branches, n)
    requires e.seq_ == n + 1 && e.body.BranchCreated? && CanCreateBranch(l, e)
    ensures ForkOk(AfterCreateBranch(l, e).branches, l.steps, NewBranch(e))
    ensures TranscriptOk(l.steps, NewBranch(e).steps)
  {
    hide WithinActiveLimit;
    BornBefore(l.branches, n);
    if e.body.parent.Some? {
      var parent := l.branches[e.body.parent.value];
      assert TranscriptOk(l.steps, parent.steps);
    }
  }

  lemma CreatedElsewhere(l: Ledger, e: Event)
    requires e.body.BranchCreated? && CanCreateBranch(l, e)
    ensures BranchesGrew(l.branches, AfterCreateBranch(l, e).branches)
    ensures HumanBranches(l.branches, l.actions) ==> HumanBranches(AfterCreateBranch(l, e).branches, l.actions)
    ensures VersionOk(l.IsV11(), l.branches) ==> VersionOk(l.IsV11(), AfterCreateBranch(l, e).branches)
    ensures HistoryOk(NewBranch(e), e.seq_)
    ensures WithinActiveLimit(l.run, AfterCreateBranch(l, e).branches)
  {
    hide WithinActiveLimit, SameTranscripts, IndexOf;
  }

  lemma CreateBranchGood(codec: Codec, l: Ledger, e: Event, n: nat)
    requires Inv(codec, l, n) && e.seq_ == n + 1 && e.body.BranchCreated? && CanCreateBranch(l, e)
    ensures Good(codec, l, AfterCreateBranch(l, e), n)
  {
    hide Slotted, Homed, Forks, Histories, Calls, Origins, RevisionsDistinct, VersionOk, Checks, Snapshots, Frozen, Judged,
         Selected, Budgets, Actions, HumanBranches;
    hide ForkOk, TranscriptOk, HistoryOk, HomeOf, OriginFact, BranchGrew, BranchesGrew, CanFork, WithinActiveLimit;
    CreatedForkOk(l, e, n);
    CreatedElsewhere(l, e);
    var br' := AfterCreateBranch(l, e).branches;
    KeepRevisionsDistinct(l.branches, l.steps, br', l.steps);
    BranchesGood(codec, l, br', l.steps, n);
  }

  lemma MovedElsewhere(l: Ledger, b: Id, n: nat, to: BranchStatus)
    requires b in l.branches && to in Transitions(l.branches[b].status)
    ensures var br' := l.branches[b := Moved(l.branches[b], n + 1, to)];
            && BranchesGrew(l.branches, br')
            && (HumanBranches(l.branches, l.actions) ==> HumanBranches(br', l.actions))
            && (VersionOk(l.IsV11(), l.branches) ==> VersionOk(l.IsV11(), br'))
  {
  }

  /** A legal transition that respects the active-branch limit. */
  lemma MoveGood(codec: Codec, l: Ledger, b: Id, to: BranchStatus, n: nat)
    requires Inv(codec, l, n) && b in l.branches && to in Transitions(l.branches[b].status)
    requires WithinActiveLimit(l.run, l.branches[b := Moved(l.branches[b], n + 1, to)])
    ensures Good(codec, l, l.(branches := l.branches[b := Moved(l.branches[b], n + 1, to)]), n)
  {
    assert HistoryOk(l.branches[b], n);
    MovedHistory(l.branches[b], n, to);
    hide Slotted, Homed, Forks, Histories, Calls, Origins, RevisionsDistinct, VersionOk, Checks, Snapshots, Frozen, Judged,
         Selected, Budgets, Actions, HumanBranches;
    hide ForkOk, TranscriptOk, HistoryOk, HomeOf, OriginFact, BranchGrew, BranchesGrew, WithinActiveLimit;
    var br' := l.branches[b := Moved(l.branches[b], n + 1, to)];
    MovedElsewhere(l, b, n, to);
    KeepRevisionsDistinct(l.branches, l.steps, br', l.steps);
    BranchesGood(codec, l, br', l.steps, n);
    assert l.(branches := br', steps := l.steps) == l.(branches := br');
  }

  lemma ChangeStatusGood(codec: Codec, l: Ledger, e: Event, n: nat)
    requires Inv(codec, l, n) && e.seq_ == n + 1 && e.body.BranchStatusChanged? && CanChangeStatus(codec, l, e)
    ensures Good(codec, l, AfterChangeStatus(l, e), n)
  {
    hide Slotted, Homed, Forks, Histories, Calls, Origins, RevisionsDistinct, VersionOk, Checks, Snapshots, Frozen, Judged,
         Selected, Budgets, Actions, HumanBranches;
    hide StatusReasonOk, WithinActiveLimit, Moved;
    MoveGood(codec, l, e.body.branch, e.body.to, n);
  }

  lemma SealedElsewhere(codec: Codec, l: Ledger, e: Event)
    requires e.body.StepSealed? && CanSeal(codec, l, e)
    ensures var l' := AfterSeal(l, e);
            && BranchesGrew(l.branches, l'.branches) && Kept(l.steps, l'.steps)
            && (HumanBranches(l.branches, l.actions) ==> HumanBranches(l'.branches, l.actions))
            && (VersionOk(l.IsV11(), l.branches) ==> VersionOk(l.IsV11(), l'.branches))
            && ActiveBranches(l'.branches) == ActiveBranches(l.branches)
  {
    hide OriginOk;
  }

  lemma SealedStepOk(codec: Codec, l: Ledger, e: Event)
    requires Slotted(l.branches, l.steps) && Forks(l.branches, l.steps)
    requires e.body.StepSealed? && CanSeal(codec, l, e)
    ensures var l' := AfterSeal(l, e);
            && TranscriptOk(l'.steps, l'.branches[e.body.branch].steps)
            && HomeOf(l'.branches, e.body.step, SealedStep(e))
            && !Applied(l'.branches, SealedStep(e))
            && OriginFact(codec, l'.branches, l.calls, l.actions, SealedStep(e))
  {
    var b := l.branches[e.body.branch];
    assert TranscriptOk(l.steps, b.steps);
    assert ForkOk(l.branches, l.steps, b);
  }

  lemma SealGood(codec: Codec, l: Ledger, e: Event, n: nat)
    requires Inv(codec, l, n) && e.seq_ == n + 1 && e.body.StepSealed? && CanSeal(codec, l, e)
    ensures Good(codec, l, AfterSeal(l, e), n)
  {
    hide Slotted, Homed, Forks, Histories, Calls, Origins, RevisionsDistinct, VersionOk, Checks, Snapshots, Frozen, Judged,
         Selected, Budgets, Actions, HumanBranches;
    hide ForkOk, TranscriptOk, HistoryOk, HomeOf, OriginFact, BranchGrew, BranchesGrew, Applied, OriginOk, Kept;
    var l' := AfterSeal(l, e);
    SealedElsewhere(codec, l, e);
    SealedStepOk(codec, l, e);
    KeepRevisionsDistinct(l.branches, l.steps, l'.branches, l'.steps);
    SameActive(l, l'.branches);
    BranchesGood(codec, l, l'.branches, l'.steps, n);
  }

  lemma SameActive(l: Ledger, br': map<Id, Branch>)
    requires Budgets(l.run, l.branches, l.calls) && |ActiveBranches(br')| == |ActiveBranches(l.branches)|
    ensures WithinActiveLimit(l.run, br')
  {
  }

  lemma RevisedHistories(codec: Codec, l: Ledger, e: Event, n: nat)
    requires Histories(l.branches, n)
    requires e.seq_ == n + 1 && e.body.ModelRevisionApplied? && CanRevise(codec, l, e)
    ensures var l' := AfterRevise(codec, l, e);
            && HistoryOk(l'.branches[e.body.branch], n + 1)
            && HistoryOk(l'.branches[e.body.revisedParent], n + 1)
  {
    assert HistoryOk(l.branches[e.body.revisedParent], n);
    MovedHistory(l.branches[e.body.revisedParent], n, Parked);
  }

  lemma RevisedGrowth(codec: Codec, l: Ledger, e: Event, n: nat)
    requires Histories(l.branches, n)
    requires e.seq_ == n + 1 && e.body.ModelRevisionApplied? && CanRevise(codec, l, e)
    ensures BranchesGrew(l.branches, AfterRevise(codec, l, e).branches)
    ensures Kept(l.steps, AfterRevise(codec, l, e).steps)
  {
    assert HistoryOk(l.branches[e.body.revisedParent], n);
    MovedHistory(l.branches[e.body.revisedParent], n, Parked);
  }

  lemma RevisedElsewhere(codec: Codec, l: Ledger, e: Event)
    requires e.body.ModelRevisionApplied? && CanRevise(codec, l, e)
    ensures HumanBranches(l.branches, l.actions) ==> HumanBranches(AfterRevise(codec, l, e).branches, l.actions)
    ensures VersionOk(l.IsV11(), AfterRevise(codec, l, e).branches)
  {
  }

  lemma RevisedActive(codec: Codec, l: Ledger, e: Event)
    requires e.body.ModelRevisionApplied? && CanRevise(codec, l, e)
    ensures |ActiveBranches(AfterRevise(codec, l, e).branches)| == |ActiveBranches(l.branches)|
  {
    var active := ActiveBranches(l.branches);
    assert ActiveBranches(AfterRevise(codec, l, e).branches) == active - {e.body.revisedParent} + {e.body.branch};
  }

  lemma RevisedStepOk(codec: Codec, l: Ledger, e: Event, n: nat)
    requires Slotted(l.branches, l.steps) && Histories(l.branches, n)
    requires e.seq_ == n + 1 && e.body.ModelRevisionApplied? && CanRevise(codec, l, e)
    ensures var l' := AfterRevise(codec, l, e);
            && TranscriptOk(l'.steps, l'.branches[e.body.branch].steps)
            && ForkOk(l'.branches, l'.steps, l'.branches[e.body.branch])
            && HomeOf(l'.branches, e.body.step, l'.steps[e.body.step])
            && OriginFact(codec, l'.branches, l.calls, l.actions, l'.steps[e.body.step])
  {
    BornBefore(l.branches, n);
    var parent := l.branches[e.body.revisedParent];
    assert TranscriptOk(l.steps, parent.steps);
    assert l.steps[e.body.revised].slot == IndexOf(parent.steps, e.body.revised) + 1;
  }

  lemma RevisedDistinct(codec: Codec, l: Ledger, e: Event)
    requires RevisionsDistinct(l.branches, l.steps) && Homed(l.branches, l.steps)
    requires e.body.ModelRevisionApplied? && CanRevise(codec, l, e)
    requires BranchesGrew(l.branches, AfterRevise(codec, l, e).branches)
    ensures RevisionsDistinct(AfterRevise(codec, l, e).branches, AfterRevise(codec, l, e).steps)
  {
    hide BranchesGrew;
    var l' := AfterRevise(codec, l, e);
    forall s | s in l.steps
      ensures Applied(l'.branches, l.steps[s]) == Applied(l.branches, l.steps[s])
      ensures l.steps[s].origin != ModelOrigin(e.body.call)
    {
      assert HomeOf(l.branches, s, l.steps[s]);
      KeepApplied(l.branches, l'.branches, l.steps[s]);
    }
  }

  lemma ReviseGood(codec: Codec, l: Ledger, e: Event, n: nat)
    requires Inv(codec, l, n) && e.seq_ == n + 1 && e.body.ModelRevisionApplied? && CanRevise(codec, l, e)
    ensures Good(codec, l, AfterRevise(codec, l, e), n)
  {
    hide Slotted, Homed, Forks, Histories, Calls, Origins, RevisionsDistinct, VersionOk, Checks, Snapshots, Frozen, Judged,
         Selected, Budgets, Actions, HumanBranches;
    hide ForkOk, TranscriptOk, HistoryOk, HomeOf, OriginFact, BranchGrew, BranchesGrew, Applied, Kept, RevisedBranch, ReplacementStep;
    var l' := AfterRevise(codec, l, e);
    RevisedHistories(codec, l, e, n);
    RevisedGrowth(codec, l, e, n);
    RevisedElsewhere(codec, l, e);
    RevisedStepOk(codec, l, e, n);
    RevisedDistinct(codec, l, e);
    RevisedActive(codec, l, e);
    SameActive(l, l'.branches);
    BranchesGood(codec, l, l'.branches, l'.steps, n);
  }

  lemma FewerActive(l: Ledger, b: Id, n: nat, to: BranchStatus)
    requires Budgets(l.run, l.branches, l.calls) && b in l.branches && !to.Active?
    ensures WithinActiveLimit(l.run, l.branches[b := Moved(l.branches[b], n, to)])
  {
    var br' := l.branches[b := Moved(l.branches[b], n, to)];
    assert ActiveBranches(br') == ActiveBranches(l.branches) - {b};
  }

  lemma CompleteRouteGood(codec: Codec, l: Ledger, e: Event, n: nat)
    requires Inv(codec, l, n) && e.seq_ == n + 1 && e.body.WriterRouteCompletion? && CanCompleteRoute(codec, l, e)
    ensures Good(codec, l, AfterCompleteRoute(l, e), n)
  {
    hide Slotted, Homed, Forks, Histories, Calls, Origins, RevisionsDistinct, VersionOk, Checks, Snapshots, Frozen, Judged,
         Selected, Budgets, Actions, HumanBranches;
    hide WithinActiveLimit, Moved;
    var p := e.body;
    var l1 := l.(calls := Disposed(l, p.call, RouteCompletion(p.tip)));
    DisposedGood(codec, l, p.call, RouteCompletion(p.tip), n);
    FewerActive(l1, p.branch, n + 1, Completed);
    MoveGood(codec, l1, p.branch, Completed, n);
    GrewTransitive(l, l1, AfterCompleteRoute(l, e));
  }

  // ----- growth composes -----------------------------------------------------------

  lemma CallsGrewTransitive(st: map<Id, StepRevision>, st': map<Id, StepRevision>,
                            a: map<Id, Call>, b: map<Id, Call>, c: map<Id, Call>)
    requires CallsGrew(st, a, b) && CallsGrew(st', b, c) && Kept(st, st')
    ensures CallsGrew(st, a, c)
  {
    forall k | k in a
      ensures k in c && CallGrew(a[k], c[k])
      ensures Materialized(st, k) ==> WriterOutputSha(c[k]) == WriterOutputSha(a[k])
    {
      assert CallGrew(a[k], b[k]) && CallGrew(b[k], c[k]);
      if Materialized(st, k) {
        var s :| s in st && st[s].origin == ModelOrigin(k);
        assert s in st' && st'[s].origin == ModelOrigin(k);
      }
    }
  }

  lemma ChecksGrewTransitive(v11: bool, ca: map<Id, Candidate>, ca': map<Id, Candidate>,
                             a: map<Id, Check>, b: map<Id, Check>, c: map<Id, Check>)
    requires ChecksGrew(v11, ca, a, b) && ChecksGrew(v11, ca', b, c) && Kept(ca, ca')
    ensures ChecksGrew(v11, ca, a, c)
  {
    forall k | k in a
      ensures k in c && CheckGrew(v11, a[k], c[k])
    {
      assert CheckGrew(v11, a[k], b[k]) && CheckGrew(v11, b[k], c[k]);
    }
    forall k, m | k in c && k !in a && c[k].required && m in ca
      ensures c[k].target !in ca[m].transcript
    {
      if k in b {
        assert CheckGrew(v11, b[k], c[k]);
      }
    }
  }

  lemma BranchesGrewTransitive(a: map<Id, Branch>, b: map<Id, Branch>, c: map<Id, Branch>)
    requires BranchesGrew(a, b) && BranchesGrew(b, c)
    ensures BranchesGrew(a, c)
  {
    forall k | k in a
      ensures k in c && BranchGrew(a[k], c[k])
    {
      assert BranchGrew(a[k], b[k]) && BranchGrew(b[k], c[k]);
    }
  }

  lemma GrewTransitive(a: Ledger, b: Ledger, c: Ledger)
    requires Grew(a, b) && Grew(b, c)
    ensures Grew(a, c)
  {
    hide BranchesGrew, CallsGrew, ChecksGrew, JudgementsGrew, Kept;
    BranchesGrewTransitive(a.branches, b.branches, c.branches);
    CallsGrewTransitive(a.steps, b.steps, a.calls, b.calls, c.calls);
    ChecksGrewTransitive(a.IsV11(), a.candidates, b.candidates, a.checks, b.checks, c.checks);
    JudgementsGrewTransitive(a.judgements, b.judgements, c.judgements);
    KeptTransitive(a.actions, b.actions, c.actions);
    KeptTransitive(a.steps, b.steps, c.steps);
    KeptTransitive(a.candidates, b.candidates, c.candidates);
    KeptTransitive(a.selections, b.selections, c.selections);
    KeptTransitive(a.sources, b.sources, c.sources);
  }

  lemma KeptTransitive<V(!new)>(a: map<Id, V>, b: map<Id, V>, c: map<Id, V>)
    requires Kept(a, b) && Kept(b, c)
    ensures Kept(a, c)
  {
  }

  lemma JudgementsGrewTransitive(a: map<Id, Judgement>, b: map<Id, Judgement>, c: map<Id, Judgement>)
    requires JudgementsGrew(a, b) && JudgementsGrew(b, c)
    ensures JudgementsGrew(a, c)
  {
    forall k | k in a
      ensures k in c && JudgementGrew(a[k], c[k])
    {
      assert JudgementGrew(a[k], b[k]) && JudgementGrew(b[k], c[k]);
    }
  }
}
