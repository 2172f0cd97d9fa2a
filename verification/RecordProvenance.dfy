/**
 Content provenance (`_branch_provenance`): who shaped a branch. It is derived from
 the ledger, and it can only rise from model-only to human-steered to human-edited.
 */
module RecordProvenance {
  import opened Wrappers
  import opened RecordModel
  import opened RecordRules
  import opened RecordInvariant
  import opened RecordGrowth
  import opened RecordSteps
  import opened RecordRuns
  import opened RecordLineage

  datatype ContentClass = ModelOnly | HumanSteered | HumanEdited

  function CreatedBy(branches: map<Id, Branch>, lineage: seq<Id>, reasons: set<CreatedReason>): set<Id> {
    set x | x in lineage && x in branches && branches[x].reason in reasons && branches[x].action.Some? :: branches[x].action.value
  }

  function Steering(branches: map<Id, Branch>, b: Id): set<Id> {
    CreatedBy(branches, Ancestry(branches, b), {HumanDirection, HumanHypothesis})
  }

  function HumanSteps(steps: map<Id, StepRevision>, transcript: seq<Id>): set<Id> {
    set s | s in transcript && s in steps && steps[s].origin.HumanOrigin? :: steps[s].origin.action
  }

  function Edits(branches: map<Id, Branch>, steps: map<Id, StepRevision>, b: Id): set<Id>
    requires b in branches
  {
    CreatedBy(branches, Ancestry(branches, b), {HumanRevision}) + HumanSteps(steps, branches[b].steps)
  }

  function ClassOf(branches: map<Id, Branch>, steps: map<Id, StepRevision>, b: Id): ContentClass
    requires b in branches
  {
    if Edits(branches, steps, b) != {} then HumanEdited
    else if Steering(branches, b) != {} then HumanSteered
    else ModelOnly
  }

  /** Pauses, resumes and kills on the lineage: recorded beside the provenance, and no part of the class. */
  function Operational(branches: map<Id, Branch>, actions: map<Id, Action>, b: Id): set<Id> {
    set a | a in actions && IsOperational(actions[a], Ancestry(branches, b)) :: a
  }

  predicate IsOperational(a: Action, lineage: seq<Id>) {
    a.target.OnBranch? && a.target.branch in lineage && a.kind in {PauseBranch, ResumeBranch, KillBranch}
  }

  function Rank(c: ContentClass): nat {
    match c
    case ModelOnly => 0
    case HumanSteered => 1
    case HumanEdited => 2
  }

  // ----- growth --------------------------------------------------------------------

  lemma CreatedByKept(branches: map<Id, Branch>, branches': map<Id, Branch>, lineage: seq<Id>, reasons: set<CreatedReason>)
    requires BranchesGrew(branches, branches') && forall i :: 0 <= i < |lineage| ==> lineage[i] in branches
    ensures CreatedBy(branches', lineage, reasons) == CreatedBy(branches, lineage, reasons)
  {
    forall x | x in lineage
      ensures x in branches && x in branches'
      ensures branches'[x].reason == branches[x].reason && branches'[x].action == branches[x].action
    {
      assert x in branches;
      assert BranchGrew(branches[x], branches'[x]);
    }
    assert CreatedBy(branches', lineage, reasons) <= CreatedBy(branches, lineage, reasons);
    assert CreatedBy(branches, lineage, reasons) <= CreatedBy(branches', lineage, reasons);
  }

  lemma HumanStepsRise(steps: map<Id, StepRevision>, steps': map<Id, StepRevision>, a: seq<Id>, a': seq<Id>)
    requires Kept(steps, steps') && a <= a' && forall i :: 0 <= i < |a| ==> a[i] in steps
    ensures HumanSteps(steps, a) <= HumanSteps(steps', a')
    ensures a == a' ==> HumanSteps(steps, a) == HumanSteps(steps', a')
  {
    forall s | s in a
      ensures s in a' && s in steps && s in steps' && steps'[s] == steps[s]
    {
    }
    if a == a' {
      assert HumanSteps(steps', a') <= HumanSteps(steps, a);
    }
  }

  /** Growth keeps the human sources of a branch; only a longer transcript can add to them. */
  lemma SourcesRise(branches: map<Id, Branch>, steps: map<Id, StepRevision>,
                    branches': map<Id, Branch>, steps': map<Id, StepRevision>, b: Id)
    requires Forks(branches, steps) && Slotted(branches, steps) && BranchesGrew(branches, branches') && Kept(steps, steps')
    requires b in branches
    ensures b in branches' && Steering(branches', b) == Steering(branches, b)
    ensures Edits(branches, steps, b) <= Edits(branches', steps', b)
    ensures branches'[b].steps == branches[b].steps ==> Edits(branches', steps', b) == Edits(branches, steps, b)
  {
    AncestryEndsAtRoot(branches, steps, b);
    AncestryKept(branches, branches', steps, b);
    CreatedByKept(branches, branches', Ancestry(branches, b), {HumanDirection, HumanHypothesis});
    CreatedByKept(branches, branches', Ancestry(branches, b), {HumanRevision});
    assert BranchGrew(branches[b], branches'[b]);
    assert TranscriptOk(steps, branches[b].steps);
    HumanStepsRise(steps, steps', branches[b].steps, branches'[b].steps);
  }

  // ----- theorems ------------------------------------------------------------------

  /** The class of a branch never falls, and stays as it is while its transcript does. */
  lemma ClassOnlyRises(codec: Codec, log: seq<Event>, k: nat, b: Id)
    requires Fold(codec, log).Some? && 0 < k <= |log| && Fold(codec, log[..k]).Some?
    requires b in Fold(codec, log[..k]).value.branches
    ensures var early, late := Fold(codec, log[..k]).value, Fold(codec, log).value;
            && b in late.branches
            && Rank(ClassOf(early.branches, early.steps, b)) <= Rank(ClassOf(late.branches, late.steps, b))
            && (late.branches[b].steps == early.branches[b].steps ==>
                  ClassOf(late.branches, late.steps, b) == ClassOf(early.branches, early.steps, b))
  {
    hide Fold, Ancestry, Edits, Steering;
    PrefixGrew(codec, log, k);
    FoldOk(codec, log[..k]);
    hide Slotted, Homed, Forks, Histories, Calls, Origins, RevisionsDistinct, VersionOk, Checks, Snapshots, Frozen, Judged,
         Selected, Budgets, Actions, HumanBranches, Kept, BranchesGrew, CallsGrew, ChecksGrew, JudgementsGrew;
    var early, late := Fold(codec, log[..k]).value, Fold(codec, log).value;
    SourcesRise(early.branches, early.steps, late.branches, late.steps, b);
  }

  lemma NewBranchesAreNew(codec: Codec, l: Ledger, e: Event)
    requires Accepts(codec, l, e)
    ensures e.body.BranchCreated? ==> e.body.branch !in l.branches
    ensures e.body.ModelRevisionApplied? ==> e.body.branch !in l.branches
  {
    hide CanHumanAction, CanChangeStatus, CanStartCall, CanChunk, CanFinishCall, CanAbortCall, OpenCall, CanSeal, CanFork,
         CanRequestCheck, CanCompleteCheck, CanDeclare, CanRequestJudgement, CanCompleteJudgement, CanSelect, CanRegisterSource,
         CanDefer, CanRetryCheck, CanCompleteRoute, CanNormalize, WithinActiveLimit;
  }

  lemma ReviseAddsABranch(codec: Codec, l: Ledger, e: Event)
    requires e.body.ModelRevisionApplied? && CanRevise(codec, l, e)
    ensures SameTranscripts(l.branches, AfterRevise(codec, l, e).branches)
  {
  }

  lemma Unsealed(codec: Codec, l: Ledger, e: Event)
    requires Accepts(codec, l, e) && !e.body.StepSealed?
    ensures SameTranscripts(l.branches, Effect(codec, l, e).branches)
  {
    hide CanHumanAction, CanCreateBranch, CanChangeStatus, CanStartCall, CanChunk, CanFinishCall, CanAbortCall, OpenCall, CanSeal,
         CanRequestCheck, CanCompleteCheck, CanDeclare, CanRequestJudgement, CanCompleteJudgement, CanSelect, CanRegisterSource,
         CanRevise, CanDefer, CanRetryCheck, CanCompleteRoute, CanNormalize, SameTranscripts;
    hide AfterRun, AfterHumanAction, AfterCreateBranch, AfterChangeStatus, AfterStartCall, AfterChunk, AfterClose, AfterSeal,
         AfterRequestCheck, AfterCompleteCheck, AfterDeclare, AfterRequestJudgement, AfterCompleteJudgement, AfterSelect,
         AfterRegisterSource, AfterRevise, AfterDefer, AfterRetryCheck, AfterCompleteRoute, AfterNormalize;
    NewBranchesAreNew(codec, l, e);
    SameAsBefore(l.branches);
    if e.body.ModelRevisionApplied? {
      ReviseAddsABranch(codec, l, e);
    }
  }

  lemma SameAsBefore(branches: map<Id, Branch>)
    ensures SameTranscripts(branches, branches)
  {
  }

  /** Only sealing a step on a branch changes that branch's transcript. */
  lemma OnlySealingExtends(codec: Codec, l: Ledger, e: Event, b: Id)
    requires Accepts(codec, l, e) && b in l.branches
    ensures b in Effect(codec, l, e).branches
    ensures Effect(codec, l, e).branches[b].steps != l.branches[b].steps ==> e.body.StepSealed? && e.body.branch == b
  {
    if e.body.StepSealed? {
      assert Effect(codec, l, e) == AfterSeal(l, e);
    } else {
      hide Accepts, Effect;
      Unsealed(codec, l, e);
    }
  }

  lemma UntouchedIff(branches: map<Id, Branch>, steps: map<Id, StepRevision>, actions: map<Id, Action>, b: Id)
    requires HumanBranches(branches, actions) && b in branches
    ensures ClassOf(branches, steps, b) == ModelOnly <==>
            && (forall s :: s in branches[b].steps && s in steps ==> steps[s].origin.ModelOrigin?)
            && (forall x :: x in Ancestry(branches, b) && x in branches ==>
                  branches[x].reason !in {HumanDirection, HumanHypothesis, HumanRevision})
  {
    hide Ancestry;
    if s :| s in branches[b].steps && s in steps && !steps[s].origin.ModelOrigin? {
      assert steps[s].origin.action in HumanSteps(steps, branches[b].steps);
    }
    if x :| x in Ancestry(branches, b) && x in branches && branches[x].reason in {HumanDirection, HumanHypothesis, HumanRevision} {
      if branches[x].reason.HumanRevision? {
        assert branches[x].action.value in CreatedBy(branches, Ancestry(branches, b), {HumanRevision});
      } else {
        assert branches[x].action.value in CreatedBy(branches, Ancestry(branches, b), {HumanDirection, HumanHypothesis});
      }
    }
  }

  /**
   A branch no human touched holds only model steps, and neither it nor any ancestor
   was created by a human; and the other way round.
   */
  lemma ModelOnlyMeansUntouched(codec: Codec, log: seq<Event>, b: Id)
    requires Fold(codec, log).Some? && b in Fold(codec, log).value.branches
    ensures var l := Fold(codec, log).value;
            ClassOf(l.branches, l.steps, b) == ModelOnly <==>
            && (forall s :: s in l.branches[b].steps && s in l.steps ==> l.steps[s].origin.ModelOrigin?)
            && (forall x :: x in Ancestry(l.branches, b) && x in l.branches ==>
                  l.branches[x].reason !in {HumanDirection, HumanHypothesis, HumanRevision})
  {
    hide Fold, Ancestry, ClassOf;
    FoldOk(codec, log);
    hide Slotted, Homed, Forks, Histories, Calls, Origins, RevisionsDistinct, VersionOk, Checks, Snapshots, Frozen, Judged,
         Selected, Budgets, Actions, HumanBranches;
    var l := Fold(codec, log).value;
    UntouchedIff(l.branches, l.steps, l.actions, b);
  }
}
