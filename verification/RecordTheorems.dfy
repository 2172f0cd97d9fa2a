/** What a reader of a record may rely on, for every log that replay accepts. */
module RecordTheorems {
  import opened Wrappers
  import opened RecordModel
  import opened RecordRules
  import opened RecordInvariant
  import opened RecordGrowth
  import opened RecordSteps
  import opened RecordRuns
  import opened RecordLineage

  // ----- transcripts ---------------------------------------------------------------

  /** Element i of every transcript is a known step with slot i+1; no step occurs twice. */
  lemma TranscriptsAreSlotted(codec: Codec, log: seq<Event>, b: Id)
    requires Fold(codec, log).Some? && b in Fold(codec, log).value.branches
    ensures var l := Fold(codec, log).value;
            && Distinct(l.branches[b].steps) && l.branches[b].inherited <= l.branches[b].steps
            && forall i :: 0 <= i < |l.branches[b].steps| ==>
                 l.branches[b].steps[i] in l.steps && l.steps[l.branches[b].steps[i]].slot == i + 1
  {
    hide Fold, Distinct;
    FoldOk(codec, log);
    hide Slotted, Homed, Forks, Histories, Calls, Origins, RevisionsDistinct, VersionOk, Checks, Snapshots, Frozen, Judged,
         Selected, Budgets, Actions, HumanBranches;
    BranchIsExact(Fold(codec, log).value.branches, Fold(codec, log).value.steps, b);
  }

  /** The branch inherits its parent's transcript up to the anchor: inclusive after it, exclusive to replace it. */
  predicate CutAtAnchor(branches: map<Id, Branch>, br: Branch) {
    && br.parent.Some? && br.parent.value in branches && br.anchor.Some?
    && br.anchor.value in branches[br.parent.value].steps
    && var parent := branches[br.parent.value].steps;
    br.inherited == parent[..IndexOf(parent, br.anchor.value) + if br.mode.After? then 1 else 0]
  }

  /** The inherited list is the exact prefix, up to the anchor, of the parent as it stands now. */
  lemma ForksStayExact(codec: Codec, log: seq<Event>, b: Id)
    requires Fold(codec, log).Some? && b in Fold(codec, log).value.branches && Fold(codec, log).value.branches[b].parent.Some?
    ensures CutAtAnchor(Fold(codec, log).value.branches, Fold(codec, log).value.branches[b])
  {
    hide Fold, CutAtAnchor;
    FoldOk(codec, log);
    hide Slotted, Homed, Forks, Histories, Calls, Origins, RevisionsDistinct, VersionOk, Checks, Snapshots, Frozen, Judged,
         Selected, Budgets, Actions, HumanBranches;
    ForkIsExact(Fold(codec, log).value.branches, Fold(codec, log).value.steps, b);
  }

  /** Every step is found in its own branch, at the index its slot names. */
  lemma StepsAreHome(codec: Codec, log: seq<Event>, s: Id)
    requires Fold(codec, log).Some? && s in Fold(codec, log).value.steps
    ensures var l := Fold(codec, log).value;
            && l.steps[s].branch in l.branches && s in l.branches[l.steps[s].branch].steps
            && IndexOf(l.branches[l.steps[s].branch].steps, s) == l.steps[s].slot - 1
  {
    hide Fold, IndexOf;
    FoldOk(codec, log);
    hide Slotted, Homed, Forks, Histories, Calls, Origins, RevisionsDistinct, VersionOk, Checks, Snapshots, Frozen, Judged,
         Selected, Budgets, Actions, HumanBranches;
    HomeIsExact(Fold(codec, log).value.branches, Fold(codec, log).value.steps, s);
  }

  /** Parent links never cycle: every ancestry is a path of distinct branches to a root. */
  lemma LineagesEndAtRoots(codec: Codec, log: seq<Event>, b: Id)
    requires Fold(codec, log).Some? && b in Fold(codec, log).value.branches
    ensures var branches := Fold(codec, log).value.branches;
            var ch := Ancestry(branches, b);
            && ch != [] && ch[0] == b && Distinct(ch)
            && (forall i :: 0 <= i < |ch| ==> ch[i] in branches)
            && (forall i :: 0 <= i < |ch| - 1 ==> branches[ch[i]].parent == Some(ch[i + 1]))
            && branches[ch[|ch| - 1]].parent.None?
  {
    hide Fold, Ancestry, Distinct;
    FoldOk(codec, log);
    hide Slotted, Homed, Forks, Histories, Calls, Origins, RevisionsDistinct, VersionOk, Checks, Snapshots, Frozen, Judged,
         Selected, Budgets, Actions, HumanBranches;
    AncestryEndsAtRoot(Fold(codec, log).value.branches, Fold(codec, log).value.steps, b);
  }

  lemma BranchIsExact(branches: map<Id, Branch>, steps: map<Id, StepRevision>, b: Id)
    requires Slotted(branches, steps) && Forks(branches, steps) && b in branches
    ensures Distinct(branches[b].steps) && branches[b].inherited <= branches[b].steps
    ensures forall i :: 0 <= i < |branches[b].steps| ==>
              branches[b].steps[i] in steps && steps[branches[b].steps[i]].slot == i + 1
  {
    assert TranscriptOk(steps, branches[b].steps);
    assert ForkOk(branches, steps, branches[b]);
  }

  lemma ForkIsExact(branches: map<Id, Branch>, steps: map<Id, StepRevision>, b: Id)
    requires Slotted(branches, steps) && Forks(branches, steps) && b in branches && branches[b].parent.Some?
    ensures CutAtAnchor(branches, branches[b])
  {
    assert ForkOk(branches, steps, branches[b]);
    SlotIsIndex(branches, steps, branches[b].parent.value, branches[b].anchor.value);
  }

  lemma SlotIsIndex(branches: map<Id, Branch>, steps: map<Id, StepRevision>, b: Id, s: Id)
    requires Slotted(branches, steps) && b in branches && s in branches[b].steps
    ensures s in steps && IndexOf(branches[b].steps, s) == steps[s].slot - 1
  {
    assert TranscriptOk(steps, branches[b].steps);
  }

  lemma HomeIsExact(branches: map<Id, Branch>, steps: map<Id, StepRevision>, s: Id)
    requires Slotted(branches, steps) && Homed(branches, steps) && s in steps
    ensures steps[s].branch in branches && s in branches[steps[s].branch].steps
    ensures IndexOf(branches[steps[s].branch].steps, s) == steps[s].slot - 1
  {
    assert HomeOf(branches, s, steps[s]);
    SlotIsIndex(branches, steps, steps[s].branch, s);
  }

  /** A branch that was killed is never touched again, and no result is rewritten. */
  lemma SettledFactsStay(codec: Codec, log: seq<Event>, k: nat)
    requires Fold(codec, log).Some? && 0 < k <= |log|
    ensures Fold(codec, log[..k]).Some?
    ensures var early, late := Fold(codec, log[..k]).value, Fold(codec, log).value;
            && Grew(early, late)
            && (forall b :: b in early.branches && early.branches[b].status.Killed? ==>
                  b in late.branches && late.branches[b] == early.branches[b])
            && (forall c :: c in early.checks && early.checks[c].completed.Some? ==>
                  c in late.checks && late.checks[c].verdict == early.checks[c].verdict)
            && (forall c :: c in early.calls && Terminal(early.calls[c].state) ==>
                  c in late.calls && late.calls[c].output == early.calls[c].output)
  {
    hide Fold;
    PrefixGrew(codec, log, k);
    var early, late := Fold(codec, log[..k]).value, Fold(codec, log).value;
    assert forall b :: b in early.branches ==> BranchGrew(early.branches[b], late.branches[b]);
    assert forall c :: c in early.checks ==> CheckGrew(early.IsV11(), early.checks[c], late.checks[c]);
    assert forall c :: c in early.calls ==> CallGrew(early.calls[c], late.calls[c]);
  }

  // ----- candidates ----------------------------------------------------------------

  /**
   A candidate is frozen for good: its transcript stays a prefix of its branch even
   after the branch reopens and grows, its hash can be recomputed from the final
   steps, its check list is the required checks (v1) or contains them (1.1), and a
   status that has left `provisional` is final.
   */
  lemma CandidatesAreFrozen(codec: Codec, log: seq<Event>, k: nat, c: Id)
    requires Fold(codec, log).Some? && 0 < k <= |log|
    requires Fold(codec, log[..k]).Some? && c in Fold(codec, log[..k]).value.candidates
    ensures var early, late := Fold(codec, log[..k]).value, Fold(codec, log).value;
            var candidate := early.candidates[c];
            && c in late.candidates && late.candidates[c] == candidate
            && candidate.branch in late.branches && candidate.transcript <= late.branches[candidate.branch].steps
            && (forall i :: 0 <= i < |candidate.transcript| ==> candidate.transcript[i] in late.steps)
            && candidate.sha == codec.transcriptSha(Material(candidate.transcript, late.steps))
            && (late.IsV11() ==> RequiredChecks(late.checks, candidate.transcript) <= set r | r in candidate.required)
            && (!late.IsV11() ==> RequiredChecks(late.checks, candidate.transcript) == set r | r in candidate.required)
            && (CandidateStatusIn(early, candidate) != Provisional ==>
                  CandidateStatusIn(late, candidate) == CandidateStatusIn(early, candidate))
  {
    hide Fold, StatusOf, RequiredChecks, Material;
    hide Slotted, Homed, Forks, Histories, Calls, Origins, RevisionsDistinct, VersionOk, Checks, Snapshots, Frozen, Judged,
         Selected, Budgets, Actions, HumanBranches, BranchesGrew, CallsGrew, ChecksGrew, JudgementsGrew;
    PrefixGrew(codec, log, k);
    FoldOk(codec, log);
    var early, late := Fold(codec, log[..k]).value, Fold(codec, log).value;
    SnapshotHolds(codec, late.branches, late.steps, late.candidates, c);
    FrozenListHolds(late.IsV11(), late.checks, late.candidates, c);
    if CandidateStatusIn(early, early.candidates[c]) != Provisional {
      StatusSettles(early.IsV11(), early.candidates, early.checks, late.checks, early.candidates[c].required);
    }
  }

  lemma SnapshotHolds(codec: Codec, branches: map<Id, Branch>, steps: map<Id, StepRevision>, candidates: map<Id, Candidate>, c: Id)
    requires Snapshots(codec, branches, steps, candidates) && c in candidates
    ensures var candidate := candidates[c];
            && candidate.branch in branches && candidate.transcript <= branches[candidate.branch].steps
            && (forall i :: 0 <= i < |candidate.transcript| ==> candidate.transcript[i] in steps)
            && candidate.sha == codec.transcriptSha(Material(candidate.transcript, steps))
  {
    assert Snapshot(codec, branches, steps, candidates[c]);
  }

  lemma FrozenListHolds(v11: bool, checks: map<Id, Check>, candidates: map<Id, Candidate>, c: Id)
    requires Frozen(v11, checks, candidates) && c in candidates
    ensures RequiredChecks(checks, candidates[c].transcript) <= set r | r in candidates[c].required
    ensures !v11 ==> RequiredChecks(checks, candidates[c].transcript) == set r | r in candidates[c].required
  {
    assert FrozenOk(v11, checks, candidates[c]);
  }

  /** The selection clauses of the final checks can never fire. */
  lemma FinalChecksAskOnlyForTerminalCalls(codec: Codec, log: seq<Event>)
    requires Fold(codec, log).Some? && log != []
    ensures FinalChecks(Fold(codec, log).value) <==>
            forall c :: c in Fold(codec, log).value.calls ==> Terminal(Fold(codec, log).value.calls[c].state)
  {
    hide Fold, StatusOf;
    FoldOk(codec, log);
    hide Slotted, Homed, Forks, Histories, Calls, Origins, RevisionsDistinct, VersionOk, Checks, Snapshots, Frozen, Judged,
         Budgets, Actions, HumanBranches;
  }

  /** The eligibility re-check of judgement completion can never fire. */
  lemma JudgementRecheckIsRedundant(codec: Codec, log: seq<Event>, e: Event)
    requires Fold(codec, log).Some? && e.body.JudgementCompleted? && EnvelopeOk(codec, Fold(codec, log).value, e)
    ensures var l := Entered(Fold(codec, log).value, e);
            CanCompleteJudgement(l, e) <==> CanCompleteJudgementUnchecked(l, e)
  {
    hide Fold, StatusOf;
    FoldOk(codec, log);
    EnteredOk(codec, Fold(codec, log).value, e);
    hide Slotted, Homed, Forks, Histories, Calls, Origins, RevisionsDistinct, VersionOk, Checks, Snapshots, Frozen, Selected,
         Budgets, Actions, HumanBranches, EnvelopeOk;
  }

  /** The run configuration's budgets hold after every event, revisions included: no set of active branches is larger. */
  lemma BudgetsHold(codec: Codec, log: seq<Event>, active: set<Id>)
    requires Fold(codec, log).Some? && log != []
    requires forall b :: b in active ==> b in Fold(codec, log).value.branches && Fold(codec, log).value.branches[b].status == Active
    ensures var l := Fold(codec, log).value;
            && l.run.Some?
            && var config := l.run.value.config;
            && (config.maxActiveBranches.Some? ==> |active| <= config.maxActiveBranches.value)
            && (config.maxModelCalls.Some? ==> |l.calls| <= config.maxModelCalls.value)
  {
    hide Fold;
    FoldOk(codec, log);
    hide Slotted, Homed, Forks, Histories, Calls, Origins, RevisionsDistinct, VersionOk, Checks, Snapshots, Frozen, Judged,
         Selected, Actions, HumanBranches;
    SubsetSize(active, ActiveBranches(Fold(codec, log).value.branches));
  }

  /** Every status history is an unbroken path of BRANCH_TRANSITIONS ending at the current status. */
  lemma HistoriesAreLegal(codec: Codec, log: seq<Event>, b: Id)
    requires Fold(codec, log).Some? && b in Fold(codec, log).value.branches
    ensures var br := Fold(codec, log).value.branches[b];
            && br.history != [] && br.history[0].from.None? && br.history[|br.history| - 1].to == br.status
            && (forall i :: 0 < i < |br.history| ==>
                  && br.history[i].from == Some(br.history[i - 1].to)
                  && br.history[i].to in Transitions(br.history[i - 1].to)
                  && br.history[i - 1].seq_ < br.history[i].seq_)
  {
    hide Fold;
    FoldOk(codec, log);
    hide Slotted, Homed, Forks, Calls, Origins, RevisionsDistinct, VersionOk, Checks, Snapshots, Frozen, Judged,
         Selected, Actions, HumanBranches, Budgets;
    assert HistoryOk(Fold(codec, log).value.branches[b], Fold(codec, log).value.count);
  }

  // ----- origins -------------------------------------------------------------------

  /**
   A model step's hash is its Writer call's effective output hash, at the moment it
   was recorded and in every later state.
   */
  lemma EffectiveHashStays(codec: Codec, log: seq<Event>, k: nat, s: Id)
    requires Fold(codec, log).Some? && 0 < k <= |log| && Fold(codec, log[..k]).Some?
    requires s in Fold(codec, log[..k]).value.steps && Fold(codec, log[..k]).value.steps[s].origin.ModelOrigin?
    ensures var early, late := Fold(codec, log[..k]).value, Fold(codec, log).value;
            var c := early.steps[s].origin.call;
            && s in late.steps && late.steps[s] == early.steps[s]
            && c in early.calls && c in late.calls
            && WriterOutputSha(early.calls[c]) == Some(early.steps[s].sha)
            && WriterOutputSha(late.calls[c]) == Some(early.steps[s].sha)
            && early.steps[s].sha == codec.ContentSha(early.steps[s].content)
  {
    hide Fold;
    PrefixGrew(codec, log, k);
    FoldOk(codec, log);
    FoldOk(codec, log[..k]);
    var early, late := Fold(codec, log[..k]).value, Fold(codec, log).value;
    hide Slotted, Homed, Forks, Histories, Calls, RevisionsDistinct, VersionOk, Checks, Snapshots, Frozen, Judged,
         Selected, Budgets, Actions, HumanBranches, BranchesGrew, CallsGrew, ChecksGrew, JudgementsGrew;
    assert OriginFact(codec, early.branches, early.calls, early.actions, early.steps[s]);
    assert OriginFact(codec, late.branches, late.calls, late.actions, late.steps[s]);
  }

  /** No two steps were written by the same model call. */
  ghost predicate OriginsUnique(steps: map<Id, StepRevision>) {
    forall s, t | s in steps && t in steps && steps[s].origin.ModelOrigin? && steps[s].origin == steps[t].origin :: s == t
  }

  /** Some model revision already spent this call. */
  ghost predicate SpentByRevision(l: Ledger, call: Id) {
    exists s :: s in l.steps && Applied(l.branches, l.steps[s]) && l.steps[s].origin == ModelOrigin(call)
  }

  /** Two sealed steps that cite one call stand in the same slot, so they are one step. */
  lemma SealedStepsDiffer(codec: Codec, l: Ledger, n: nat, s: Id, t: Id)
    requires Inv(codec, l, n) && s in l.steps && t in l.steps
    requires l.steps[s].origin.ModelOrigin? && l.steps[s].origin == l.steps[t].origin
    requires !Applied(l.branches, l.steps[s]) && !Applied(l.branches, l.steps[t])
    ensures s == t
  {
    hide Slotted, Forks, Histories, Calls, RevisionsDistinct, VersionOk, Checks, Snapshots, Frozen, Judged,
         Selected, Budgets, Actions, HumanBranches, Applied;
    assert OriginFact(codec, l.branches, l.calls, l.actions, l.steps[s]);
    assert OriginFact(codec, l.branches, l.calls, l.actions, l.steps[t]);
    assert HomeOf(l.branches, s, l.steps[s]) && HomeOf(l.branches, t, l.steps[t]);
  }

  /** Record v1: slot discipline alone keeps origins unique. */
  lemma V1OriginsAreUnique(codec: Codec, log: seq<Event>)
    requires Fold(codec, log).Some? && Fold(codec, log).value.version == Some(V1)
    ensures OriginsUnique(Fold(codec, log).value.steps)
  {
    hide Fold;
    FoldOk(codec, log);
    var l := Fold(codec, log).value;
    hide Slotted, Homed, Forks, Histories, Calls, Origins, RevisionsDistinct, Checks, Snapshots, Frozen, Judged,
         Selected, Budgets, Actions, HumanBranches;
    forall s, t | s in l.steps && t in l.steps && l.steps[s].origin.ModelOrigin? && l.steps[s].origin == l.steps[t].origin
      ensures s == t
    {
      SealedStepsDiffer(codec, l, l.count, s, t);
    }
  }

  /** Either version: steps that share a call are exactly one revision step and one sealed step. */
  lemma SharedOriginsPairRevisionWithSeal(codec: Codec, log: seq<Event>, s: Id, t: Id)
    requires Fold(codec, log).Some? && s in Fold(codec, log).value.steps && t in Fold(codec, log).value.steps && s != t
    requires Fold(codec, log).value.steps[s].origin == Fold(codec, log).value.steps[t].origin
    requires Fold(codec, log).value.steps[s].origin.ModelOrigin?
    ensures var l := Fold(codec, log).value; Applied(l.branches, l.steps[s]) != Applied(l.branches, l.steps[t])
  {
    hide Fold;
    FoldOk(codec, log);
    var l := Fold(codec, log).value;
    hide Slotted, Homed, Forks, Histories, Calls, Origins, VersionOk, Checks, Snapshots, Frozen, Judged,
         Selected, Budgets, Actions, HumanBranches, Applied;
    if !Applied(l.branches, l.steps[s]) && !Applied(l.branches, l.steps[t]) {
      SealedStepsDiffer(codec, l, l.count, s, t);
    }
  }

  /**
   Exactly when sealing keeps origins unique: the handler has no reuse check, so it
   does as long as no model revision has already spent the cited call.
   */
  lemma SealKeepsOriginsUniqueIff(codec: Codec, l: Ledger, e: Event, n: nat)
    requires Inv(codec, l, n) && e.body.StepSealed? && CanSeal(codec, l, e) && e.body.origin.ModelOrigin?
    requires OriginsUnique(l.steps)
    ensures OriginsUnique(AfterSeal(l, e).steps) <==> !SpentByRevision(l, e.body.origin.call)
  {
    hide Inv, CanSeal, Applied;
    SealIsFresh(codec, l, e);
    var steps' := AfterSeal(l, e).steps;
    var call := e.body.origin.call;
    if s :| s in l.steps && Applied(l.branches, l.steps[s]) && l.steps[s].origin == ModelOrigin(call) {
      assert s in steps' && e.body.step in steps' && s != e.body.step;
    } else {
      forall s | s in l.steps
        ensures l.steps[s].origin != ModelOrigin(call)
      {
        if l.steps[s].origin == ModelOrigin(call) {
          FreshSlot(codec, l, e, n, s);
        }
      }
    }
  }

  lemma SealIsFresh(codec: Codec, l: Ledger, e: Event)
    requires e.body.StepSealed? && CanSeal(codec, l, e)
    ensures e.body.step !in l.steps && e.body.branch in l.branches
  {
  }

  /** A sealed step citing the same call would already stand in the slot being filled. */
  lemma FreshSlot(codec: Codec, l: Ledger, e: Event, n: nat, s: Id)
    requires Inv(codec, l, n) && e.body.StepSealed? && CanSeal(codec, l, e) && e.body.origin.ModelOrigin?
    requires s in l.steps && l.steps[s].origin == e.body.origin
    ensures Applied(l.branches, l.steps[s])
  {
    hide Slotted, Forks, Histories, Calls, RevisionsDistinct, VersionOk, Checks, Snapshots, Frozen, Judged,
         Selected, Budgets, Actions, HumanBranches, Applied;
    assert OriginFact(codec, l.branches, l.calls, l.actions, l.steps[s]);
    assert HomeOf(l.branches, s, l.steps[s]);
  }

  lemma OnlySealAndReviseWrite(codec: Codec, l: Ledger, e: Event)
    requires Accepts(codec, l, e) && !e.body.StepSealed? && !e.body.ModelRevisionApplied?
    ensures Effect(codec, l, e).steps == l.steps
  {
    hide CanHumanAction, CanCreateBranch, CanChangeStatus, CanStartCall, CanChunk, CanFinishCall, CanAbortCall, OpenCall, CanSeal,
         CanRequestCheck, CanCompleteCheck, CanDeclare, CanRequestJudgement, CanCompleteJudgement, CanSelect, CanRegisterSource,
         CanRevise, CanDefer, CanRetryCheck, CanCompleteRoute, CanNormalize;
    hide AfterRun, AfterHumanAction, AfterCreateBranch, AfterChangeStatus, AfterStartCall, AfterChunk, AfterClose,
         AfterRequestCheck, AfterCompleteCheck, AfterDeclare, AfterRequestJudgement, AfterCompleteJudgement, AfterSelect,
         AfterRegisterSource, AfterDefer, AfterRetryCheck, AfterCompleteRoute, AfterNormalize;
  }

  /** No event but a seal can make two steps share a call. */
  lemma OnlySealsShareOrigins(codec: Codec, l: Ledger, e: Event)
    requires Accepts(codec, l, e) && !e.body.StepSealed? && OriginsUnique(l.steps)
    ensures OriginsUnique(Effect(codec, l, e).steps)
  {
    if e.body.ModelRevisionApplied? {
      ReviseKeepsUnique(codec, l, e);
    } else {
      hide Accepts, Effect;
      OnlySealAndReviseWrite(codec, l, e);
    }
  }

  lemma ReviseKeepsUnique(codec: Codec, l: Ledger, e: Event)
    requires e.body.ModelRevisionApplied? && CanRevise(codec, l, e) && OriginsUnique(l.steps)
    ensures OriginsUnique(AfterRevise(codec, l, e).steps)
  {
    assert forall s :: s in l.steps ==> l.steps[s].origin != ModelOrigin(e.body.call);
  }

  // ----- the hash chain ------------------------------------------------------------

  /** Events that differ in anything but their own hash have different hashes. */
  ghost predicate CollisionFree(codec: Codec) {
    forall a: Event, b: Event :: codec.Seal(a) == codec.Seal(b) ==> a.(sha := 0) == b.(sha := 0)
  }

  /** The head hash fixes the whole log: no event can be altered, dropped or reordered. */
  lemma {:induction false} HeadFixesLog(codec: Codec, a: seq<Event>, b: seq<Event>)
    requires CollisionFree(codec) && Fold(codec, a).Some? && Fold(codec, b).Some?
    requires Fold(codec, a).value.head == Fold(codec, b).value.head
    ensures a == b
    decreases |a|
  {
    hide Accepts, Effect, ReachedOk, CollisionFree;
    FoldOk(codec, a);
    FoldOk(codec, b);
    if a != [] && b != [] {
      var fa, fb := a[..|a| - 1], b[..|b| - 1];
      var ea, eb := a[|a| - 1], b[|b| - 1];
      FoldOk(codec, fa);
      FoldOk(codec, fb);
      assert ea == eb by {
        SealFixesEvent(codec, ea, eb);
      }
      assert |fa| == |fb|;
      if fa != [] {
        RunIdStarts(codec, fa);
        RunIdStarts(codec, fb);
      }
      HeadFixesLog(codec, fa, fb);
      assert a == fa + [ea] && b == fb + [eb];
    } else if a != [] {
      EmptyHead(codec, a);
    } else if b != [] {
      EmptyHead(codec, b);
    }
  }

  lemma SealFixesEvent(codec: Codec, a: Event, b: Event)
    requires CollisionFree(codec) && a.sha == codec.Seal(a) && b.sha == codec.Seal(b) && a.sha == b.sha
    ensures a == b
  {
    assert a.(sha := 0) == b.(sha := 0);
  }

  lemma RunIdStarts(codec: Codec, log: seq<Event>)
    requires Fold(codec, log).Some? && log != []
    ensures Fold(codec, log).value.runId.Some?
  {
    hide Fold;
    FoldOk(codec, log);
  }

  lemma EmptyHead(codec: Codec, log: seq<Event>)
    requires Fold(codec, log).Some? && log != []
    ensures Fold(codec, log).value.head != Fold(codec, []).value.head
  {
    FoldOk(codec, log);
  }
}
