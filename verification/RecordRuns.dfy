/** Whole logs: the invariant holds after every accepted prefix, and prefixes only grow. */
module RecordRuns {
  import opened Wrappers
  import opened RecordModel
  import opened RecordRules
  import opened RecordInvariant
  import opened RecordGrowth
  import opened RecordSteps

  /** The invariant of a ledger reached from the empty one. */
  ghost predicate ReachedOk(codec: Codec, l: Ledger) {
    && Inv(codec, l, l.count)
    && (l != EMPTY_LEDGER ==> l.run.Some? && l.version.Some? && l.runId.Some? && l.head.Some?)
  }

  lemma EmptyOk(codec: Codec)
    ensures ReachedOk(codec, EMPTY_LEDGER)
  {
  }

  lemma RunCreatedGood(codec: Codec, l: Ledger, e: Event, n: nat)
    requires Inv(codec, l, n) && e.body.RunCreated? && l.run.None? && l.branches == map[] && l.calls == map[]
    ensures Good(codec, l, AfterRun(l, e), n)
  {
    GrewSelf(l);
    hide Slotted, Homed, Forks, Histories, Calls, Origins, RevisionsDistinct, VersionOk, Checks, Snapshots, Frozen, Judged,
         Selected, Actions, HumanBranches;
    CoreKept(codec, l, l, n);
    assert ActiveBranches(l.branches) == {};
  }

  /** One accepted event: the invariant is kept and settled facts stay. */
  lemma EventGood(codec: Codec, l: Ledger, e: Event, n: nat)
    requires Inv(codec, l, n) && e.seq_ == n + 1 && Accepts(codec, l, e)
    requires l.run.None? ==> l.branches == map[] && l.calls == map[]
    ensures Good(codec, l, Effect(codec, l, e), n)
  {
    hide Inv, Good, CanHumanAction, CanCreateBranch, CanChangeStatus, CanStartCall, CanSeal, CanRequestCheck,
         CanCompleteCheck, CanDeclare, CanRequestJudgement, CanCompleteJudgement, CanSelect, CanRegisterSource, CanRevise,
         CanRetryCheck, CanNormalize;
    hide AfterRun, AfterHumanAction, AfterCreateBranch, AfterChangeStatus, AfterStartCall, AfterChunk, AfterClose, AfterSeal,
         AfterRequestCheck, AfterCompleteCheck, AfterDeclare, AfterRequestJudgement, AfterCompleteJudgement, AfterSelect,
         AfterRegisterSource, AfterRevise, AfterRetryCheck, AfterCompleteRoute, AfterNormalize;
    match e.body {
      case RunCreated(_, _) => RunCreatedGood(codec, l, e, n);
      case HumanActionRecorded(_, _, _, _, _) => HumanActionGood(codec, l, e, n);
      case BranchCreated(_, _, _, _, _, _, _, _, _) => CreateBranchGood(codec, l, e, n);
      case BranchStatusChanged(_, _, _, _, _, _, _) => ChangeStatusGood(codec, l, e, n);
      case ModelCallStarted(_, _, _, _) => StartCallGood(codec, l, e, n);
      case ModelCallChunk(_, _, _, _, _) => ChunkGood(codec, l, e, n);
      case ModelCallFinished(c, o) => CloseGood(codec, l, c, Finished, o, n);
      case ModelCallFailed(c, o) => CloseGood(codec, l, c, Failed, o, n);
      case ModelCallAborted(c, _, o) => CloseGood(codec, l, c, Aborted, o, n);
      case StepSealed(_, _, _, _, _, _, _, _) => SealGood(codec, l, e, n);
      case CheckRequested(_, _, _, _) => RequestCheckGood(codec, l, e, n);
      case CheckCompleted(_, _, _, _, _, _) => CompleteCheckGood(codec, l, e, n);
      case CandidateDeclared(_, _, _, _, _, _, _, _) => DeclareGood(codec, l, e, n);
      case JudgementRequested(_, _, _, _) => RequestJudgementGood(codec, l, e, n);
      case JudgementCompleted(_, _, _, _, _) => CompleteJudgementGood(codec, l, e, n);
      case SelectionRecorded(_, _, _, _, _) => SelectGood(codec, l, e, n);
      case SourceRegistered(_, _, _) => RegisterSourceGood(codec, l, e, n);
      case ModelRevisionApplied(_, _, _, _, _, _, _) => ReviseGood(codec, l, e, n);
      case ModelRevisionDeferred(c, prior) => DisposedGood(codec, l, c, RevisionDeferred(prior), n);
      case CheckRetryAuthorized(_, _) => RetryCheckGood(codec, l, e, n);
      case WriterRouteCompletion(_, _, _) => CompleteRouteGood(codec, l, e, n);
      case WriterOutputNormalized(_, _, _, _, _) => NormalizeGood(codec, l, e, n);
    }
  }

  /** Checking the envelope changes no object. */
  lemma EnteredOk(codec: Codec, l: Ledger, e: Event)
    requires ReachedOk(codec, l) && EnvelopeOk(codec, l, e)
    ensures Inv(codec, Entered(l, e), l.count)
    ensures l != EMPTY_LEDGER ==> Entered(l, e).version == l.version && Entered(l, e).runId == l.runId
  {
  }

  lemma StartsRun(codec: Codec, l: Ledger, e: Event)
    requires Accepts(codec, l, e) && Grew(l, Effect(codec, l, e)) && (l.run.Some? || e.body.RunCreated?)
    ensures Effect(codec, l, e).run.Some?
    ensures Effect(codec, l, e).version == l.version && Effect(codec, l, e).runId == l.runId
  {
    hide CanHumanAction, CanCreateBranch, CanChangeStatus, CanStartCall, CanSeal, CanRequestCheck,
         CanCompleteCheck, CanDeclare, CanRequestJudgement, CanCompleteJudgement, CanSelect, CanRegisterSource, CanRevise,
         CanDefer, CanRetryCheck, CanCompleteRoute, CanNormalize;
    hide AfterHumanAction, AfterCreateBranch, AfterChangeStatus, AfterStartCall, AfterChunk, AfterClose, AfterSeal,
         AfterRequestCheck, AfterCompleteCheck, AfterDeclare, AfterRequestJudgement, AfterCompleteJudgement, AfterSelect,
         AfterRegisterSource, AfterRevise, AfterRetryCheck, AfterCompleteRoute, AfterNormalize, AfterDefer;
    hide Kept, BranchesGrew, CallsGrew, ChecksGrew, JudgementsGrew;
  }

  lemma GrewIgnoresHead(a: Ledger, b: Ledger, c: Ledger, n: nat, h: Option<Sha>)
    requires Grew(a, b) && c.version == a.version && c.runId == a.runId
    requires c.run == a.run && c.actions == a.actions && c.branches == a.branches && c.calls == a.calls && c.steps == a.steps
    requires c.checks == a.checks && c.candidates == a.candidates && c.judgements == a.judgements
    requires c.selections == a.selections && c.sources == a.sources
    ensures Grew(c, b.(count := n, head := h))
  {
    hide Kept, BranchesGrew, CallsGrew, ChecksGrew, JudgementsGrew;
  }

  lemma InvIgnoresHead(codec: Codec, l: Ledger, n: nat, h: Option<Sha>, k: nat)
    requires Inv(codec, l, k)
    ensures Inv(codec, l.(count := n, head := h), k)
  {
    hide Slotted, Homed, Forks, Histories, Calls, Origins, RevisionsDistinct, VersionOk, Checks, Snapshots, Frozen, Judged,
         Selected, Budgets, Actions, HumanBranches;
  }

  /** An admitted event keeps everything a ledger promises. */
  lemma NextOk(codec: Codec, l: Ledger, e: Event)
    requires ReachedOk(codec, l) && Admits(codec, l, e)
    ensures ReachedOk(codec, Next(codec, l, e))
    ensures l != EMPTY_LEDGER ==> Grew(l, Next(codec, l, e))
  {
    hide Accepts, Effect, Inv, Grew;
    var m := Entered(l, e);
    EnteredOk(codec, l, e);
    EventGood(codec, m, e, l.count);
    var l1 := Effect(codec, m, e);
    InvIgnoresHead(codec, l1, l.count + 1, Some(e.sha), l.count + 1);
    StartsRun(codec, m, e);
    if l != EMPTY_LEDGER {
      GrewIgnoresHead(m, l1, l, l.count + 1, Some(e.sha));
    }
  }

  /** Whatever log replay accepts, its ledger satisfies the invariant. */
  lemma {:induction false} FoldOk(codec: Codec, log: seq<Event>)
    requires Fold(codec, log).Some?
    ensures ReachedOk(codec, Fold(codec, log).value)
    ensures Fold(codec, log).value.count == |log|
    ensures log != [] ==> Fold(codec, log).value != EMPTY_LEDGER
    ensures log != [] ==> Fold(codec, log).value.head == Some(log[|log| - 1].sha)
    decreases |log|
  {
    hide Accepts, Effect, Inv, EnvelopeOk;
    if log == [] {
      EmptyOk(codec);
    } else {
      FoldOk(codec, log[..|log| - 1]);
      NextOk(codec, Fold(codec, log[..|log| - 1]).value, log[|log| - 1]);
    }
  }

  /** A longer log is a growth of every non-empty prefix of it. */
  lemma {:induction false} PrefixGrew(codec: Codec, log: seq<Event>, k: nat)
    requires Fold(codec, log).Some? && 0 < k <= |log|
    ensures Fold(codec, log[..k]).Some?
    ensures Grew(Fold(codec, log[..k]).value, Fold(codec, log).value)
    decreases |log|
  {
    hide Accepts, Effect, EnvelopeOk, Grew, ReachedOk;
    if k == |log| {
      assert log[..k] == log;
      GrewSelf(Fold(codec, log).value);
    } else {
      var front := log[..|log| - 1];
      assert front[..k] == log[..k];
      PrefixGrew(codec, front, k);
      FoldOk(codec, front);
      NextOk(codec, Fold(codec, front).value, log[|log| - 1]);
      GrewTransitive(Fold(codec, log[..k]).value, Fold(codec, front).value, Fold(codec, log).value);
    }
  }
}
