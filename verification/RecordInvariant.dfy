/**
 What every accepted event keeps. No handler states these facts: they follow from
 how the guards of different handlers interact. Each clause of Inv takes only the
 maps it speaks of, so that an event leaves the other clauses untouched.
 */
module RecordInvariant {
  import opened Wrappers
  import opened RecordModel
  import opened RecordRules

  // ----- transcripts and forks -------------------------------------------------

  /** Element i of every transcript is a known step that carries slot i+1. */
  ghost predicate Slotted(branches: map<Id, Branch>, steps: map<Id, StepRevision>) {
    forall b :: b in branches ==> TranscriptOk(steps, branches[b].steps)
  }

  ghost predicate TranscriptOk(steps: map<Id, StepRevision>, ids: seq<Id>) {
    forall i :: 0 <= i < |ids| ==> ids[i] in steps && steps[ids[i]].slot == i + 1
  }

  predicate HomeOf(branches: map<Id, Branch>, s: Id, st: StepRevision) {
    && st.branch in branches
    && |branches[st.branch].inherited| < st.slot <= |branches[st.branch].steps|
    && branches[st.branch].steps[st.slot - 1] == s
  }

  /** Every step stands in its own branch's transcript, behind the inherited part. */
  ghost predicate Homed(branches: map<Id, Branch>, steps: map<Id, StepRevision>) {
    forall s :: s in steps ==> HomeOf(branches, s, steps[s])
  }

  function Born(b: Branch): nat {
    if b.history == [] then 0 else b.history[0].seq_
  }

  /** The inherited list is an exact prefix, cut at the anchor, of the parent as it is now. */
  predicate ForkOk(branches: map<Id, Branch>, steps: map<Id, StepRevision>, br: Branch) {
    && br.inherited <= br.steps
    && (br.reason.ModelRevision? ==> |br.inherited| < |br.steps|)
    && match br.parent
       case None => br.mode.Root? && br.anchor.None? && br.inherited == [] && br.reason.RootBranch?
       case Some(p) =>
         && p in branches && Born(branches[p]) < Born(br) && !br.mode.Root? && !br.reason.RootBranch?
         && br.anchor.Some? && br.anchor.value in steps
         && var k := steps[br.anchor.value].slot;
         && 0 < k <= |branches[p].steps| && branches[p].steps[k - 1] == br.anchor.value
         && br.inherited == branches[p].steps[..if br.mode.After? then k else k - 1]
  }

  ghost predicate Forks(branches: map<Id, Branch>, steps: map<Id, StepRevision>) {
    forall b :: b in branches ==> ForkOk(branches, steps, branches[b])
  }

  predicate HistoryOk(br: Branch, n: nat) {
    && br.history != [] && br.history[0].from.None? && br.history[0].to in {Active, Paused}
    && br.history[|br.history| - 1].to == br.status
    && (forall i :: 0 <= i < |br.history| ==> br.history[i].seq_ <= n)
    && (forall i :: 0 < i < |br.history| ==>
          && br.history[i].from == Some(br.history[i - 1].to)
          && br.history[i].to in Transitions(br.history[i - 1].to)
          && br.history[i - 1].seq_ < br.history[i].seq_)
  }

  /** Status histories are unbroken, legal, dated, and end in the current status. */
  ghost predicate Histories(branches: map<Id, Branch>, n: nat) {
    forall b :: b in branches ==> HistoryOk(branches[b], n)
  }

  // ----- calls and origins -----------------------------------------------------

  predicate CallOk(codec: Codec, branches: map<Id, Branch>, c: Call) {
    && (match c.target
        case WriterTarget(b, slot) => c.role.WriterRole? && b in branches && 1 <= slot <= |branches[b].steps| + 1
        case CheckerTarget(_) => c.role.CheckerRole?
        case JudgeTarget(_) => c.role.JudgeRole?)
    && (c.output.Some? <==> Terminal(c.state))
    && (c.output.Some? ==> codec.Sound(c.output.value))
    && (c.normalized.Some? || c.disposition.Some? ==> c.role.WriterRole? && c.state.Finished?)
  }

  ghost predicate Calls(codec: Codec, branches: map<Id, Branch>, calls: map<Id, Call>) {
    forall c :: c in calls ==> CallOk(codec, branches, calls[c])
  }

  /** The step that a model revision wrote together with its branch. */
  predicate Applied(branches: map<Id, Branch>, st: StepRevision) {
    st.branch in branches && branches[st.branch].reason.ModelRevision? && st.slot == |branches[st.branch].inherited| + 1
  }

  predicate OriginFact(codec: Codec, branches: map<Id, Branch>, calls: map<Id, Call>, actions: map<Id, Action>, st: StepRevision) {
    && st.sha == codec.ContentSha(st.content)
    && match st.origin
       case ModelOrigin(c) =>
         && c in calls && calls[c].role.WriterRole? && calls[c].state.Finished?
         && WriterOutputSha(calls[c]) == Some(st.sha)
         && st.branch in branches
         && (if Applied(branches, st) then
               calls[c].target.WriterTarget? && Some(calls[c].target.branch) == branches[st.branch].parent
             else calls[c].target == WriterTarget(st.branch, st.slot))
       case HumanOrigin(a) => a in actions && actions[a].kind == ReviseStep && actions[a].contentSha == Some(st.sha)
  }

  /** A model step's hash is the effective hash of a finished Writer call that targeted it. */
  ghost predicate Origins(codec: Codec, branches: map<Id, Branch>, calls: map<Id, Call>, actions: map<Id, Action>,
                          steps: map<Id, StepRevision>) {
    forall s :: s in steps ==> OriginFact(codec, branches, calls, actions, steps[s])
  }

  /** Model revisions never reuse a call. */
  ghost predicate RevisionsDistinct(branches: map<Id, Branch>, steps: map<Id, StepRevision>) {
    forall s, t | s in steps && t in steps && Applied(branches, steps[s]) && Applied(branches, steps[t])
      :: steps[s].origin == steps[t].origin && steps[s].origin.ModelOrigin? ==> s == t
  }

  /** Only Record 1.1 has branches created by a model revision. */
  ghost predicate VersionOk(v11: bool, branches: map<Id, Branch>) {
    v11 || forall b :: b in branches ==> !branches[b].reason.ModelRevision?
  }

  // ----- checks, candidates, verdicts ------------------------------------------

  predicate CheckOk(steps: map<Id, StepRevision>, c: Check, n: nat) {
    && c.target in steps && c.sha == steps[c.target].sha
    && (c.verdict.Some? <==> c.completed.Some?)
    && (c.completed.Some? ==> c.completed.value <= n)
  }

  ghost predicate Checks(steps: map<Id, StepRevision>, checks: map<Id, Check>, n: nat) {
    forall c :: c in checks ==> CheckOk(steps, checks[c], n)
  }

  ghost predicate Snapshot(codec: Codec, branches: map<Id, Branch>, steps: map<Id, StepRevision>, c: Candidate) {
    && c.transcript != [] && c.branch in branches && c.transcript <= branches[c.branch].steps
    && (forall i :: 0 <= i < |c.transcript| ==> c.transcript[i] in steps)
    && c.sha == codec.transcriptSha(Material(c.transcript, steps))
  }

  /** A candidate stays a prefix of its branch, and its hash can still be recomputed. */
  ghost predicate Snapshots(codec: Codec, branches: map<Id, Branch>, steps: map<Id, StepRevision>, candidates: map<Id, Candidate>) {
    forall c :: c in candidates ==> Snapshot(codec, branches, steps, candidates[c])
  }

  /** The frozen check list: nothing required is missing, and in v1 nothing more is in it. */
  ghost predicate FrozenOk(v11: bool, checks: map<Id, Check>, c: Candidate) {
    && RequiredChecks(checks, c.transcript) <= (set r | r in c.required)
    && forall r :: r in c.required ==>
         && r in checks && checks[r].target in c.transcript
         && (checks[r].required || (v11 && checks[r].verdict == Some(InstrumentFailure)))
  }

  ghost predicate Frozen(v11: bool, checks: map<Id, Check>, candidates: map<Id, Candidate>) {
    forall c :: c in candidates ==> FrozenOk(v11, checks, candidates[c])
  }

  ghost predicate Judged(v11: bool, checks: map<Id, Check>, candidates: map<Id, Candidate>, judgements: map<Id, Judgement>) {
    forall j :: j in judgements ==>
      && judgements[j].candidate in candidates
      && judgements[j].sha == candidates[judgements[j].candidate].sha
      && Judgeable(v11, StatusOf(v11, checks, candidates[judgements[j].candidate].required))
  }

  ghost predicate Selected(v11: bool, checks: map<Id, Check>, candidates: map<Id, Candidate>, judgements: map<Id, Judgement>,
                           selections: map<Id, Selection>) {
    forall s :: s in selections ==>
      && selections[s].candidate in candidates
      && StatusOf(v11, checks, candidates[selections[s].candidate].required) == Eligible
      && selections[s].judgement in judgements
      && judgements[selections[s].judgement].candidate == selections[s].candidate
      && judgements[selections[s].judgement].verdict == Some(Pass)
  }

  predicate ActionOk(branches: map<Id, Branch>, steps: map<Id, StepRevision>, calls: map<Id, Call>,
                     candidates: map<Id, Candidate>, a: Action, n: nat) {
    && a.seq_ <= n
    && match a.target
       case OnBranch(b) => b in branches
       case OnStep(s) => s in steps
       case OnCall(c) => c in calls
       case OnCandidate(c) => c in candidates
  }

  ghost predicate Actions(branches: map<Id, Branch>, steps: map<Id, StepRevision>, calls: map<Id, Call>,
                          candidates: map<Id, Candidate>, actions: map<Id, Action>, n: nat) {
    forall a :: a in actions ==> ActionOk(branches, steps, calls, candidates, actions[a], n)
  }

  /** A branch a human created cites the action that asked for it. */
  ghost predicate HumanBranches(branches: map<Id, Branch>, actions: map<Id, Action>) {
    forall b :: b in branches && branches[b].reason in {HumanDirection, HumanHypothesis, HumanRevision} ==>
      branches[b].action.Some? && branches[b].action.value in actions
  }

  /** The two budgets of the run configuration. */
  predicate Budgets(run: Option<Run>, branches: map<Id, Branch>, calls: map<Id, Call>) {
    && WithinActiveLimit(run, branches)
    && (run.Some? && run.value.config.maxModelCalls.Some? ==> |calls| <= run.value.config.maxModelCalls.value)
  }

  /** The invariant of a ledger in which every recorded sequence number is at most n. */
  ghost predicate Inv(codec: Codec, l: Ledger, n: nat) {
    && Slotted(l.branches, l.steps)
    && Homed(l.branches, l.steps)
    && Forks(l.branches, l.steps)
    && Histories(l.branches, n)
    && Calls(codec, l.branches, l.calls)
    && Origins(codec, l.branches, l.calls, l.actions, l.steps)
    && RevisionsDistinct(l.branches, l.steps)
    && VersionOk(l.IsV11(), l.branches)
    && Checks(l.steps, l.checks, n)
    && Snapshots(codec, l.branches, l.steps, l.candidates)
    && Frozen(l.IsV11(), l.checks, l.candidates)
    && Judged(l.IsV11(), l.checks, l.candidates, l.judgements)
    && Selected(l.IsV11(), l.checks, l.candidates, l.judgements, l.selections)
    && Actions(l.branches, l.steps, l.calls, l.candidates, l.actions, n)
    && HumanBranches(l.branches, l.actions)
    && Budgets(l.run, l.branches, l.calls)
  }
}
