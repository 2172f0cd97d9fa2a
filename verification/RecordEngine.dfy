/**
 ReplayEngine: the handlers as they run, check by check, on the engine's own
 dictionaries. Each is proved against the guard and effect of RecordRules. A handler
 that answers false has raised, and replay ends there.
 */
module RecordEngine {
  import opened Wrappers
  import opened RecordModel
  import opened RecordRules
  import opened RecordInvariant
  import opened RecordGrowth
  import opened RecordSteps
  import opened RecordRuns
  import opened RecordLineage
  import opened RecordProvenance

  function Reversed(s: seq<Id>): seq<Id> {
    if s == [] then [] else Reversed(s[1..]) + [s[0]]
  }

  lemma OpensWithRun(codec: Codec, l: Ledger, e: Event)
    requires ReachedOk(codec, l) && EnvelopeOk(codec, l, e)
    ensures l.run.Some? || e.body.RunCreated?
    ensures l.runId.Some? ==> l.head.Some?
  {
    hide Inv;
  }

  lemma SelectionsHold(codec: Codec, l: Ledger)
    requires ReachedOk(codec, l)
    ensures Selected(l.IsV11(), l.checks, l.candidates, l.judgements, l.selections)
  {
  }

  /** No handler touches the event count: only replay itself does. */
  lemma CountsEvent(codec: Codec, l: Ledger, e: Event)
    requires Accepts(codec, Entered(l, e), e)
    ensures Effect(codec, Entered(l, e), e).count == l.count
  {
    hide CanHumanAction, CanCreateBranch, CanChangeStatus, CanStartCall, CanChunk, CanFinishCall, CanAbortCall, OpenCall, CanSeal,
         CanRequestCheck, CanCompleteCheck, CanDeclare, CanRequestJudgement, CanCompleteJudgement, CanSelect, CanRegisterSource,
         CanRevise, CanDefer, CanRetryCheck, CanCompleteRoute, CanNormalize, SameTranscripts;
    hide AfterRun, AfterHumanAction, AfterCreateBranch, AfterChangeStatus, AfterStartCall, AfterChunk, AfterClose, AfterSeal,
         AfterRequestCheck, AfterCompleteCheck, AfterDeclare, AfterRequestJudgement, AfterCompleteJudgement, AfterSelect,
         AfterRegisterSource, AfterRevise, AfterDefer, AfterRetryCheck, AfterCompleteRoute, AfterNormalize;
  }

  class ReplayEngine {
    const codec: Codec
    var version: Option<Version>
    var run: Option<Run>
    var runId: Option<Id>
    var count: nat
    var eventIds: set<Id>
    var head: Option<Sha>
    var actions: map<Id, Action>
    var branches: map<Id, Branch>
    var calls: map<Id, Call>
    var steps: map<Id, StepRevision>
    var checks: map<Id, Check>
    var candidates: map<Id, Candidate>
    var judgements: map<Id, Judgement>
    var selections: map<Id, Selection>
    var sources: map<Id, Source>

    constructor (codec: Codec)
      ensures this.codec == codec && State() == EMPTY_LEDGER
    {
      this.codec := codec;
      version, run, runId, count, eventIds, head := None, None, None, 0, {}, None;
      actions, branches, calls, steps, checks := map[], map[], map[], map[], map[];
      candidates, judgements, selections, sources := map[], map[], map[], map[];
    }

    ghost function State(): Ledger
      reads this
    {
      Ledger(version, run, runId, count, eventIds, head, actions, branches, calls, steps, checks, candidates, judgements,
             selections, sources)
    }

    predicate IsV11()
      reads this
    {
      version == Some(V1_1)
    }

    /** Some step already cites this call. */
    predicate AlreadyMaterialized(call: Id)
      reads this
    {
      exists s :: s in steps && steps[s].origin == ModelOrigin(call)
    }

    predicate ActiveLimitOk()
      reads this
    {
      run.Some? && run.value.config.maxActiveBranches.Some? ==>
        |ActiveBranches(branches)| <= run.value.config.maxActiveBranches.value
    }

    // ----- branches ----------------------------------------------------------------

    method OnHumanActionRecorded(e: Event) returns (ok: bool)
      requires e.body.HumanActionRecorded?
      modifies this
      ensures ok == CanHumanAction(codec, old(State()), e)
      ensures ok ==> State() == AfterHumanAction(old(State()), e)
    {
      var p := e.body;
      if !e.actor.Human? { return false; }
      if p.action in actions { return false; }
      match p.text {
        case None =>
          if p.textSha.Some? { return false; }
          if p.kind in {ReviseStep, SetDirection, SetHypothesis} { return false; }
        case Some(text) =>
          if p.textSha != Some(codec.textSha(text)) { return false; }
      }
      match p.actionTarget {
        case OnBranch(b) =>
          if p.kind !in {PauseBranch, ResumeBranch, KillBranch, SetDirection, SetHypothesis} { return false; }
          if b !in branches { return false; }
        case OnStep(s) =>
          if p.kind != ReviseStep || s !in steps { return false; }
        case OnCall(c) =>
          if p.kind != AbortModelCall || c !in calls { return false; }
        case OnCandidate(c) =>
          if p.kind != SelectCandidate || c !in candidates { return false; }
      }
      actions := actions[p.action := Action(p.kind, p.actionTarget, p.text, p.textSha, e.id, e.seq_)];
      return true;
    }

    /** The clauses of a child branch that a human asked for. */
    method HumanFork(e: Event, parent: Id, anchor: Id, kind: ActionKind) returns (ok: bool)
      requires e.body.BranchCreated?
      ensures ok == HumanForkOk(State(), e, parent, anchor, kind)
    {
      var p := e.body;
      if !e.actor.Human? { return false; }
      if p.humanAction.None? || p.humanAction.value !in actions { return false; }
      var action := actions[p.humanAction.value];
      if action.kind != kind { return false; }
      if !p.hypothesis.source.FromHuman? { return false; }
      if p.hypothesis.sourceEvent != Some(action.event) { return false; }
      if kind == ReviseStep {
        return p.mode.Replace? && action.target == OnStep(anchor);
      } else {
        return action.target == OnBranch(parent) && action.content == Some(p.hypothesis.text);
      }
    }

    method ChildBranch(e: Event, parent: Id) returns (ok: bool)
      requires e.body.BranchCreated?
      ensures ok == CanFork(State(), e, parent)
    {
      var p := e.body;
      if parent !in branches { return false; }
      if p.mode.Root? { return false; }
      if p.anchor.None? || p.anchor.value !in steps { return false; }
      var parentSteps := branches[parent].steps;
      if p.anchor.value !in parentSteps { return false; }
      var anchorIndex := IndexOf(parentSteps, p.anchor.value);
      var expectedPrefix := parentSteps[..anchorIndex + if p.mode.After? then 1 else 0];
      if p.inherited != expectedPrefix { return false; }
      match p.reason {
        case HumanDirection => ok := HumanFork(e, parent, p.anchor.value, SetDirection);
        case HumanHypothesis => ok := HumanFork(e, parent, p.anchor.value, SetHypothesis);
        case HumanRevision => ok := HumanFork(e, parent, p.anchor.value, ReviseStep);
        case ModelAlternative =>
          ok := p.humanAction.None? && e.actor.Model? && p.hypothesis.source.FromModel?;
        case InstrumentRetry =>
          ok := p.humanAction.None? && e.actor in {System, Model} && p.hypothesis.source in {FromModel, Inherited};
        case RootBranch => ok := false;
        case ModelRevision => ok := false;
      }
    }

    method OnBranchCreated(e: Event) returns (ok: bool)
      requires e.body.BranchCreated?
      modifies this
      ensures ok == CanCreateBranch(old(State()), e)
      ensures ok ==> State() == AfterCreateBranch(old(State()), e)
    {
      var p := e.body;
      if p.branch in branches { return false; }
      if p.initial !in {Active, Paused} { return false; }
      match p.parent {
        case None =>
          if !e.actor.System? || !p.mode.Root? || p.anchor.Some? || p.inherited != [] { return false; }
          if !p.reason.RootBranch? || p.humanAction.Some? { return false; }
        case Some(parent) =>
          var forks := ChildBranch(e, parent);
          if !forks { return false; }
      }
      branches := branches[p.branch := Branch(p.parent, p.mode, p.anchor, p.inherited, p.inherited, p.hypothesis, p.initial,
                                              p.reason, p.humanAction, [StatusChange(e.seq_, None, p.initial)])];
      return ActiveLimitOk();
    }

    method CheckStatusReason(e: Event) returns (ok: bool)
      requires e.body.BranchStatusChanged? && e.body.branch in branches
      requires Calls(codec, branches, calls)
      ensures ok == StatusReasonOk(codec, State(), e)
    {
      var p := e.body;
      var branch := branches[p.branch];
      match p.statusReason {
        case HumanPause => ok := HumanTransition(e, PauseBranch);
        case HumanResume => ok := HumanTransition(e, ResumeBranch);
        case HumanKill => ok := HumanTransition(e, KillBranch);
        case ManualReopen =>
          ok := HumanTransition(e, ResumeBranch);
          ok := ok && p.to.Active?;
        case WriterComplete =>
          ok := e.actor.Model? && p.to.Completed? && p.humanAction.None? && p.citedCheck.None? && p.citedCall.None?;
        case RuntimeFailure =>
          if !IsV11() || !e.actor.System? || !p.to.Paused? { return false; }
          if p.humanAction.Some? || p.citedCall.None? || p.citedCall.value !in calls { return false; }
          var call := calls[p.citedCall.value];
          assert CallOk(codec, branches, call);
          if call.state !in {Failed, Aborted} { return false; }
          if call.role.WriterRole? {
            ok := call.target.branch == p.branch && p.citedCheck.None?;
          } else {
            if !call.role.CheckerRole? || p.citedCheck.None? || p.citedCheck.value !in checks { return false; }
            ok := call.target.check == p.citedCheck.value && checks[p.citedCheck.value].target in branch.steps;
          }
        case WriterBlocked =>
          if !IsV11() || !e.actor.Model? || !p.to.Parked? { return false; }
          if p.humanAction.Some? || p.citedCheck.Some? || p.citedCall.None? || p.citedCall.value !in calls { return false; }
          var call := calls[p.citedCall.value];
          assert CallOk(codec, branches, call);
          if !call.role.WriterRole? || !call.state.Finished? || call.target.branch != p.branch { return false; }
          var control := WriterControl(codec, call);
          ok := control.Some? && control.value.decision.Blocked?;
        case HardDefectReason =>
          if e.actor !in {Checker, System} || p.humanAction.Some? || p.citedCall.Some? { return false; }
          if p.citedCheck.None? || p.citedCheck.value !in checks { return false; }
          var check := checks[p.citedCheck.value];
          ok := check.verdict == Some(HardDefect) && check.target in branch.steps && p.to.Killed?;
        case InstrumentFailureReason =>
          if !e.actor.System? || p.humanAction.Some? || p.citedCheck.Some? { return false; }
          if p.citedCall.None? || p.citedCall.value !in calls { return false; }
          var call := calls[p.citedCall.value];
          assert CallOk(codec, branches, call);
          if !call.role.WriterRole? || call.target.branch != p.branch { return false; }
          if call.state !in {Failed, Aborted} { return false; }
          ok := call.output.value.bodyChars == 0 && p.to.Parked?;
      }
    }

    method HumanTransition(e: Event, kind: ActionKind) returns (ok: bool)
      requires e.body.BranchStatusChanged?
      ensures ok <==> e.actor.Human? && CitesAction(State(), e.body.humanAction, kind, e.body.branch)
                      && e.body.citedCheck.None? && e.body.citedCall.None?
    {
      var p := e.body;
      if !e.actor.Human? { return false; }
      if p.humanAction.None? || p.humanAction.value !in actions { return false; }
      if actions[p.humanAction.value].kind != kind { return false; }
      if actions[p.humanAction.value].target != OnBranch(p.branch) { return false; }
      return p.citedCheck.None? && p.citedCall.None?;
    }

    method OnBranchStatusChanged(e: Event) returns (ok: bool)
      requires e.body.BranchStatusChanged? && Calls(codec, branches, calls)
      modifies this
      ensures ok == CanChangeStatus(codec, old(State()), e)
      ensures ok ==> State() == AfterChangeStatus(old(State()), e)
    {
      var p := e.body;
      if p.branch !in branches { return false; }
      var branch := branches[p.branch];
      if p.from != branch.status { return false; }
      if p.to !in Transitions(branch.status) { return false; }
      var reasonOk := CheckStatusReason(e);
      if !reasonOk { return false; }
      branches := branches[p.branch := branch.(status := p.to, history := branch.history + [StatusChange(e.seq_, Some(p.from), p.to)])];
      return ActiveLimitOk();
    }

    // ----- model calls ---------------------------------------------------------------

    method OnModelCallStarted(e: Event) returns (ok: bool)
      requires e.body.ModelCallStarted? && run.Some?
      modifies this
      ensures ok == CanStartCall(old(State()), e)
      ensures ok ==> State() == AfterStartCall(old(State()), e)
    {
      var p := e.body;
      var config := run.value.config;
      if p.call in calls { return false; }
      if e.actor != ActorOf(p.role) { return false; }
      if p.spec != SpecOf(config, p.role) { return false; }
      match (p.role, p.target) {
        case (WriterRole, WriterTarget(b, slot)) =>
          if b !in branches { return false; }
          if !branches[b].status.Active? { return false; }
          if slot != |branches[b].steps| + 1 { return false; }
        case (CheckerRole, CheckerTarget(c)) =>
          if c !in checks { return false; }
          if checks[c].completed.Some? { return false; }
        case (JudgeRole, JudgeTarget(j)) =>
          if j !in judgements { return false; }
          if judgements[j].verdict.Some? { return false; }
        case (_, _) => return false;
      }
      if exists c :: c in calls && calls[c].state.Started? && calls[c].role == p.role && calls[c].target == p.target {
        return false;
      }
      if config.maxModelCalls.Some? && |calls| >= config.maxModelCalls.value { return false; }
      calls := calls[p.call := Call(p.role, p.target, Started, [], None, None, None)];
      return true;
    }

    method OnModelCallChunk(e: Event) returns (ok: bool)
      requires e.body.ModelCallChunk?
      modifies this
      ensures ok == CanChunk(codec, old(State()), e)
      ensures ok ==> State() == AfterChunk(old(State()), e)
    {
      var p := e.body;
      var open := CallForEvent(p.call, e.actor);
      if !open { return false; }
      var call := calls[p.call];
      if p.index != |call.chunks| { return false; }
      if p.sha != codec.textSha(p.chunkText) { return false; }
      calls := calls[p.call := call.(chunks := call.chunks + [Chunk(p.channel, p.chunkText)])];
      return true;
    }

    method CallForEvent(call: Id, actor: ActorKind) returns (open: bool)
      ensures open == OpenCall(State(), call, actor)
    {
      if call !in calls { return false; }
      if !calls[call].state.Started? { return false; }
      return actor == ActorOf(calls[call].role);
    }

    method OnModelCallFinished(e: Event) returns (ok: bool)
      requires e.body.ModelCallFinished?
      modifies this
      ensures ok == CanFinishCall(codec, old(State()), e)
      ensures ok ==> State() == AfterClose(old(State()), e.body.call, Finished, e.body.output)
    {
      var p := e.body;
      var open := CallForEvent(p.call, e.actor);
      if !open { return false; }
      var call := calls[p.call];
      if p.output.sha != codec.textSha(p.output.text) { return false; }
      if p.output.bodyChars != |p.output.text| { return false; }
      var body := BodyText(call.chunks);
      if body != [] && body != p.output.text { return false; }
      calls := calls[p.call := call.(state := Finished, output := Some(p.output))];
      return true;
    }

    method OnModelCallFailed(e: Event) returns (ok: bool)
      requires e.body.ModelCallFailed?
      modifies this
      ensures ok == (OpenCall(old(State()), e.body.call, e.actor) && codec.Sound(e.body.output))
      ensures ok ==> State() == AfterClose(old(State()), e.body.call, Failed, e.body.output)
    {
      var p := e.body;
      var open := CallForEvent(p.call, e.actor);
      if !open { return false; }
      if p.output.sha != codec.textSha(p.output.text) { return false; }
      if p.output.bodyChars != |p.output.text| { return false; }
      calls := calls[p.call := calls[p.call].(state := Failed, output := Some(p.output))];
      return true;
    }

    method OnModelCallAborted(e: Event) returns (ok: bool)
      requires e.body.ModelCallAborted?
      modifies this
      ensures ok == CanAbortCall(codec, old(State()), e)
      ensures ok ==> State() == AfterClose(old(State()), e.body.call, Aborted, e.body.output)
    {
      var p := e.body;
      var open := CallForEvent(p.call, e.actor);
      if !open { return false; }
      if p.abortAction !in actions { return false; }
      if actions[p.abortAction].kind != AbortModelCall { return false; }
      if actions[p.abortAction].target != OnCall(p.call) { return false; }
      if p.output.sha != codec.textSha(p.output.text) { return false; }
      if p.output.bodyChars != |p.output.text| { return false; }
      calls := calls[p.call := calls[p.call].(state := Aborted, output := Some(p.output))];
      return true;
    }

    // ----- steps ---------------------------------------------------------------------

    method CheckOrigin(e: Event) returns (ok: bool)
      requires e.body.StepSealed? && Calls(codec, branches, calls)
      ensures ok == OriginOk(State(), e)
    {
      var p := e.body;
      match p.origin {
        case ModelOrigin(c) =>
          if !e.actor.Model? { return false; }
          if c !in calls { return false; }
          var call := calls[c];
          assert CallOk(codec, branches, call);
          if !call.role.WriterRole? || !call.state.Finished? { return false; }
          if call.target.branch != p.branch || call.target.slot != p.slot { return false; }
          return WriterOutputSha(call) == Some(p.sha);
        case HumanOrigin(a) =>
          if !e.actor.Human? { return false; }
          if a !in actions { return false; }
          var action := actions[a];
          if action.kind != ReviseStep { return false; }
          if p.replaced.None? || action.target != OnStep(p.replaced.value) { return false; }
          return action.contentSha == Some(p.sha);
      }
    }

    method OnStepRevisionSealed(e: Event) returns (ok: bool)
      requires e.body.StepSealed? && Calls(codec, branches, calls)
      modifies this
      ensures ok == CanSeal(codec, old(State()), e)
      ensures ok ==> State() == AfterSeal(old(State()), e)
    {
      var p := e.body;
      if p.step in steps { return false; }
      if p.branch !in branches { return false; }
      var branch := branches[p.branch];
      if !branch.status.Active? { return false; }
      if p.slot != |branch.steps| + 1 { return false; }
      if p.revision == 0 { return false; }
      if p.sha != codec.textSha(codec.encode(p.content)) { return false; }
      match p.replaced {
        case None =>
          if p.revision != 1 { return false; }
        case Some(r) =>
          if r !in steps { return false; }
          if !branch.mode.Replace? || branch.anchor != Some(r) { return false; }
          if branch.steps != branch.inherited { return false; }
          if p.slot != steps[r].slot || p.revision != steps[r].revision + 1 { return false; }
      }
      var originOk := CheckOrigin(e);
      if !originOk { return false; }
      steps := steps[p.step := StepRevision(p.branch, p.slot, p.revision, p.replaced, p.content, p.sha, p.origin)];
      branches := branches[p.branch := branch.(steps := branch.steps + [p.step])];
      return true;
    }

    /** Replay of the recorded host edits over the raw output, one edit at a time. */
    method ReapplyEdits(raw: Content, edits: seq<Edit>) returns (text: Option<Content>)
      ensures text == ApplyEdits(codec, sources, raw, edits)
    {
      text := Some(raw);
      var i := 0;
      while i < |edits|
        invariant 0 <= i <= |edits|
        invariant text.Some? && text == ApplyEdits(codec, sources, raw, edits[..i])
      {
        var e := edits[i];
        var value := GetField(text.value, e.field);
        assert edits[..i + 1][..i] == edits[..i];
        if !EditOk(codec, sources, value, e) {
          PrefixFails(raw, edits, i + 1);
          return None;
        }
        text := Some(SetField(text.value, e.field, value[..e.start] + e.replacement + value[e.end..]));
        i := i + 1;
      }
      assert edits[..i] == edits;
    }

    lemma {:induction false} PrefixFails(raw: Content, edits: seq<Edit>, i: nat)
      requires i <= |edits| && ApplyEdits(codec, sources, raw, edits[..i]).None?
      ensures ApplyEdits(codec, sources, raw, edits).None?
      decreases |edits|
    {
      if i == |edits| {
        assert edits[..i] == edits;
      } else {
        assert edits[..|edits| - 1][..i] == edits[..i];
        PrefixFails(raw, edits[..|edits| - 1], i);
      }
    }

    method OnWriterOutputNormalized(e: Event) returns (ok: bool)
      requires e.body.WriterOutputNormalized? && Calls(codec, branches, calls)
      modifies this
      ensures ok == CanNormalize(codec, old(State()), e)
      ensures ok ==> State() == AfterNormalize(old(State()), e)
    {
      var p := e.body;
      if !IsV11() || !e.actor.System? { return false; }
      if p.call !in calls { return false; }
      var call := calls[p.call];
      assert CallOk(codec, branches, call);
      if !call.role.WriterRole? || !call.state.Finished? { return false; }
      if call.normalized.Some? { return false; }
      if call.disposition.Some? { return false; }
      if AlreadyMaterialized(p.call) { return false; }
      if p.rawSha != call.output.value.sha { return false; }
      var raw := codec.decode(call.output.value.text);
      if raw.None? || codec.encode(raw.value) != call.output.value.text { return false; }
      if p.edits == [] { return false; }
      var text := ReapplyEdits(raw.value, p.edits);
      if text != Some(p.content) { return false; }
      if p.sha != codec.textSha(codec.encode(p.content)) || p.sha == call.output.value.sha { return false; }
      calls := calls[p.call := call.(normalized := Some(p.sha))];
      return true;
    }

    method OnModelRevisionApplied(e: Event) returns (ok: bool)
      requires e.body.ModelRevisionApplied? && Slotted(branches, steps)
      modifies this
      ensures ok == CanRevise(codec, old(State()), e)
      ensures ok ==> State() == AfterRevise(codec, old(State()), e)
    {
      var p := e.body;
      if !IsV11() || !e.actor.Model? { return false; }
      if p.revisedParent !in branches || p.branch in branches { return false; }
      var parent := branches[p.revisedParent];
      if !parent.status.Active? { return false; }
      if p.revised !in parent.steps || p.step in steps { return false; }
      assert TranscriptOk(steps, parent.steps);
      if p.call !in calls { return false; }
      var call := calls[p.call];
      if !call.role.WriterRole? || !call.state.Finished? { return false; }
      if call.target != WriterTarget(p.revisedParent, |parent.steps| + 1) { return false; }
      if AlreadyMaterialized(p.call) { return false; }
      var control := WriterControl(codec, call);
      if control != Some(Control(Revise, Some(p.revised), Some(p.why))) { return false; }
      var outputSha := codec.textSha(codec.encode(p.content));
      if WriterOutputSha(call) != Some(outputSha) { return false; }
      var revised := steps[p.revised];
      var prefix := parent.steps[..IndexOf(parent.steps, p.revised)];
      branches := branches[p.revisedParent := parent.(status := Parked, history := parent.history + [StatusChange(e.seq_, Some(Active), Parked)])];
      branches := branches[p.branch := Branch(Some(p.revisedParent), Replace, Some(p.revised), prefix, prefix + [p.step],
                                              Hypothesis(parent.hypothesis.text, FromModel, Some(e.id)), Active, ModelRevision,
                                              None, [StatusChange(e.seq_, None, Active)])];
      steps := steps[p.step := StepRevision(p.branch, revised.slot, revised.revision + 1, Some(p.revised), p.content, outputSha,
                                            ModelOrigin(p.call))];
      return true;
    }

    method OnModelRevisionDeferred(e: Event) returns (ok: bool)
      requires e.body.ModelRevisionDeferred? && Calls(codec, branches, calls)
      modifies this
      ensures ok == CanDefer(codec, old(State()), e)
      ensures ok ==> State() == AfterDefer(old(State()), e)
    {
      var p := e.body;
      if !IsV11() || !e.actor.System? { return false; }
      if p.call !in calls { return false; }
      var call := calls[p.call];
      assert CallOk(codec, branches, call);
      if !call.role.WriterRole? || !call.state.Finished? { return false; }
      if call.disposition.Some? { return false; }
      var control := WriterControl(codec, call);
      if control.None? || !control.value.decision.Revise? || control.value.target != Some(p.revised) { return false; }
      if p.revised !in branches[call.target.branch].steps { return false; }
      calls := calls[p.call := call.(disposition := Some(RevisionDeferred(p.revised)))];
      return true;
    }

    method OnWriterRouteCompletion(e: Event) returns (ok: bool)
      requires e.body.WriterRouteCompletion? && Slotted(branches, steps)
      modifies this
      ensures ok == CanCompleteRoute(codec, old(State()), e)
      ensures ok ==> State() == AfterCompleteRoute(old(State()), e)
    {
      var p := e.body;
      if !IsV11() || !e.actor.Model? { return false; }
      if p.branch !in branches || p.call !in calls { return false; }
      var branch, call := branches[p.branch], calls[p.call];
      assert TranscriptOk(steps, branch.steps);
      if !branch.status.Active? || branch.steps == [] || branch.steps[|branch.steps| - 1] != p.tip { return false; }
      if !call.role.WriterRole? || !call.state.Finished? { return false; }
      if call.target != WriterTarget(p.branch, |branch.steps| + 1) { return false; }
      var control := WriterControl(codec, call);
      if control.None? || !control.value.decision.Complete? { return false; }
      if WriterOutputSha(call) != Some(steps[p.tip].sha) { return false; }
      if call.disposition.Some? { return false; }
      var required := RequiredChecks(checks, branch.steps);
      if exists c :: c in required && (checks[c].completed.None? || checks[c].verdict == Some(InstrumentFailure)) {
        return false;
      }
      branches := branches[p.branch := branch.(status := Completed, history := branch.history + [StatusChange(e.seq_, Some(Active), Completed)])];
      calls := calls[p.call := call.(disposition := Some(RouteCompletion(p.tip)))];
      return true;
    }

    // ----- sources and checks ----------------------------------------------------------

    method OnSourceEvidenceRegistered(e: Event) returns (ok: bool)
      requires e.body.SourceRegistered?
      modifies this
      ensures ok == CanRegisterSource(codec, old(State()), e)
      ensures ok ==> State() == AfterRegisterSource(old(State()), e)
    {
      var p := e.body;
      if !IsV11() || !e.actor.System? { return false; }
      if p.source in sources { return false; }
      if codec.textSha(p.sourceText) != p.sha { return false; }
      if calls != map[] { return false; }
      sources := sources[p.source := Source(p.sourceText, p.sha)];
      return true;
    }

    method OnCheckRequested(e: Event) returns (ok: bool)
      requires e.body.CheckRequested?
      modifies this
      ensures ok == CanRequestCheck(old(State()), e)
      ensures ok ==> State() == AfterRequestCheck(old(State()), e)
    {
      var p := e.body;
      if !e.actor.System? { return false; }
      if p.check in checks { return false; }
      if p.step !in steps { return false; }
      if p.sha != steps[p.step].sha { return false; }
      if p.required && exists c :: c in candidates && p.step in candidates[c].transcript { return false; }
      checks := checks[p.check := Check(p.step, p.sha, p.required, None, None, [], None)];
      return true;
    }

    /** One cited quotation against the checked transcript and the lineage. */
    method ValidateItem(item: Evidence, target: Id, upTo: seq<Id>, lineage: seq<Id>) returns (ok: bool)
      requires target in steps && run.Some? && steps[target].branch in branches
      requires target in branches[steps[target].branch].steps && TranscriptOk(steps, branches[steps[target].branch].steps)
      requires upTo == branches[steps[target].branch].steps[..IndexOf(branches[steps[target].branch].steps, target) + 1]
      requires forall b :: b in lineage <==> b in Ancestry(branches, steps[target].branch)
      ensures ok == EvidenceOk(codec, State(), item, target)
    {
      hide Ancestry, Quotes, AncestorText, IndexOf;
      match item.kind {
        case LiteratureQuote => ok := IsV11() && item.source in sources && Quotes(sources[item.source].text, item.quote);
        case ScopeQuote => ok := item.source in upTo && Quotes(steps[item.source].content.scope, item.quote);
        case AncestorQuote =>
          ok := item.source in upTo && Quotes(AncestorText(codec, IsV11(), steps[item.source].content), item.quote);
        case HypothesisQuote =>
          ok := item.source in branches && item.source in lineage
                && Quotes(branches[item.source].hypothesis.text, item.quote);
        case TaskConstraintQuote => ok := item.source == run.value.task;
      }
    }

    /** The cited quotations, item by item. The checked step is always found in its branch. */
    method ValidateEvidence(evidence: seq<Evidence>, target: Id) returns (ok: bool)
      requires target in steps && Homed(branches, steps) && Slotted(branches, steps) && Forks(branches, steps) && run.Some?
      ensures ok <==> forall i :: 0 <= i < |evidence| ==> EvidenceOk(codec, State(), evidence[i], target)
    {
      hide EvidenceOk, Ancestry, Forks, TranscriptOk;
      assert HomeOf(branches, target, steps[target]);
      var home := branches[steps[target].branch];
      var upTo := home.steps[..IndexOf(home.steps, target) + 1];
      var lineage := BranchLineage(steps[target].branch);
      ReversedElements(Ancestry(branches, steps[target].branch));
      var i := 0;
      while i < |evidence|
        invariant 0 <= i <= |evidence|
        invariant forall k :: 0 <= k < i ==> EvidenceOk(codec, State(), evidence[k], target)
      {
        var good := ValidateItem(evidence[i], target, upTo, lineage);
        if !good { return false; }
        i := i + 1;
      }
      return true;
    }

    method OnCheckCompleted(e: Event) returns (ok: bool)
      requires e.body.CheckCompleted? && run.Some?
      requires Homed(branches, steps) && Slotted(branches, steps) && Forks(branches, steps) && Checks(steps, checks, count)
      modifies this
      ensures ok == CanCompleteCheck(codec, old(State()), e)
      ensures ok ==> State() == AfterCompleteCheck(old(State()), e)
    {
      hide EvidenceOk, Homed, Slotted, Forks;
      var p := e.body;
      if !e.actor.Checker? { return false; }
      if p.check !in checks { return false; }
      var check := checks[p.check];
      assert CheckOk(steps, check, count);
      if check.completed.Some? { return false; }
      if p.step != check.target || p.sha != check.sha { return false; }
      if p.call !in calls { return false; }
      var call := calls[p.call];
      if !call.role.CheckerRole? || call.target != CheckerTarget(p.check) { return false; }
      if p.verdict.InstrumentFailure? {
        if call.state !in {Failed, Aborted} || p.evidence != [] { return false; }
      } else {
        if !call.state.Finished? { return false; }
      }
      if p.verdict.HardDefect? || (IsV11() && p.evidence != []) {
        if p.evidence == [] { return false; }
        var evidenceOk := ValidateEvidence(p.evidence, check.target);
        if !evidenceOk { return false; }
      }
      checks := checks[p.check := check.(verdict := Some(p.verdict), call := Some(p.call), evidence := p.evidence,
                                         completed := Some(e.seq_))];
      return true;
    }

    method OnCheckRetryAuthorized(e: Event) returns (ok: bool)
      requires e.body.CheckRetryAuthorized? && Actions(branches, steps, calls, candidates, actions, count)
      requires Checks(steps, checks, count)
      modifies this
      ensures ok == CanRetryCheck(old(State()), e)
      ensures ok ==> State() == AfterRetryCheck(old(State()), e)
    {
      var p := e.body;
      if !IsV11() || !e.actor.System? { return false; }
      if p.check !in checks || p.retryAction !in actions { return false; }
      var check, action := checks[p.check], actions[p.retryAction];
      assert CheckOk(steps, check, count);
      assert ActionOk(branches, steps, calls, candidates, action, count);
      if check.verdict != Some(InstrumentFailure) || !check.required { return false; }
      if action.kind != ResumeBranch || !action.target.OnBranch? { return false; }
      if check.target !in branches[action.target.branch].steps { return false; }
      if action.seq_ <= check.completed.value { return false; }
      checks := checks[p.check := check.(required := false)];
      return true;
    }

    // ----- candidates, judgements, selections -----------------------------------------------

    /** `_candidate_status` of a recorded candidate. */
    function StatusOfCandidate(c: Candidate): CandidateStatus
      reads this
    {
      StatusOf(IsV11(), checks, c.required)
    }

    method OnCandidateDeclared(e: Event) returns (ok: bool)
      requires e.body.CandidateDeclared? && Slotted(branches, steps)
      modifies this
      ensures ok == CanDeclare(codec, old(State()), e)
      ensures ok ==> State() == AfterDeclare(old(State()), e)
    {
      var p := e.body;
      if p.candidate in candidates { return false; }
      if p.branch !in branches { return false; }
      var branch := branches[p.branch];
      if !branch.status.Completed? { return false; }
      if p.transcript == [] || p.transcript != branch.steps { return false; }
      assert TranscriptOk(steps, branch.steps);
      if p.tip != p.transcript[|p.transcript| - 1] { return false; }
      if p.sha != codec.transcriptSha(Material(p.transcript, steps)) { return false; }
      if multiset(p.requiredChecks) != multiset(RequiredChecks(checks, p.transcript)) { return false; }
      if IsV11() && multiset(p.unresolved) != multiset(Unresolved(checks, p.requiredChecks)) { return false; }
      if p.declarer !in {Model, Human} || e.actor != p.declarer { return false; }
      candidates := candidates[p.candidate := Candidate(p.branch, p.transcript, p.sha, p.requiredChecks)];
      return true;
    }

    method OnJudgementRequested(e: Event) returns (ok: bool)
      requires e.body.JudgementRequested?
      modifies this
      ensures ok == CanRequestJudgement(old(State()), e)
      ensures ok ==> State() == AfterRequestJudgement(old(State()), e)
    {
      var p := e.body;
      if p.judgement in judgements { return false; }
      if p.candidate !in candidates { return false; }
      var candidate := candidates[p.candidate];
      if p.sha != candidate.sha { return false; }
      var status := StatusOfCandidate(candidate);
      if status != Eligible && !(IsV11() && status == Conditional) { return false; }
      if p.requester !in {System, Human} || e.actor != p.requester { return false; }
      judgements := judgements[p.judgement := Judgement(p.candidate, p.sha, None, None)];
      return true;
    }

    method OnJudgementCompleted(e: Event) returns (ok: bool)
      requires e.body.JudgementCompleted? && Judged(IsV11(), checks, candidates, judgements)
      modifies this
      ensures ok == CanCompleteJudgement(old(State()), e)
      ensures ok ==> State() == AfterCompleteJudgement(old(State()), e)
    {
      var p := e.body;
      if !e.actor.Judge? { return false; }
      if p.judgement !in judgements { return false; }
      var judgement := judgements[p.judgement];
      if judgement.verdict.Some? { return false; }
      if p.candidate != judgement.candidate || p.sha != judgement.sha { return false; }
      var status := StatusOfCandidate(candidates[judgement.candidate]);
      if status != Eligible && !(IsV11() && status == Conditional) { return false; }
      if p.call !in calls { return false; }
      var call := calls[p.call];
      if !call.role.JudgeRole? || call.target != JudgeTarget(p.judgement) { return false; }
      if p.judgementVerdict.JudgeInstrumentFailure? {
        if call.state !in {Failed, Aborted} { return false; }
      } else {
        if !call.state.Finished? { return false; }
      }
      judgements := judgements[p.judgement := judgement.(verdict := Some(p.judgementVerdict), call := Some(p.call))];
      return true;
    }

    method OnSelectionRecorded(e: Event) returns (ok: bool)
      requires e.body.SelectionRecorded?
      modifies this
      ensures ok == CanSelect(old(State()), e)
      ensures ok ==> State() == AfterSelect(old(State()), e)
    {
      var p := e.body;
      if p.selection in selections { return false; }
      if selections != map[] { return false; }
      if p.candidate !in candidates { return false; }
      var candidate := candidates[p.candidate];
      if p.sha != candidate.sha { return false; }
      if StatusOfCandidate(candidate) != Eligible { return false; }
      if p.judgement !in judgements { return false; }
      var judgement := judgements[p.judgement];
      if judgement.candidate != p.candidate || judgement.sha != candidate.sha { return false; }
      if judgement.verdict != Some(Pass) { return false; }
      if e.actor.Human? {
        if p.humanAction.None? || p.humanAction.value !in actions { return false; }
        var action := actions[p.humanAction.value];
        if action.kind != SelectCandidate || action.target != OnCandidate(p.candidate) { return false; }
      } else {
        if !e.actor.System? || p.humanAction.Some? { return false; }
      }
      selections := selections[p.selection := Selection(p.candidate, p.sha, p.judgement, e.actor, p.humanAction)];
      return true;
    }

    // ----- lineage and provenance ---------------------------------------------------------

    /**
     Root-first ancestry. The source also keeps a set of seen branches and rejects a
     cycle; the assertion in the loop says that this check never fires.
     */
    method BranchLineage(b: Id) returns (lineage: seq<Id>)
      requires b in branches && Forks(branches, steps)
      ensures lineage == Reversed(Ancestry(branches, b))
    {
      hide Ancestry, Forks;
      AncestryEndsAtRoot(branches, steps, b);
      ghost var ch := Ancestry(branches, b);
      var chain: seq<Id> := [];
      var current := Some(b);
      var seen: set<Id> := {};
      while current.Some?
        invariant |chain| <= |ch| && chain == ch[..|chain|]
        invariant current == if |chain| < |ch| then Some(ch[|chain|]) else None
        invariant seen == set x | x in chain
        decreases |ch| - |chain|
      {
        assert current.value !in seen;
        seen := seen + {current.value};
        chain := chain + [current.value];
        current := branches[current.value].parent;
      }
      assert chain == ch;
      lineage := Reversed(chain);
    }

    /** The human actions that created a branch of the lineage: steering, then edits. */
    method CollectCreators(lineage: seq<Id>) returns (steering: set<Id>, edits: set<Id>)
      requires forall x :: x in lineage ==> x in branches
      ensures steering == CreatedBy(branches, lineage, {HumanDirection, HumanHypothesis})
      ensures edits == CreatedBy(branches, lineage, {HumanRevision})
    {
      steering, edits := {}, {};
      var i := 0;
      while i < |lineage|
        invariant 0 <= i <= |lineage|
        invariant steering == CreatedBy(branches, lineage[..i], {HumanDirection, HumanHypothesis})
        invariant edits == CreatedBy(branches, lineage[..i], {HumanRevision})
      {
        var item := branches[lineage[i]];
        CreatedBySnoc(branches, lineage, i, {HumanDirection, HumanHypothesis});
        CreatedBySnoc(branches, lineage, i, {HumanRevision});
        if item.reason in {HumanDirection, HumanHypothesis} && item.action.Some? {
          steering := steering + {item.action.value};
        }
        if item.reason == HumanRevision && item.action.Some? {
          edits := edits + {item.action.value};
        }
        i := i + 1;
      }
      assert lineage[..i] == lineage;
    }

    /** The human actions behind the steps of a transcript. */
    method CollectHumanSteps(transcript: seq<Id>) returns (edits: set<Id>)
      requires forall x :: x in transcript ==> x in steps
      ensures edits == HumanSteps(steps, transcript)
    {
      edits := {};
      var i := 0;
      while i < |transcript|
        invariant 0 <= i <= |transcript|
        invariant edits == HumanSteps(steps, transcript[..i])
      {
        var step := steps[transcript[i]];
        assert transcript[..i + 1] == transcript[..i] + [transcript[i]];
        if step.origin.HumanOrigin? {
          edits := edits + {step.origin.action};
        }
        i := i + 1;
      }
      assert transcript[..i] == transcript;
    }

    /** The pauses, resumes and kills that target a branch of the lineage. */
    method CollectOperational(lineage: seq<Id>) returns (operational: set<Id>)
      ensures operational == set a | a in actions && IsOperational(actions[a], lineage) :: a
    {
      operational := {};
      var left := actions.Keys;
      while left != {}
        invariant left <= actions.Keys
        invariant operational == set a | a in actions && a !in left && IsOperational(actions[a], lineage) :: a
        decreases left
      {
        var a :| a in left;
        left := left - {a};
        if IsOperational(actions[a], lineage) {
          operational := operational + {a};
        }
      }
    }

    /** Steering, edit and operational actions of one branch, the class they give it, and whether a human touched it. */
    method BranchProvenance(b: Id)
      returns (touched: bool, contentClass: ContentClass, steering: set<Id>, edits: set<Id>, operational: set<Id>)
      requires b in branches && Forks(branches, steps) && Slotted(branches, steps)
      ensures steering == Steering(branches, b) && edits == Edits(branches, steps, b)
      ensures operational == Operational(branches, actions, b)
      ensures contentClass == ClassOf(branches, steps, b) && touched == !ClassOf(branches, steps, b).ModelOnly?
    {
      hide CreatedBy, HumanSteps, Ancestry, Forks;
      var lineage := BranchLineage(b);
      ghost var ancestry := Ancestry(branches, b);
      AncestryEndsAtRoot(branches, steps, b);
      ReversedElements(ancestry);
      steering, edits := CollectCreators(lineage);
      SameCreators(branches, lineage, ancestry, {HumanDirection, HumanHypothesis});
      SameCreators(branches, lineage, ancestry, {HumanRevision});
      assert TranscriptOk(steps, branches[b].steps);
      var own := CollectHumanSteps(branches[b].steps);
      edits := edits + own;
      operational := CollectOperational(lineage);
      contentClass := if edits != {} then HumanEdited else if steering != {} then HumanSteered else ModelOnly;
      touched := edits != {} || steering != {};
    }

    // ----- replay ----------------------------------------------------------------------------

    method ValidateEnvelope(e: Event) returns (ok: bool)
      requires runId.Some? ==> head.Some?
      modifies this
      ensures ok == EnvelopeOk(codec, old(State()), e)
      ensures ok ==> State() == Entered(old(State()), e)
    {
      if version.None? {
        version := Some(e.version);
      }
      if Some(e.version) != version { return false; }
      if e.seq_ != count + 1 { return false; }
      if e.id in eventIds { return false; }
      eventIds := eventIds + {e.id};
      if OnlyInV11(e.body) && !IsV11() { return false; }
      if runId.None? {
        if !e.body.RunCreated? || e.prev.Some? { return false; }
        runId := Some(e.run);
      } else {
        if Some(e.run) != runId { return false; }
        if e.prev.None? || e.prev != head { return false; }
      }
      return e.sha == codec.Seal(e);
    }

    method Dispatch(e: Event) returns (ok: bool)
      requires Inv(codec, State(), count) && (run.Some? || e.body.RunCreated?)
      modifies this
      ensures ok == Accepts(codec, old(State()), e)
      ensures ok ==> State() == Effect(codec, old(State()), e)
    {
      hide CanHumanAction, CanCreateBranch, CanChangeStatus, CanStartCall, CanChunk, CanFinishCall, CanAbortCall, OpenCall, CanSeal,
           CanRequestCheck, CanCompleteCheck, CanDeclare, CanRequestJudgement, CanCompleteJudgement, CanSelect, CanRegisterSource,
           CanRevise, CanDefer, CanRetryCheck, CanCompleteRoute, CanNormalize;
      hide AfterHumanAction, AfterCreateBranch, AfterChangeStatus, AfterStartCall, AfterChunk, AfterClose, AfterSeal,
           AfterRequestCheck, AfterCompleteCheck, AfterDeclare, AfterRequestJudgement, AfterCompleteJudgement, AfterSelect,
           AfterRegisterSource, AfterRevise, AfterDefer, AfterRetryCheck, AfterCompleteRoute, AfterNormalize;
      hide Slotted, Homed, Forks, Histories, Calls, Origins, RevisionsDistinct, VersionOk, Checks, Snapshots, Frozen, Judged,
           Selected, Budgets, Actions, HumanBranches;
      match e.body {
        case RunCreated(config, task) =>
          if run.Some? || !e.actor.System? { return false; }
          run := Some(Run(config, task));
          ok := true;
        case HumanActionRecorded(_, _, _, _, _) => ok := OnHumanActionRecorded(e);
        case BranchCreated(_, _, _, _, _, _, _, _, _) => ok := OnBranchCreated(e);
        case BranchStatusChanged(_, _, _, _, _, _, _) => ok := OnBranchStatusChanged(e);
        case ModelCallStarted(_, _, _, _) => ok := OnModelCallStarted(e);
        case ModelCallChunk(_, _, _, _, _) => ok := OnModelCallChunk(e);
        case ModelCallFinished(_, _) => ok := OnModelCallFinished(e);
        case ModelCallFailed(_, _) => ok := OnModelCallFailed(e);
        case ModelCallAborted(_, _, _) => ok := OnModelCallAborted(e);
        case StepSealed(_, _, _, _, _, _, _, _) => ok := OnStepRevisionSealed(e);
        case CheckRequested(_, _, _, _) => ok := OnCheckRequested(e);
        case CheckCompleted(_, _, _, _, _, _) => ok := OnCheckCompleted(e);
        case CandidateDeclared(_, _, _, _, _, _, _, _) => ok := OnCandidateDeclared(e);
        case JudgementRequested(_, _, _, _) => ok := OnJudgementRequested(e);
        case JudgementCompleted(_, _, _, _, _) => ok := OnJudgementCompleted(e);
        case SelectionRecorded(_, _, _, _, _) => ok := OnSelectionRecorded(e);
        case SourceRegistered(_, _, _) => ok := OnSourceEvidenceRegistered(e);
        case ModelRevisionApplied(_, _, _, _, _, _, _) => ok := OnModelRevisionApplied(e);
        case ModelRevisionDeferred(_, _) => ok := OnModelRevisionDeferred(e);
        case CheckRetryAuthorized(_, _) => ok := OnCheckRetryAuthorized(e);
        case WriterRouteCompletion(_, _, _) => ok := OnWriterRouteCompletion(e);
        case WriterOutputNormalized(_, _, _, _, _) => ok := OnWriterOutputNormalized(e);
      }
    }

    /** One event of the log: envelope, handler, count and head. */
    method Advance(e: Event) returns (ok: bool)
      requires ReachedOk(codec, State())
      modifies this
      ensures ok == Admits(codec, old(State()), e)
      ensures ok ==> State() == Next(codec, old(State()), e)
    {
      hide Accepts, Effect, Inv, EnvelopeOk;
      ghost var before := State();
      var entered := ValidateEnvelope(e);
      if !entered { return false; }
      EnteredOk(codec, before, e);
      OpensWithRun(codec, before, e);
      ok := Dispatch(e);
      if ok {
        CountsEvent(codec, before, e);
        count := count + 1;
        head := Some(e.sha);
      }
    }

    /** The whole log: accepted exactly when the fold is, and it ends in the fold's ledger. */
    method Replay(log: seq<Event>) returns (ok: bool)
      requires State() == EMPTY_LEDGER
      modifies this
      ensures ok <==> log != [] && Fold(codec, log).Some? && FinalChecks(Fold(codec, log).value)
      ensures ok ==> State() == Fold(codec, log).value
    {
      hide Admits, Next, Inv, FinalChecks;
      if log == [] { return false; }
      var i := 0;
      while i < |log|
        invariant 0 <= i <= |log|
        invariant Fold(codec, log[..i]) == Some(State())
      {
        FoldOk(codec, log[..i]);
        assert log[..i + 1][..i] == log[..i];
        var accepted := Advance(log[i]);
        if !accepted {
          LongerFails(log, i + 1);
          return false;
        }
        i := i + 1;
      }
      assert log[..i] == log;
      FoldOk(codec, log);
      SelectionsHold(codec, State());
      ok := RunFinalChecks();
    }

    lemma {:induction false} LongerFails(log: seq<Event>, i: nat)
      requires i <= |log| && Fold(codec, log[..i]).None?
      ensures Fold(codec, log).None?
      decreases |log|
    {
      if i == |log| {
        assert log[..i] == log;
      } else {
        assert log[..|log| - 1][..i] == log[..i];
        LongerFails(log[..|log| - 1], i);
      }
    }

    method RunFinalChecks() returns (ok: bool)
      requires Selected(IsV11(), checks, candidates, judgements, selections)
      ensures ok == FinalChecks(State())
    {
      if run.None? { return false; }
      if exists c :: c in calls && calls[c].state.Started? { return false; }
      if exists s :: s in selections && StatusOfCandidate(candidates[selections[s].candidate]) != Eligible { return false; }
      return forall s :: s in selections ==> judgements[selections[s].judgement].verdict == Some(Pass);
    }
  }

  lemma {:induction false} ReversedElements(s: seq<Id>)
    ensures |Reversed(s)| == |s|
    ensures forall x :: x in Reversed(s) <==> x in s
  {
    if s != [] {
      ReversedElements(s[1..]);
      assert s == [s[0]] + s[1..];
    }
  }

  lemma CreatedBySnoc(branches: map<Id, Branch>, lineage: seq<Id>, i: nat, reasons: set<CreatedReason>)
    requires i < |lineage| && lineage[i] in branches
    ensures var item := branches[lineage[i]];
            CreatedBy(branches, lineage[..i + 1], reasons) ==
            CreatedBy(branches, lineage[..i], reasons)
            + if item.reason in reasons && item.action.Some? then {item.action.value} else {}
  {
    assert lineage[..i + 1] == lineage[..i] + [lineage[i]];
  }

  lemma SameCreators(branches: map<Id, Branch>, a: seq<Id>, b: seq<Id>, reasons: set<CreatedReason>)
    requires forall x :: x in a <==> x in b
    ensures CreatedBy(branches, a, reasons) == CreatedBy(branches, b, reasons)
  {
  }
}
