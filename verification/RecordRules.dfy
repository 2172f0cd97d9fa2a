/**
 The guards and effects of the replay handlers as functions on a Ledger.
 RecordEngine's methods are proved to compute exactly these; the theorems about
 runs are proved about these.
 */
module RecordRules {
  import opened Characters
  import opened Wrappers
  import opened RecordModel
  import MacroExpansion

  // ----- reading calls -------------------------------------------------------

  function RawTexts(chunks: seq<Chunk>): (r: seq<string>) {
    if chunks == [] then []
    else (if chunks[0].channel.Raw? then [chunks[0].text] else []) + RawTexts(chunks[1..])
  }

  function BodyText(chunks: seq<Chunk>): string {
    if chunks == [] then []
    else (if chunks[0].channel.Body? then chunks[0].text else []) + BodyText(chunks[1..])
  }

  /** The Writer's explicit decision, read from the single raw chunk of its call. */
  function WriterControl(codec: Codec, call: Call): Option<Control> {
    var raw := RawTexts(call.chunks);
    if |raw| == 1 then codec.control(raw[0]) else None
  }

  /** The scientific content hash: the normalised hash once one is recorded. */
  function WriterOutputSha(call: Call): Option<Sha> {
    if call.normalized.Some? then call.normalized
    else if call.output.Some? then Some(call.output.value.sha)
    else None
  }

  /** Some step already cites this call as its origin. */
  predicate Materialized(steps: map<Id, StepRevision>, call: Id) {
    exists s :: s in steps && steps[s].origin == ModelOrigin(call)
  }

  predicate FinishedWriter(l: Ledger, call: Id) {
    call in l.calls && l.calls[call].role.WriterRole? && l.calls[call].state.Finished?
  }

  // ----- branches and transcripts ---------------------------------------------

  function IndexOf(ids: seq<Id>, id: Id): (k: nat)
    requires id in ids
    ensures k < |ids| && ids[k] == id
    ensures forall j :: 0 <= j < k ==> ids[j] != id
  {
    if ids[0] == id then 0 else 1 + IndexOf(ids[1..], id)
  }

  function ActiveBranches(branches: map<Id, Branch>): set<Id> {
    set b | b in branches && branches[b].status.Active?
  }

  predicate WithinActiveLimit(run: Option<Run>, branches: map<Id, Branch>) {
    run.Some? && run.value.config.maxActiveBranches.Some? ==>
      |ActiveBranches(branches)| <= run.value.config.maxActiveBranches.value
  }

  function Moved(b: Branch, n: nat, to: BranchStatus): Branch {
    b.(status := to, history := b.history + [StatusChange(n, Some(b.status), to)])
  }

  function Material(ids: seq<Id>, steps: map<Id, StepRevision>): (m: seq<(Id, Sha)>)
    requires forall i :: 0 <= i < |ids| ==> ids[i] in steps
    ensures |m| == |ids|
    ensures forall i :: 0 <= i < |ids| ==> m[i] == (ids[i], steps[ids[i]].sha)
  {
    seq(|ids|, i requires 0 <= i < |ids| => (ids[i], steps[ids[i]].sha))
  }

  // ----- checks and candidates ------------------------------------------------

  /** Checks flagged as required whose target lies on the transcript. */
  function RequiredChecks(checks: map<Id, Check>, transcript: seq<Id>): set<Id> {
    set c | c in checks && checks[c].required && checks[c].target in transcript
  }

  predicate Pending(checks: map<Id, Check>, c: Id) {
    c !in checks || checks[c].completed.None?
  }

  predicate HasVerdict(checks: map<Id, Check>, c: Id, v: Verdict) {
    c in checks && checks[c].verdict == Some(v)
  }

  /** `_candidate_status`, computed from the frozen check list. */
  function StatusOf(v11: bool, checks: map<Id, Check>, frozen: seq<Id>): CandidateStatus {
    if exists c :: c in frozen && Pending(checks, c) then Provisional
    else if !v11 && exists c :: c in frozen && HasVerdict(checks, c, HardDefect) then Rejected
    else if exists c :: c in frozen && HasVerdict(checks, c, InstrumentFailure) then Blocked_
    else if v11 && exists c :: c in frozen && (HasVerdict(checks, c, HardDefect) || HasVerdict(checks, c, Objection)) then Conditional
    else Eligible
  }

  function CandidateStatusIn(l: Ledger, candidate: Candidate): CandidateStatus {
    StatusOf(l.IsV11(), l.checks, candidate.required)
  }

  /** The statuses a judgement may be requested and completed under. */
  predicate Judgeable(v11: bool, s: CandidateStatus) {
    s == Eligible || (v11 && s == Conditional)
  }

  function Unresolved(checks: map<Id, Check>, ids: seq<Id>): (r: seq<Id>) {
    if ids == [] then []
    else (if HasVerdict(checks, ids[0], Objection) || HasVerdict(checks, ids[0], HardDefect) then [ids[0]] else [])
         + Unresolved(checks, ids[1..])
  }

  // ----- evidence -------------------------------------------------------------

  predicate QuotedAt(text: string, quote: string, i: nat) {
    i + |quote| <= |text| && text[i..i + |quote|] == quote
  }

  predicate Quotes(text: string, quote: string) {
    exists i | 0 <= i <= |text| :: QuotedAt(text, quote, i)
  }

  function AncestorText(codec: Codec, v11: bool, c: Content): string {
    if v11 then
      "claim:\n" + c.claim + "\n\nwhy:\n" + c.why + "\n\nsource:\n" + c.source
      + "\n\nderivation:\n" + c.derivation + "\n\nscope:\n" + c.scope
    else codec.encode(c)
  }

  /** A branch and its ancestors, child first, following at most n parent links. */
  function Chain(branches: map<Id, Branch>, branch: Id, n: nat): seq<Id>
    decreases n
  {
    if branch !in branches then []
    else if n == 0 || branches[branch].parent.None? then [branch]
    else [branch] + Chain(branches, branches[branch].parent.value, n - 1)
  }

  /** The branch and all its ancestors: no chain of distinct branches is longer. */
  function Ancestry(branches: map<Id, Branch>, branch: Id): seq<Id> {
    Chain(branches, branch, |branches|)
  }

  predicate EvidenceOk(codec: Codec, l: Ledger, item: Evidence, target: Id) {
    match item.kind
    case LiteratureQuote =>
      l.IsV11() && item.source in l.sources && Quotes(l.sources[item.source].text, item.quote)
    case ScopeQuote =>
      OnCheckedTranscript(l, target, item.source) && Quotes(l.steps[item.source].content.scope, item.quote)
    case AncestorQuote =>
      OnCheckedTranscript(l, target, item.source)
      && Quotes(AncestorText(codec, l.IsV11(), l.steps[item.source].content), item.quote)
    case HypothesisQuote =>
      && item.source in l.branches && target in l.steps
      && item.source in Ancestry(l.branches, l.steps[target].branch)
      && Quotes(l.branches[item.source].hypothesis.text, item.quote)
    case TaskConstraintQuote =>
      l.run.Some? && item.source == l.run.value.task
  }

  /** The step lies in the checked step's own branch, up to and including it. */
  predicate OnCheckedTranscript(l: Ledger, target: Id, step: Id) {
    && step in l.steps && target in l.steps && l.steps[target].branch in l.branches
    && var transcript := l.branches[l.steps[target].branch].steps;
    target in transcript && step in transcript[..IndexOf(transcript, target) + 1]
  }

  // ----- host normalisation edits ----------------------------------------------

  function GetField(c: Content, f: Field): string {
    match f
    case Claim => c.claim
    case Why => c.why
    case SourceField => c.source
    case Derivation => c.derivation
    case Scope => c.scope
  }

  function SetField(c: Content, f: Field, t: string): Content {
    match f
    case Claim => c.(claim := t)
    case Why => c.(why := t)
    case SourceField => c.(source := t)
    case Derivation => c.(derivation := t)
    case Scope => c.(scope := t)
  }

  /** Control characters that JSON transport may have corrupted. */
  predicate RestorableControl(c: char) {
    c as int <= 0x08 || c as int == 0x0B || 0x0E <= c as int <= 0x1F
  }

  predicate AllIn(s: string, lo: int, hi: int) {
    forall i :: 0 <= i < |s| ==> lo <= s[i] as int <= hi
  }

  /** A complete ANSI control sequence: ESC [ parameters intermediates final. */
  predicate AnsiEscape(s: string) {
    && |s| >= 3 && s[0] as int == 0x1B && s[1] == '[' && 0x40 <= s[|s| - 1] as int <= 0x7E
    && exists k :: 2 <= k <= |s| - 1 && AllIn(s[2..k], 0x30, 0x3F) && AllIn(s[k..|s| - 1], 0x20, 0x2F)
  }

  predicate StartsWithLetter(s: string) {
    |s| > 0 && IsLetter(s[0])
  }

  predicate StartsControlWord(s: string) {
    |s| > 1 && s[0] == '\\' && IsLetter(s[1])
  }

  function LineCount(s: string): nat {
    if s == [] then 1 else (if s[0] == '\n' then 1 else 0) + LineCount(s[1..])
  }

  predicate EditOk(codec: Codec, sources: map<Id, Source>, value: string, e: Edit) {
    && 0 <= e.start <= e.end <= |value|
    && e.original != e.replacement
    && value[e.start..e.end] == e.original
    && var following := value[e.end..];
    match e.kind
    case MacroExpansion(source, line) =>
      && !e.field.SourceField? && StartsControlWord(e.original)
      && source in sources && 1 <= line <= LineCount(sources[source].text)
      && MacroExpansion.Verifies(codec.table(sources), MacroExpansion.Replacement(value, e.end, e.original, e.replacement, source, line))
    case ControlBackslash =>
      |e.original| == 1 && RestorableControl(e.original[0]) && e.replacement == "\\" && StartsWithLetter(following)
    case ControlRemoved =>
      |e.original| == 1 && RestorableControl(e.original[0]) && e.replacement == [] && StartsControlWord(following)
    case DelRemoved =>
      |e.original| == 1 && e.original[0] as int == 0x7F && e.replacement == [] && |following| > 0 && following[0] == '\\'
    case AnsiEscapeRemoved =>
      AnsiEscape(e.original) && e.replacement == []
  }

  function ApplyEdit(codec: Codec, sources: map<Id, Source>, c: Content, e: Edit): Option<Content> {
    var value := GetField(c, e.field);
    if EditOk(codec, sources, value, e) then
      Some(SetField(c, e.field, value[..e.start] + e.replacement + value[e.end..]))
    else None
  }

  /** The recorded edit list, applied from the left. */
  function ApplyEdits(codec: Codec, sources: map<Id, Source>, c: Content, edits: seq<Edit>): Option<Content>
    decreases |edits|
  {
    if edits == [] then Some(c)
    else
      match ApplyEdits(codec, sources, c, edits[..|edits| - 1])
      case None => None
      case Some(d) => ApplyEdit(codec, sources, d, edits[|edits| - 1])
  }

  // ----- guards, one per handler -----------------------------------------------

  predicate CanHumanAction(codec: Codec, l: Ledger, e: Event)
    requires e.body.HumanActionRecorded?
  {
    var p := e.body;
    && e.actor.Human? && p.action !in l.actions
    && (match p.actionTarget
        case OnBranch(b) => p.kind in {PauseBranch, ResumeBranch, KillBranch, SetDirection, SetHypothesis} && b in l.branches
        case OnStep(s) => p.kind == ReviseStep && s in l.steps
        case OnCall(c) => p.kind == AbortModelCall && c in l.calls
        case OnCandidate(c) => p.kind == SelectCandidate && c in l.candidates)
    && (p.text.None? ==> p.textSha.None?)
    && (p.text.Some? ==> p.textSha == Some(codec.textSha(p.text.value)))
    && (p.kind in {ReviseStep, SetDirection, SetHypothesis} ==> p.text.Some?)
  }

  predicate HumanForkOk(l: Ledger, e: Event, parent: Id, anchor: Id, kind: ActionKind)
    requires e.body.BranchCreated?
  {
    var p := e.body;
    && e.actor.Human? && p.humanAction.Some? && p.humanAction.value in l.actions
    && var a := l.actions[p.humanAction.value];
    && a.kind == kind
    && p.hypothesis.source.FromHuman? && p.hypothesis.sourceEvent == Some(a.event)
    && (if kind == ReviseStep then p.mode.Replace? && a.target == OnStep(anchor)
        else a.target == OnBranch(parent) && a.content == Some(p.hypothesis.text))
  }

  predicate CanFork(l: Ledger, e: Event, parent: Id)
    requires e.body.BranchCreated?
  {
    var p := e.body;
    && parent in l.branches && !p.mode.Root?
    && p.anchor.Some? && p.anchor.value in l.steps && p.anchor.value in l.branches[parent].steps
    && p.inherited == l.branches[parent].steps[..IndexOf(l.branches[parent].steps, p.anchor.value) + (if p.mode.After? then 1 else 0)]
    && match p.reason
       case HumanDirection => HumanForkOk(l, e, parent, p.anchor.value, SetDirection)
       case HumanHypothesis => HumanForkOk(l, e, parent, p.anchor.value, SetHypothesis)
       case HumanRevision => HumanForkOk(l, e, parent, p.anchor.value, ReviseStep)
       case ModelAlternative => e.actor.Model? && p.hypothesis.source.FromModel? && p.humanAction.None?
       case InstrumentRetry =>
         e.actor in {System, Model} && p.hypothesis.source in {FromModel, Inherited} && p.humanAction.None?
       case _ => false
  }

  function NewBranch(e: Event): Branch
    requires e.body.BranchCreated?
  {
    var p := e.body;
    Branch(p.parent, p.mode, p.anchor, p.inherited, p.inherited, p.hypothesis, p.initial, p.reason, p.humanAction,
           [StatusChange(e.seq_, None, p.initial)])
  }

  predicate CanCreateBranch(l: Ledger, e: Event)
    requires e.body.BranchCreated?
  {
    var p := e.body;
    && p.branch !in l.branches && p.initial in {Active, Paused}
    && (match p.parent
        case None =>
          e.actor.System? && p.mode.Root? && p.anchor.None? && p.inherited == [] && p.reason.RootBranch? && p.humanAction.None?
        case Some(parent) => CanFork(l, e, parent))
    && WithinActiveLimit(l.run, l.branches[p.branch := NewBranch(e)])
  }

  predicate CitesAction(l: Ledger, action: Option<Id>, kind: ActionKind, branch: Id) {
    action.Some? && action.value in l.actions
    && l.actions[action.value].kind == kind && l.actions[action.value].target == OnBranch(branch)
  }

  predicate StatusReasonOk(codec: Codec, l: Ledger, e: Event)
    requires e.body.BranchStatusChanged? && e.body.branch in l.branches
  {
    var p := e.body;
    var transcript := l.branches[p.branch].steps;
    match p.statusReason
    case HumanPause => e.actor.Human? && CitesAction(l, p.humanAction, PauseBranch, p.branch) && p.citedCheck.None? && p.citedCall.None?
    case HumanResume => e.actor.Human? && CitesAction(l, p.humanAction, ResumeBranch, p.branch) && p.citedCheck.None? && p.citedCall.None?
    case HumanKill => e.actor.Human? && CitesAction(l, p.humanAction, KillBranch, p.branch) && p.citedCheck.None? && p.citedCall.None?
    case WriterComplete =>
      e.actor.Model? && p.to.Completed? && p.humanAction.None? && p.citedCheck.None? && p.citedCall.None?
    case RuntimeFailure =>
      && l.IsV11() && e.actor.System? && p.to.Paused? && p.humanAction.None?
      && p.citedCall.Some? && p.citedCall.value in l.calls
      && var call := l.calls[p.citedCall.value];
      && call.state in {Failed, Aborted}
      && (match call.target
          case WriterTarget(b, _) => b == p.branch && p.citedCheck.None?
          case CheckerTarget(c) =>
            p.citedCheck == Some(c) && c in l.checks && l.checks[c].target in transcript
          case JudgeTarget(_) => false)
    case WriterBlocked =>
      && l.IsV11() && e.actor.Model? && p.to.Parked? && p.humanAction.None? && p.citedCheck.None?
      && p.citedCall.Some? && FinishedWriter(l, p.citedCall.value)
      && var call := l.calls[p.citedCall.value];
      && call.target.WriterTarget? && call.target.branch == p.branch
      && WriterControl(codec, call).Some? && WriterControl(codec, call).value.decision.Blocked?
    case HardDefectReason =>
      && e.actor in {Checker, System} && p.humanAction.None? && p.citedCall.None? && p.to.Killed?
      && p.citedCheck.Some? && p.citedCheck.value in l.checks
      && l.checks[p.citedCheck.value].verdict == Some(HardDefect)
      && l.checks[p.citedCheck.value].target in transcript
    case InstrumentFailureReason =>
      && e.actor.System? && p.humanAction.None? && p.citedCheck.None? && p.to.Parked?
      && p.citedCall.Some? && p.citedCall.value in l.calls
      && var call := l.calls[p.citedCall.value];
      && call.role.WriterRole? && call.target.WriterTarget? && call.target.branch == p.branch
      && call.state in {Failed, Aborted}
      && call.output.Some? && call.output.value.bodyChars == 0
    case ManualReopen =>
      && e.actor.Human? && CitesAction(l, p.humanAction, ResumeBranch, p.branch)
      && p.citedCheck.None? && p.citedCall.None? && p.to.Active?
  }

  predicate CanChangeStatus(codec: Codec, l: Ledger, e: Event)
    requires e.body.BranchStatusChanged?
  {
    var p := e.body;
    && p.branch in l.branches
    && p.from == l.branches[p.branch].status
    && p.to in Transitions(l.branches[p.branch].status)
    && StatusReasonOk(codec, l, e)
    && WithinActiveLimit(l.run, l.branches[p.branch := Moved(l.branches[p.branch], e.seq_, p.to)])
  }

  predicate InFlight(calls: map<Id, Call>, role: Role, target: CallTarget) {
    exists c :: c in calls && calls[c].state.Started? && calls[c].role == role && calls[c].target == target
  }

  predicate TargetOk(l: Ledger, role: Role, target: CallTarget) {
    match role
    case WriterRole =>
      target.WriterTarget? && target.branch in l.branches && l.branches[target.branch].status.Active?
      && target.slot == |l.branches[target.branch].steps| + 1
    case CheckerRole => target.CheckerTarget? && target.check in l.checks && l.checks[target.check].completed.None?
    case JudgeRole =>
      target.JudgeTarget? && target.judgement in l.judgements && l.judgements[target.judgement].verdict.None?
  }

  function SpecOf(c: Config, r: Role): ModelSpec {
    match r
    case WriterRole => c.writer
    case CheckerRole => c.checker
    case JudgeRole => c.judge
  }

  predicate CanStartCall(l: Ledger, e: Event)
    requires e.body.ModelCallStarted?
  {
    var p := e.body;
    && l.run.Some? && p.call !in l.calls && e.actor == ActorOf(p.role)
    && p.spec == SpecOf(l.run.value.config, p.role)
    && TargetOk(l, p.role, p.target)
    && !InFlight(l.calls, p.role, p.target)
    && (l.run.value.config.maxModelCalls.Some? ==> |l.calls| < l.run.value.config.maxModelCalls.value)
  }

  predicate OpenCall(l: Ledger, call: Id, actor: ActorKind) {
    call in l.calls && l.calls[call].state.Started? && actor == ActorOf(l.calls[call].role)
  }

  predicate CanChunk(codec: Codec, l: Ledger, e: Event)
    requires e.body.ModelCallChunk?
  {
    var p := e.body;
    && OpenCall(l, p.call, e.actor) && p.index == |l.calls[p.call].chunks| && p.sha == codec.textSha(p.chunkText)
  }

  predicate CanFinishCall(codec: Codec, l: Ledger, e: Event)
    requires e.body.ModelCallFinished?
  {
    var p := e.body;
    && OpenCall(l, p.call, e.actor) && codec.Sound(p.output)
    && (BodyText(l.calls[p.call].chunks) != [] ==> BodyText(l.calls[p.call].chunks) == p.output.text)
  }

  predicate CanAbortCall(codec: Codec, l: Ledger, e: Event)
    requires e.body.ModelCallAborted?
  {
    var p := e.body;
    && OpenCall(l, p.call, e.actor) && codec.Sound(p.output)
    && p.abortAction in l.actions && l.actions[p.abortAction].kind == AbortModelCall
    && l.actions[p.abortAction].target == OnCall(p.call)
  }

  function Closed(c: Call, s: CallState, o: Output): Call {
    c.(state := s, output := Some(o))
  }

  predicate OriginOk(l: Ledger, e: Event)
    requires e.body.StepSealed?
  {
    var p := e.body;
    match p.origin
    case ModelOrigin(c) =>
      && e.actor.Model? && FinishedWriter(l, c)
      && l.calls[c].target == WriterTarget(p.branch, p.slot)
      && WriterOutputSha(l.calls[c]) == Some(p.sha)
    case HumanOrigin(a) =>
      && e.actor.Human? && a in l.actions && l.actions[a].kind == ReviseStep
      && p.replaced.Some? && l.actions[a].target == OnStep(p.replaced.value)
      && l.actions[a].contentSha == Some(p.sha)
  }

  predicate CanSeal(codec: Codec, l: Ledger, e: Event)
    requires e.body.StepSealed?
  {
    var p := e.body;
    && p.step !in l.steps && p.branch in l.branches
    && var b := l.branches[p.branch];
    && b.status.Active? && p.slot == |b.steps| + 1 && p.revision > 0
    && p.sha == codec.ContentSha(p.content)
    && (match p.replaced
        case None => p.revision == 1
        case Some(r) =>
          && r in l.steps && b.mode.Replace? && b.anchor == Some(r) && b.steps == b.inherited
          && p.slot == l.steps[r].slot && p.revision == l.steps[r].revision + 1)
    && OriginOk(l, e)
  }

  predicate CanRequestCheck(l: Ledger, e: Event)
    requires e.body.CheckRequested?
  {
    var p := e.body;
    && e.actor.System? && p.check !in l.checks && p.step in l.steps && p.sha == l.steps[p.step].sha
    && (p.required ==> forall c :: c in l.candidates ==> p.step !in l.candidates[c].transcript)
  }

  predicate CanCompleteCheck(codec: Codec, l: Ledger, e: Event)
    requires e.body.CheckCompleted?
  {
    var p := e.body;
    && e.actor.Checker? && p.check in l.checks
    && var check := l.checks[p.check];
    && check.completed.None? && p.step == check.target && p.sha == check.sha
    && p.call in l.calls
    && var call := l.calls[p.call];
    && call.role.CheckerRole? && call.target == CheckerTarget(p.check)
    && (if p.verdict.InstrumentFailure? then call.state in {Failed, Aborted} && p.evidence == []
        else call.state.Finished?)
    && (p.verdict.HardDefect? ==> p.evidence != [])
    && (p.verdict.HardDefect? || l.IsV11() ==> forall i :: 0 <= i < |p.evidence| ==> EvidenceOk(codec, l, p.evidence[i], check.target))
  }

  predicate CanDeclare(codec: Codec, l: Ledger, e: Event)
    requires e.body.CandidateDeclared?
  {
    var p := e.body;
    && p.candidate !in l.candidates && p.branch in l.branches && l.branches[p.branch].status.Completed?
    && p.transcript != [] && p.transcript == l.branches[p.branch].steps && p.tip == p.transcript[|p.transcript| - 1]
    && (forall i :: 0 <= i < |p.transcript| ==> p.transcript[i] in l.steps)
    && p.sha == codec.transcriptSha(Material(p.transcript, l.steps))
    && multiset(p.requiredChecks) == multiset(RequiredChecks(l.checks, p.transcript))
    && (l.IsV11() ==> multiset(p.unresolved) == multiset(Unresolved(l.checks, p.requiredChecks)))
    && p.declarer in {Model, Human} && e.actor == p.declarer
  }

  predicate CanRequestJudgement(l: Ledger, e: Event)
    requires e.body.JudgementRequested?
  {
    var p := e.body;
    && p.judgement !in l.judgements && p.candidate in l.candidates && p.sha == l.candidates[p.candidate].sha
    && Judgeable(l.IsV11(), CandidateStatusIn(l, l.candidates[p.candidate]))
    && p.requester in {System, Human} && e.actor == p.requester
  }

  /** Every clause of judgement completion except the re-check of eligibility. */
  predicate CanCompleteJudgementUnchecked(l: Ledger, e: Event)
    requires e.body.JudgementCompleted?
  {
    var p := e.body;
    && e.actor.Judge? && p.judgement in l.judgements
    && var j := l.judgements[p.judgement];
    && j.verdict.None? && p.candidate == j.candidate && p.sha == j.sha
    && p.call in l.calls && l.calls[p.call].role.JudgeRole? && l.calls[p.call].target == JudgeTarget(p.judgement)
    && (if p.judgementVerdict.JudgeInstrumentFailure? then l.calls[p.call].state in {Failed, Aborted}
        else l.calls[p.call].state.Finished?)
  }

  predicate CanCompleteJudgement(l: Ledger, e: Event)
    requires e.body.JudgementCompleted?
  {
    && CanCompleteJudgementUnchecked(l, e)
    && e.body.candidate in l.candidates
    && Judgeable(l.IsV11(), CandidateStatusIn(l, l.candidates[e.body.candidate]))
  }

  predicate CanSelect(l: Ledger, e: Event)
    requires e.body.SelectionRecorded?
  {
    var p := e.body;
    && l.selections == map[] && p.candidate in l.candidates && p.sha == l.candidates[p.candidate].sha
    && CandidateStatusIn(l, l.candidates[p.candidate]) == Eligible
    && p.judgement in l.judgements && l.judgements[p.judgement].candidate == p.candidate
    && l.judgements[p.judgement].sha == p.sha && l.judgements[p.judgement].verdict == Some(Pass)
    && (if e.actor.Human? then
          && p.humanAction.Some? && p.humanAction.value in l.actions
          && l.actions[p.humanAction.value].kind == SelectCandidate
          && l.actions[p.humanAction.value].target == OnCandidate(p.candidate)
        else e.actor.System? && p.humanAction.None?)
  }

  predicate CanRegisterSource(codec: Codec, l: Ledger, e: Event)
    requires e.body.SourceRegistered?
  {
    var p := e.body;
    l.IsV11() && e.actor.System? && p.source !in l.sources && codec.textSha(p.sourceText) == p.sha && l.calls == map[]
  }

  predicate CanRevise(codec: Codec, l: Ledger, e: Event)
    requires e.body.ModelRevisionApplied?
  {
    var p := e.body;
    && l.IsV11() && e.actor.Model? && p.revisedParent in l.branches && p.branch !in l.branches
    && var parent := l.branches[p.revisedParent];
    && parent.status.Active? && p.revised in parent.steps && p.revised in l.steps && p.step !in l.steps
    && FinishedWriter(l, p.call)
    && l.calls[p.call].target == WriterTarget(p.revisedParent, |parent.steps| + 1)
    && !Materialized(l.steps, p.call)
    && WriterControl(codec, l.calls[p.call]) == Some(Control(Revise, Some(p.revised), Some(p.why)))
    && WriterOutputSha(l.calls[p.call]) == Some(codec.ContentSha(p.content))
  }

  /** The branch that a model revision creates, carrying the replacement step. */
  function RevisedBranch(l: Ledger, e: Event): Branch
    requires e.body.ModelRevisionApplied? && e.body.revisedParent in l.branches
    requires e.body.revised in l.branches[e.body.revisedParent].steps
  {
    var p := e.body;
    var parent := l.branches[p.revisedParent];
    var prefix := parent.steps[..IndexOf(parent.steps, p.revised)];
    Branch(Some(p.revisedParent), Replace, Some(p.revised), prefix, prefix + [p.step],
           Hypothesis(parent.hypothesis.text, FromModel, Some(e.id)), Active, ModelRevision, None,
           [StatusChange(e.seq_, None, Active)])
  }

  predicate CanDefer(codec: Codec, l: Ledger, e: Event)
    requires e.body.ModelRevisionDeferred?
  {
    var p := e.body;
    && l.IsV11() && e.actor.System? && FinishedWriter(l, p.call)
    && var call := l.calls[p.call];
    && call.disposition.None?
    && WriterControl(codec, call).Some? && WriterControl(codec, call).value.decision.Revise?
    && WriterControl(codec, call).value.target == Some(p.revised)
    && call.target.WriterTarget? && call.target.branch in l.branches
    && p.revised in l.branches[call.target.branch].steps
  }

  predicate CanRetryCheck(l: Ledger, e: Event)
    requires e.body.CheckRetryAuthorized?
  {
    var p := e.body;
    && l.IsV11() && e.actor.System? && p.check in l.checks && p.retryAction in l.actions
    && var check, action := l.checks[p.check], l.actions[p.retryAction];
    && check.verdict == Some(InstrumentFailure) && check.required
    && action.kind == ResumeBranch && action.target.OnBranch? && action.target.branch in l.branches
    && check.target in l.branches[action.target.branch].steps
    && check.completed.Some? && action.seq_ > check.completed.value
  }

  predicate CanCompleteRoute(codec: Codec, l: Ledger, e: Event)
    requires e.body.WriterRouteCompletion?
  {
    var p := e.body;
    && l.IsV11() && e.actor.Model? && p.branch in l.branches
    && var b := l.branches[p.branch];
    && b.status.Active? && b.steps != [] && b.steps[|b.steps| - 1] == p.tip && p.tip in l.steps
    && FinishedWriter(l, p.call) && l.calls[p.call].target == WriterTarget(p.branch, |b.steps| + 1)
    && WriterControl(codec, l.calls[p.call]).Some? && WriterControl(codec, l.calls[p.call]).value.decision.Complete?
    && WriterOutputSha(l.calls[p.call]) == Some(l.steps[p.tip].sha)
    && l.calls[p.call].disposition.None?
    && forall c :: c in RequiredChecks(l.checks, b.steps) ==>
         l.checks[c].completed.Some? && l.checks[c].verdict != Some(InstrumentFailure)
  }

  predicate CanNormalize(codec: Codec, l: Ledger, e: Event)
    requires e.body.WriterOutputNormalized?
  {
    var p := e.body;
    && l.IsV11() && e.actor.System? && FinishedWriter(l, p.call)
    && var call := l.calls[p.call];
    && call.normalized.None? && call.disposition.None? && !Materialized(l.steps, p.call)
    && call.output.Some? && p.rawSha == call.output.value.sha
    && var raw := codec.decode(call.output.value.text);
    && raw.Some? && codec.encode(raw.value) == call.output.value.text
    && p.edits != [] && ApplyEdits(codec, l.sources, raw.value, p.edits) == Some(p.content)
    && p.sha == codec.ContentSha(p.content) && p.sha != p.rawSha
  }

  // ----- effects, one per handler ----------------------------------------------

  /** No existing transcript changed. */
  ghost predicate SameTranscripts(before: map<Id, Branch>, after: map<Id, Branch>) {
    forall b :: b in before ==> b in after && after[b].steps == before[b].steps
  }

  function AfterRun(l: Ledger, e: Event): (r: Ledger)
    requires e.body.RunCreated?
    ensures r.count == l.count && r.steps == l.steps && r.branches == l.branches
  {
    l.(run := Some(Run(e.body.config, e.body.task)))
  }

  function AfterHumanAction(l: Ledger, e: Event): (r: Ledger)
    requires e.body.HumanActionRecorded?
    ensures r.count == l.count && r.steps == l.steps && r.branches == l.branches
  {
    var p := e.body;
    l.(actions := l.actions[p.action := Action(p.kind, p.actionTarget, p.text, p.textSha, e.id, e.seq_)])
  }

  function AfterCreateBranch(l: Ledger, e: Event): (r: Ledger)
    requires e.body.BranchCreated?
    ensures r.count == l.count && r.steps == l.steps
    ensures e.body.branch !in l.branches ==> SameTranscripts(l.branches, r.branches)
  {
    l.(branches := l.branches[e.body.branch := NewBranch(e)])
  }

  function AfterChangeStatus(l: Ledger, e: Event): (r: Ledger)
    requires e.body.BranchStatusChanged? && e.body.branch in l.branches
    ensures r.count == l.count && r.steps == l.steps && SameTranscripts(l.branches, r.branches)
  {
    l.(branches := l.branches[e.body.branch := Moved(l.branches[e.body.branch], e.seq_, e.body.to)])
  }

  function AfterStartCall(l: Ledger, e: Event): (r: Ledger)
    requires e.body.ModelCallStarted?
    ensures r.count == l.count && r.steps == l.steps && r.branches == l.branches
  {
    l.(calls := l.calls[e.body.call := Call(e.body.role, e.body.target, Started, [], None, None, None)])
  }

  function AfterChunk(l: Ledger, e: Event): (r: Ledger)
    requires e.body.ModelCallChunk? && e.body.call in l.calls
    ensures r.count == l.count && r.steps == l.steps && r.branches == l.branches
  {
    var call := l.calls[e.body.call];
    l.(calls := l.calls[e.body.call := call.(chunks := call.chunks + [Chunk(e.body.channel, e.body.chunkText)])])
  }

  function AfterClose(l: Ledger, call: Id, s: CallState, o: Output): (r: Ledger)
    requires call in l.calls
    ensures r.count == l.count && r.steps == l.steps && r.branches == l.branches
  {
    l.(calls := l.calls[call := Closed(l.calls[call], s, o)])
  }

  function SealedStep(e: Event): StepRevision
    requires e.body.StepSealed?
  {
    var p := e.body;
    StepRevision(p.branch, p.slot, p.revision, p.replaced, p.content, p.sha, p.origin)
  }

  function Grown(b: Branch, s: Id): Branch {
    b.(steps := b.steps + [s])
  }

  function AfterSeal(l: Ledger, e: Event): (r: Ledger)
    requires e.body.StepSealed? && e.body.branch in l.branches
    ensures r.count == l.count
    ensures forall b :: b in l.branches ==>
              b in r.branches && (b != e.body.branch ==> r.branches[b] == l.branches[b])
  {
    var p := e.body;
    l.(steps := l.steps[p.step := SealedStep(e)], branches := l.branches[p.branch := Grown(l.branches[p.branch], p.step)])
  }

  function AfterRequestCheck(l: Ledger, e: Event): (r: Ledger)
    requires e.body.CheckRequested?
    ensures r.count == l.count && r.steps == l.steps && r.branches == l.branches
  {
    l.(checks := l.checks[e.body.check := Check(e.body.step, e.body.sha, e.body.required, None, None, [], None)])
  }

  function AfterCompleteCheck(l: Ledger, e: Event): (r: Ledger)
    requires e.body.CheckCompleted? && e.body.check in l.checks
    ensures r.count == l.count && r.steps == l.steps && r.branches == l.branches
  {
    var p := e.body;
    l.(checks := l.checks[p.check := l.checks[p.check].(verdict := Some(p.verdict), call := Some(p.call),
                                                        evidence := p.evidence, completed := Some(e.seq_))])
  }

  function AfterDeclare(l: Ledger, e: Event): (r: Ledger)
    requires e.body.CandidateDeclared?
    ensures r.count == l.count && r.steps == l.steps && r.branches == l.branches
  {
    var p := e.body;
    l.(candidates := l.candidates[p.candidate := Candidate(p.branch, p.transcript, p.sha, p.requiredChecks)])
  }

  function AfterRequestJudgement(l: Ledger, e: Event): (r: Ledger)
    requires e.body.JudgementRequested?
    ensures r.count == l.count && r.steps == l.steps && r.branches == l.branches
  {
    l.(judgements := l.judgements[e.body.judgement := Judgement(e.body.candidate, e.body.sha, None, None)])
  }

  function AfterCompleteJudgement(l: Ledger, e: Event): (r: Ledger)
    requires e.body.JudgementCompleted? && e.body.judgement in l.judgements
    ensures r.count == l.count && r.steps == l.steps && r.branches == l.branches
  {
    var p := e.body;
    l.(judgements := l.judgements[p.judgement := l.judgements[p.judgement].(verdict := Some(p.judgementVerdict), call := Some(p.call))])
  }

  function AfterSelect(l: Ledger, e: Event): (r: Ledger)
    requires e.body.SelectionRecorded?
    ensures r.count == l.count && r.steps == l.steps && r.branches == l.branches
  {
    var p := e.body;
    l.(selections := l.selections[p.selection := Selection(p.candidate, p.sha, p.judgement, e.actor, p.humanAction)])
  }

  function AfterRegisterSource(l: Ledger, e: Event): (r: Ledger)
    requires e.body.SourceRegistered?
    ensures r.count == l.count && r.steps == l.steps && r.branches == l.branches
  {
    l.(sources := l.sources[e.body.source := Source(e.body.sourceText, e.body.sha)])
  }

  function ReplacementStep(codec: Codec, l: Ledger, e: Event): StepRevision
    requires e.body.ModelRevisionApplied? && e.body.revised in l.steps
  {
    var p := e.body;
    StepRevision(p.branch, l.steps[p.revised].slot, l.steps[p.revised].revision + 1, Some(p.revised), p.content,
                 codec.ContentSha(p.content), ModelOrigin(p.call))
  }

  function AfterRevise(codec: Codec, l: Ledger, e: Event): (r: Ledger)
    requires e.body.ModelRevisionApplied? && CanRevise(codec, l, e)
    ensures r.count == l.count
  {
    var p := e.body;
    l.(branches := l.branches[p.revisedParent := Moved(l.branches[p.revisedParent], e.seq_, Parked)][p.branch := RevisedBranch(l, e)],
       steps := l.steps[p.step := ReplacementStep(codec, l, e)])
  }

  function Disposed(l: Ledger, call: Id, d: Disposition): map<Id, Call>
    requires call in l.calls
  {
    l.calls[call := l.calls[call].(disposition := Some(d))]
  }

  function AfterDefer(l: Ledger, e: Event): (r: Ledger)
    requires e.body.ModelRevisionDeferred? && e.body.call in l.calls
    ensures r.count == l.count && r.steps == l.steps && r.branches == l.branches
  {
    l.(calls := Disposed(l, e.body.call, RevisionDeferred(e.body.revised)))
  }

  function AfterRetryCheck(l: Ledger, e: Event): (r: Ledger)
    requires e.body.CheckRetryAuthorized? && e.body.check in l.checks
    ensures r.count == l.count && r.steps == l.steps && r.branches == l.branches
  {
    l.(checks := l.checks[e.body.check := l.checks[e.body.check].(required := false)])
  }

  function AfterCompleteRoute(l: Ledger, e: Event): (r: Ledger)
    requires e.body.WriterRouteCompletion? && e.body.branch in l.branches && e.body.call in l.calls
    ensures r.count == l.count && r.steps == l.steps && SameTranscripts(l.branches, r.branches)
  {
    l.(branches := l.branches[e.body.branch := Moved(l.branches[e.body.branch], e.seq_, Completed)],
       calls := Disposed(l, e.body.call, RouteCompletion(e.body.tip)))
  }

  function AfterNormalize(l: Ledger, e: Event): (r: Ledger)
    requires e.body.WriterOutputNormalized? && e.body.call in l.calls
    ensures r.count == l.count && r.steps == l.steps && r.branches == l.branches
  {
    l.(calls := l.calls[e.body.call := l.calls[e.body.call].(normalized := Some(e.body.sha))])
  }

  // ----- one event, one log ----------------------------------------------------

  /** The `require` calls of the handler that `e` dispatches to. */
  predicate Accepts(codec: Codec, l: Ledger, e: Event) {
    match e.body
    case RunCreated(_, _) => l.run.None? && e.actor.System?
    case HumanActionRecorded(_, _, _, _, _) => CanHumanAction(codec, l, e)
    case BranchCreated(_, _, _, _, _, _, _, _, _) => CanCreateBranch(l, e)
    case BranchStatusChanged(_, _, _, _, _, _, _) => CanChangeStatus(codec, l, e)
    case ModelCallStarted(_, _, _, _) => CanStartCall(l, e)
    case ModelCallChunk(_, _, _, _, _) => CanChunk(codec, l, e)
    case ModelCallFinished(_, _) => CanFinishCall(codec, l, e)
    case ModelCallFailed(c, o) => OpenCall(l, c, e.actor) && codec.Sound(o)
    case ModelCallAborted(_, _, _) => CanAbortCall(codec, l, e)
    case StepSealed(_, _, _, _, _, _, _, _) => CanSeal(codec, l, e)
    case CheckRequested(_, _, _, _) => CanRequestCheck(l, e)
    case CheckCompleted(_, _, _, _, _, _) => CanCompleteCheck(codec, l, e)
    case CandidateDeclared(_, _, _, _, _, _, _, _) => CanDeclare(codec, l, e)
    case JudgementRequested(_, _, _, _) => CanRequestJudgement(l, e)
    case JudgementCompleted(_, _, _, _, _) => CanCompleteJudgement(l, e)
    case SelectionRecorded(_, _, _, _, _) => CanSelect(l, e)
    case SourceRegistered(_, _, _) => CanRegisterSource(codec, l, e)
    case ModelRevisionApplied(_, _, _, _, _, _, _) => CanRevise(codec, l, e)
    case ModelRevisionDeferred(_, _) => CanDefer(codec, l, e)
    case CheckRetryAuthorized(_, _) => CanRetryCheck(l, e)
    case WriterRouteCompletion(_, _, _) => CanCompleteRoute(codec, l, e)
    case WriterOutputNormalized(_, _, _, _, _) => CanNormalize(codec, l, e)
  }

  /** What the handler writes. */
  function Effect(codec: Codec, l: Ledger, e: Event): Ledger
    requires Accepts(codec, l, e)
  {
    match e.body
    case RunCreated(_, _) => AfterRun(l, e)
    case HumanActionRecorded(_, _, _, _, _) => AfterHumanAction(l, e)
    case BranchCreated(_, _, _, _, _, _, _, _, _) => AfterCreateBranch(l, e)
    case BranchStatusChanged(_, _, _, _, _, _, _) => AfterChangeStatus(l, e)
    case ModelCallStarted(_, _, _, _) => AfterStartCall(l, e)
    case ModelCallChunk(_, _, _, _, _) => AfterChunk(l, e)
    case ModelCallFinished(c, o) => AfterClose(l, c, Finished, o)
    case ModelCallFailed(c, o) => AfterClose(l, c, Failed, o)
    case ModelCallAborted(c, _, o) => AfterClose(l, c, Aborted, o)
    case StepSealed(_, _, _, _, _, _, _, _) => AfterSeal(l, e)
    case CheckRequested(_, _, _, _) => AfterRequestCheck(l, e)
    case CheckCompleted(_, _, _, _, _, _) => AfterCompleteCheck(l, e)
    case CandidateDeclared(_, _, _, _, _, _, _, _) => AfterDeclare(l, e)
    case JudgementRequested(_, _, _, _) => AfterRequestJudgement(l, e)
    case JudgementCompleted(_, _, _, _, _) => AfterCompleteJudgement(l, e)
    case SelectionRecorded(_, _, _, _, _) => AfterSelect(l, e)
    case SourceRegistered(_, _, _) => AfterRegisterSource(l, e)
    case ModelRevisionApplied(_, _, _, _, _, _, _) => AfterRevise(codec, l, e)
    case ModelRevisionDeferred(_, _) => AfterDefer(l, e)
    case CheckRetryAuthorized(_, _) => AfterRetryCheck(l, e)
    case WriterRouteCompletion(_, _, _) => AfterCompleteRoute(l, e)
    case WriterOutputNormalized(_, _, _, _, _) => AfterNormalize(l, e)
  }

  predicate OnlyInV11(p: Payload) {
    p.SourceRegistered? || p.ModelRevisionApplied? || p.ModelRevisionDeferred? || p.CheckRetryAuthorized?
    || p.WriterRouteCompletion? || p.WriterOutputNormalized?
  }

  /** `_validate_envelope`: version, sequence, identity and the hash chain. */
  predicate EnvelopeOk(codec: Codec, l: Ledger, e: Event) {
    && (l.version.Some? ==> Some(e.version) == l.version)
    && e.seq_ == l.count + 1
    && e.id !in l.eventIds
    && (OnlyInV11(e.body) ==> e.version.V1_1?)
    && (if l.runId.None? then e.body.RunCreated? && e.prev.None?
        else Some(e.run) == l.runId && e.prev.Some? && e.prev == l.head)
    && e.sha == codec.Seal(e)
  }

  function Entered(l: Ledger, e: Event): Ledger {
    l.(version := Some(e.version), runId := Some(e.run), eventIds := l.eventIds + {e.id})
  }

  predicate Admits(codec: Codec, l: Ledger, e: Event) {
    EnvelopeOk(codec, l, e) && Accepts(codec, Entered(l, e), e)
  }

  function Next(codec: Codec, l: Ledger, e: Event): Ledger
    requires Admits(codec, l, e)
  {
    Effect(codec, Entered(l, e), e).(count := l.count + 1, head := Some(e.sha))
  }

  /** The fold over the log; None once any event was rejected. */
  function Fold(codec: Codec, log: seq<Event>): Option<Ledger>
    decreases |log|
  {
    if log == [] then Some(EMPTY_LEDGER)
    else
      match Fold(codec, log[..|log| - 1])
      case None => None
      case Some(l) => if Admits(codec, l, log[|log| - 1]) then Some(Next(codec, l, log[|log| - 1])) else None
  }

  /** `_final_checks`, clause by clause. */
  predicate FinalChecks(l: Ledger) {
    && l.run.Some?
    && (forall c :: c in l.calls ==> Terminal(l.calls[c].state))
    && (forall s :: s in l.selections ==>
          && l.selections[s].candidate in l.candidates
          && CandidateStatusIn(l, l.candidates[l.selections[s].candidate]) == Eligible
          && l.selections[s].judgement in l.judgements
          && l.judgements[l.selections[s].judgement].verdict == Some(Pass))
  }
}
