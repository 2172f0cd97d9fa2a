/**
 The entities of a derivation record (src/derivation_agent_record/model.py and the
 dictionaries that src/derivation_agent_record/replay.py keeps per object).

 Identifiers and digests are opaque tokens that replay only compares. SHA-256,
 canonical JSON and JSON parsing come in through a Codec: no statement relies on
 what these functions compute unless it says so in a requires clause.
 */
module RecordModel {
  import opened Wrappers
  import MacroExpansion

  type Id = nat
  type Sha = nat

  datatype Version = V1 | V1_1

  datatype ActorKind = System | Model | Checker | Judge | Human

  datatype BranchStatus = Active | Paused | Parked | Completed | Killed

  datatype ForkMode = Root | After | Replace

  datatype CreatedReason =
    | RootBranch
    | HumanDirection
    | HumanHypothesis
    | HumanRevision
    | ModelAlternative
    | InstrumentRetry
    | ModelRevision

  datatype HypothesisSource = FromModel | FromHuman | Inherited

  datatype Hypothesis = Hypothesis(text: string, source: HypothesisSource, sourceEvent: Option<Id>)

  datatype StatusChange = StatusChange(seq_: nat, from: Option<BranchStatus>, to: BranchStatus)

  datatype Branch = Branch(
    parent: Option<Id>,
    mode: ForkMode,
    anchor: Option<Id>,
    inherited: seq<Id>,
    steps: seq<Id>,
    hypothesis: Hypothesis,
    status: BranchStatus,
    reason: CreatedReason,
    action: Option<Id>,
    history: seq<StatusChange>)

  datatype Content = Content(claim: string, why: string, source: string, derivation: string, scope: string)

  datatype Origin = ModelOrigin(call: Id) | HumanOrigin(action: Id)

  datatype StepRevision = StepRevision(
    branch: Id,
    slot: nat,
    revision: nat,
    replaced: Option<Id>,
    content: Content,
    sha: Sha,
    origin: Origin)

  datatype Role = WriterRole | CheckerRole | JudgeRole

  datatype CallTarget =
    | WriterTarget(branch: Id, slot: nat)
    | CheckerTarget(check: Id)
    | JudgeTarget(judgement: Id)

  datatype Channel = Analysis | Body | Raw

  datatype Chunk = Chunk(channel: Channel, text: string)

  datatype CallState = Started | Finished | Failed | Aborted

  datatype Output = Output(text: string, sha: Sha, bodyChars: nat)

  datatype Disposition = RevisionDeferred(target: Id) | RouteCompletion(tip: Id)

  datatype Call = Call(
    role: Role,
    target: CallTarget,
    state: CallState,
    chunks: seq<Chunk>,
    output: Option<Output>,
    normalized: Option<Sha>,
    disposition: Option<Disposition>)

  datatype Decision = Continue | Fork | Complete | Revise | Blocked

  datatype Control = Control(decision: Decision, target: Option<Id>, reason: Option<string>)

  datatype Verdict = Ok | Objection | HardDefect | InstrumentFailure

  datatype EvidenceKind = AncestorQuote | HypothesisQuote | ScopeQuote | TaskConstraintQuote | LiteratureQuote

  datatype Evidence = Evidence(kind: EvidenceKind, source: Id, quote: string)

  datatype Check = Check(
    target: Id,
    sha: Sha,
    required: bool,
    verdict: Option<Verdict>,
    call: Option<Id>,
    evidence: seq<Evidence>,
    completed: Option<nat>)

  datatype Candidate = Candidate(
    branch: Id,
    transcript: seq<Id>,
    sha: Sha,
    required: seq<Id>)

  datatype CandidateStatus = Provisional | Blocked_ | Rejected | Eligible | Conditional

  datatype JudgementVerdict = Pass | NearPass | Fail | JudgeInstrumentFailure

  datatype Judgement = Judgement(candidate: Id, sha: Sha, verdict: Option<JudgementVerdict>, call: Option<Id>)

  datatype Selection = Selection(candidate: Id, sha: Sha, judgement: Id, actor: ActorKind, action: Option<Id>)

  datatype ActionKind =
    | PauseBranch
    | ResumeBranch
    | KillBranch
    | ReviseStep
    | SetDirection
    | SetHypothesis
    | AbortModelCall
    | SelectCandidate

  datatype ActionTarget =
    | OnBranch(branch: Id)
    | OnStep(step: Id)
    | OnCall(call: Id)
    | OnCandidate(candidate: Id)

  datatype Action = Action(
    kind: ActionKind,
    target: ActionTarget,
    content: Option<string>,
    contentSha: Option<Sha>,
    event: Id,
    seq_: nat)

  datatype ModelSpec = ModelSpec(provider: string, model: string, effort: string)

  datatype Config = Config(
    maxActiveBranches: Option<nat>,
    maxModelCalls: Option<nat>,
    writer: ModelSpec,
    checker: ModelSpec,
    judge: ModelSpec)

  datatype Run = Run(config: Config, task: Id)

  datatype Source = Source(text: string, sha: Sha)

  datatype Field = Claim | Why | SourceField | Derivation | Scope

  datatype EditKind =
    | MacroExpansion(source: Id, line: int)
    | ControlBackslash
    | ControlRemoved
    | DelRemoved
    | AnsiEscapeRemoved

  datatype Edit = Edit(field: Field, start: int, end: int, original: string, replacement: string, kind: EditKind)

  datatype StatusReason =
    | HumanPause
    | HumanResume
    | HumanKill
    | WriterComplete
    | RuntimeFailure
    | WriterBlocked
    | HardDefectReason
    | InstrumentFailureReason
    | ManualReopen

  datatype Payload =
    | RunCreated(config: Config, task: Id)
    | HumanActionRecorded(action: Id, kind: ActionKind, actionTarget: ActionTarget, text: Option<string>, textSha: Option<Sha>)
    | BranchCreated(branch: Id, parent: Option<Id>, mode: ForkMode, anchor: Option<Id>, inherited: seq<Id>,
                    hypothesis: Hypothesis, initial: BranchStatus, reason: CreatedReason, humanAction: Option<Id>)
    | BranchStatusChanged(branch: Id, from: BranchStatus, to: BranchStatus, statusReason: StatusReason,
                          humanAction: Option<Id>, citedCheck: Option<Id>, citedCall: Option<Id>)
    | ModelCallStarted(call: Id, role: Role, spec: ModelSpec, target: CallTarget)
    | ModelCallChunk(call: Id, channel: Channel, index: nat, chunkText: string, sha: Sha)
    | ModelCallFinished(call: Id, output: Output)
    | ModelCallFailed(call: Id, output: Output)
    | ModelCallAborted(call: Id, abortAction: Id, output: Output)
    | StepSealed(step: Id, branch: Id, slot: nat, revision: nat, replaced: Option<Id>, content: Content, sha: Sha, origin: Origin)
    | CheckRequested(check: Id, step: Id, sha: Sha, required: bool)
    | CheckCompleted(check: Id, step: Id, sha: Sha, call: Id, verdict: Verdict, evidence: seq<Evidence>)
    | CandidateDeclared(candidate: Id, branch: Id, tip: Id, transcript: seq<Id>, sha: Sha, requiredChecks: seq<Id>,
                        unresolved: seq<Id>, declarer: ActorKind)
    | JudgementRequested(judgement: Id, candidate: Id, sha: Sha, requester: ActorKind)
    | JudgementCompleted(judgement: Id, candidate: Id, sha: Sha, call: Id, judgementVerdict: JudgementVerdict)
    | SelectionRecorded(selection: Id, candidate: Id, sha: Sha, judgement: Id, humanAction: Option<Id>)
    | SourceRegistered(source: Id, sourceText: string, sha: Sha)
    | ModelRevisionApplied(revisedParent: Id, branch: Id, revised: Id, step: Id, call: Id, why: string, content: Content)
    | ModelRevisionDeferred(call: Id, revised: Id)
    | CheckRetryAuthorized(check: Id, retryAction: Id)
    | WriterRouteCompletion(branch: Id, call: Id, tip: Id)
    | WriterOutputNormalized(call: Id, rawSha: Sha, content: Content, sha: Sha, edits: seq<Edit>)

  datatype Event = Event(
    version: Version,
    run: Id,
    seq_: nat,
    id: Id,
    actor: ActorKind,
    prev: Option<Sha>,
    sha: Sha,
    body: Payload)

  /** Hashing, serialisation and the parsed macro definitions: what replay computes on text. */
  datatype Codec = Codec(
    textSha: string -> Sha,
    eventSha: Event -> Sha,
    transcriptSha: seq<(Id, Sha)> -> Sha,
    encode: Content -> string,
    decode: string -> Option<Content>,
    control: string -> Option<Control>,
    table: map<Id, Source> -> MacroExpansion.Table)
  {
    /** `event_sha256` covers every field of the event except itself. */
    function Seal(e: Event): Sha {
      eventSha(e.(sha := 0))
    }

    function ContentSha(c: Content): Sha {
      textSha(encode(c))
    }

    predicate Sound(o: Output) {
      o.sha == textSha(o.text) && o.bodyChars == |o.text|
    }
  }

  /** Everything one replay holds after an accepted prefix of the log. */
  datatype Ledger = Ledger(
    version: Option<Version>,
    run: Option<Run>,
    runId: Option<Id>,
    count: nat,
    eventIds: set<Id>,
    head: Option<Sha>,
    actions: map<Id, Action>,
    branches: map<Id, Branch>,
    calls: map<Id, Call>,
    steps: map<Id, StepRevision>,
    checks: map<Id, Check>,
    candidates: map<Id, Candidate>,
    judgements: map<Id, Judgement>,
    selections: map<Id, Selection>,
    sources: map<Id, Source>)
  {
    predicate IsV11() {
      version == Some(V1_1)
    }
  }

  const EMPTY_LEDGER := Ledger(None, None, None, 0, {}, None, map[], map[], map[], map[], map[], map[], map[], map[], map[])

  /** BRANCH_TRANSITIONS: the statuses a branch may move to. */
  function Transitions(s: BranchStatus): set<BranchStatus> {
    match s
    case Active => {Paused, Parked, Completed, Killed}
    case Paused => {Active, Parked, Killed}
    case Parked => {Active, Paused, Killed}
    case Completed => {Active, Killed}
    case Killed => {}
  }

  function ActorOf(r: Role): ActorKind {
    match r
    case WriterRole => Model
    case CheckerRole => Checker
    case JudgeRole => Judge
  }

  predicate Terminal(s: CallState) {
    !s.Started?
  }
}
