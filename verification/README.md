# A verified model of the derivation agent's record and services

This project models the parts of the repository where behaviour comes from the
interplay of many guards, rounds or processes, and proves what a user of them relies on.

* **Record replay** (`Record*.dfy`). The 22 handlers of `ReplayEngine` fold an append-only
  event log into branches, steps, calls, checks, candidates and verdicts. `RecordEngine`
  is the engine as it runs, check by check on its own dictionaries; each handler is proved
  against a guard and an effect in `RecordRules`. `RecordInvariant` states what no handler
  states, `RecordSteps` and `RecordRuns` prove it for every accepted log, and
  `RecordTheorems`, `RecordLineage`, `RecordProvenance`, `RecordNormalization`,
  `RecordReuse` and `RecordReasons` draw the consequences; `RecordVerdicts` and
  `RecordReadings` say what the readings the handlers share mean on the recorded data.
* **Formula compile and repair** (`Formula*.dfy`, `Typeset*.dfy`). `compile_fragments`
  against an engine that may answer anything, and `typeset_route` on top of it against a
  compiler, a Writer and a reviewer that may answer anything.
* **Macro expansion** (`TexGroups.dfy`, `Macro*.dfy`). The group reader, the
  parity-based balance check, substitution, depth-limited expansion and the verdict on a
  recorded replacement, which the record's normalisation handler uses.
* **Intake interviews** (`Intake*.dfy`). Answers, parsing, audit, repair and application of
  a model round on the decision log, the budget that ends the interview, and the store
  under arbitrary interleavings of commands.
* **Three protocols**: the profile lock with reclaim (`ProfileLock.dfy`), the tenant
  registry (`TenantRegistry.dfy`) and the crash-safe install (`CrashSafeInstall.dfy`).

Hashing, serialisation and JSON parsing are functions without assumed properties; a lemma
that needs a collision-free hash says so. Compilers, models and clocks are oracles.
`dafny verify dfyconfig.toml` checks everything.

## Where the code does less than one might expect

* Record 1.1 does not keep origins unique. `RecordReuse.V11OriginsCanRepeat` is a run in
  which a Writer call is spent by a model revision and, after the parked branch is
  resumed, sealed as well; `RecordTheorems.SealKeepsOriginsUniqueIff` says exactly when
  sealing keeps them unique.
* A review that refuses a correction and later in the same answer calls it equivalent
  leaves the formula final. If the next compile cannot run, the layer delivers a body no
  compile has seen: `TypesetRoute.RouteTypesetter.TypesetRoute` says for each formula
  exactly when, and `TypesetStale.StaleIsDelivered` has a route for every such review. The
  runtime adapter rejects repeated identifiers; `typeset_route` itself does not.
* An optional argument need not have balanced braces; they only have to cancel out
  (`TexGroups.BracketGroupsCancel`). The balance check on the replacement notices it only
  where the template uses the argument too shallow (`MacroBalance.CheckRejectsIff`):
  wrapped in one more group, it passes (`MacroBalance.UnbalancedArgumentPasses`).
* The audit-rejection budget bounds active sessions only until the first finalize
  (`IntakeCommands.SpentAndActiveIff`, `IntakeOverrun.SpentAndActiveIsReached`).
* A removal that fails silently in the clean-up can bring a torn tree back
  (`CrashSafeInstall.TornComesBack`). `CrashSafeInstall.CompleteIff` and
  `CrashSafeInstall.KilledIsSafeIff` say when that cannot happen; the theorem on repeated
  runs has removals succeed.
* The reasons `human_pause`, `human_resume` and `human_kill` name no status: with each of
  them a branch can move wherever its transitions allow (`RecordReasons.TargetsIff`), so a
  pause can kill (`RecordReasons.PauseCanKill`).

## Model

| member | source | states |
|---|---|---|
| `RecordTheorems.TranscriptsAreSlotted` | src/derivation_agent_record/replay.py:861-922 | In every accepted log, element i of each branch's transcript is a known step with slot i+1, no step occurs twice, and the inherited list is a prefix. |
| `RecordTheorems.ForksStayExact` | src/derivation_agent_record/replay.py:544-636 | The inherited list of a child branch stays the exact prefix of its parent's current transcript, cut at the anchor: with it after `after`, without it after `replace`. |
| `RecordTheorems.StepsAreHome` | src/derivation_agent_record/replay.py:949-954 | Every step is found in its own branch's transcript at the index its slot names, so the `.index` of the evidence validator never raises. |
| `RecordTheorems.LineagesEndAtRoots` | src/derivation_agent_record/replay.py:1182-1191 | Parent links never cycle: every ancestry is a path of distinct known branches that ends at a root. |
| `RecordTheorems.SettledFactsStay` | src/derivation_agent_record/replay.py:349-364 | Any accepted extension of a log only grows its ledger: killed branches, completed verdicts and closed calls never change again. |
| `RecordTheorems.CandidatesAreFrozen` | src/derivation_agent_record/replay.py:1020-1074 | A candidate stays a prefix of its branch even after the branch reopens and grows, its hash can be recomputed from the final steps, its check list equals (v1) or contains (1.1) the required checks, and a status that left `provisional` is final. |
| `RecordTheorems.FinalChecksAskOnlyForTerminalCalls` | src/derivation_agent_record/replay.py:1172-1180 | On accepted logs the final checks hold exactly when every call is terminal: their selection clauses can never fire. |
| `RecordTheorems.JudgementRecheckIsRedundant` | src/derivation_agent_record/replay.py:1100-1111 | The eligibility re-check when a judgement completes never changes the outcome. |
| `RecordVerdicts.StatusMeans` | src/derivation_agent_record/replay.py:1028-1038 | Each of the five candidate statuses holds if and only if the verdicts of the frozen checks are the ones it stands for: not all completed, a hard defect (v1), an instrument failure, an objection or hard defect (1.1), none of these. |
| `RecordVerdicts.JudgementRequestIff` | src/derivation_agent_record/replay.py:1076-1098 | A judgement may be requested if and only if its identifier is new, the candidate is known and cited by its hash, the requester is the actor, all its required checks are completed, no instrument failed, and in v1 none found a hard defect. |
| `RecordVerdicts.JudgementCompletionIff` | src/derivation_agent_record/replay.py:1100-1135 | A judgement may be completed if and only if it is open, its own judge call is in the state the verdict needs, and the same holds of the checks. |
| `RecordVerdicts.SelectionIff` | src/derivation_agent_record/replay.py:1137-1170 | A selection is accepted if and only if it is the first, the judgement it cites passed this very candidate, the actor is entitled, and the candidate may be judged and in 1.1 has neither hard defect nor objection. |
| `RecordVerdicts.JudgedAreClean` | src/derivation_agent_record/replay.py:1076-1135 | In every accepted log, whatever came later: every required check of a judged candidate is completed, none by an instrument failure, and in v1 none with a hard defect. |
| `RecordVerdicts.SelectedAreClean` | src/derivation_agent_record/replay.py:1137-1180 | In every accepted log a selected candidate passed its judgement and every required check ended `ok`, in v1 also with an objection. |
| `RecordVerdicts.FinalChecksIff` | src/derivation_agent_record/replay.py:1172-1180 | The final checks hold of a ledger if and only if there is a run, no call is in flight, and every selection is of a candidate that may be selected and passed its judgement. |
| `RecordVerdicts.DeclaredMeans` | src/derivation_agent_record/replay.py:1020-1064 | A declaration freezes the whole transcript of a completed branch, each required check whose target lies on it exactly once, and in 1.1 exactly those of them with an objection or a hard defect. |
| `RecordTheorems.BudgetsHold` | src/derivation_agent_record/replay.py:424-495 | The active-branch and model-call limits of the run hold after every accepted event, revisions included: no set of active branches is larger than the limit. |
| `RecordTheorems.HistoriesAreLegal` | src/derivation_agent_record/model.py:42-48 | Every status history is an unbroken dated path of allowed transitions from active or paused to the current status. |
| `RecordReadings.TransitionsIff` | src/derivation_agent_record/model.py:42-48 | The legal moves without the table: nothing leaves `killed`, nothing moves to where it is, a branch completes only while active, and a completed one is only reopened or killed. |
| `RecordReadings.BranchesMoveLegally` | src/derivation_agent_record/replay.py:641-720 | In every accepted log each step of a branch's history is dated later than the one before and is such a move. |
| `RecordReadings.ActiveLimitIff` | src/derivation_agent_record/replay.py:637-639 | The limit of active branches is kept if and only if no set of active branches is larger than it. |
| `RecordTheorems.EffectiveHashStays` | src/derivation_agent_record/replay.py:137-163 | A model step's hash is its Writer call's effective hash when the step is recorded and in every later state. |
| `RecordReadings.NormalizationCounts` | src/derivation_agent_record/replay.py:137-163 | A normalisation makes the hash of the recorded content the effective one, which differs from the raw one it was until then. |
| `RecordReadings.StepsCarryTheirCallsHash` | src/derivation_agent_record/replay.py:137-143 | In every accepted log a model step carries the normalised hash of its finished Writer call, or else the hash of its output text, and it is the hash of the step's content. |
| `RecordReadings.ControlIsTheRawChunk` | src/derivation_agent_record/replay.py:113-116 | A Writer's decision is read from the one raw chunk of its call; without one, or with several, there is none. |
| `RecordReadings.ChunksAreRead` | src/derivation_agent_record/replay.py:787-799 | The body of a call is the text of its body chunks, in order and nothing else. |
| `RecordReadings.StartedCallsMean` | src/derivation_agent_record/replay.py:722-754 | A call may be started if and only if its role's actor starts it, with the model the run names for the role, on a target open to the role, with none in flight on it and within the budget. |
| `RecordReadings.V1EventsAreV1` | src/derivation_agent_record/replay.py:387-389 | No record of version 1 holds any of the six events that Record 1.1 added. |
| `RecordReadings.SharedEventsNeedNoVersion` | src/derivation_agent_record/replay.py:366-415 | The envelope of every other event is accepted if and only if version, sequence, identity, run and hash chain are right, in both versions. |
| `RecordReadings.SealsCoverTheRest` | src/derivation_agent_record/replay.py:413-415 | With an injective event hash two events have the same seal if and only if they differ at most in their own hash. |
| `RecordReadings.QuotesIff` | src/derivation_agent_record/replay.py:949-980 | A quotation is found if and only if the text is something, the quotation, and something. |
| `RecordReadings.FieldsCanBeQuoted` | src/derivation_agent_record/model.py:80-95 | Whatever can be quoted from a field of an ancestor step can be quoted from its evidence text; in v1 that text is the canonical JSON. |
| `RecordTheorems.V1OriginsAreUnique` | src/derivation_agent_record/replay.py:894-905 | In Record v1 no two steps share a model call, which follows from slot discipline alone. |
| `RecordTheorems.SharedOriginsPairRevisionWithSeal` | src/derivation_agent_record/replay.py:257-288 | In either version, two steps that share a call are one revision step and one sealed step. |
| `RecordTheorems.SealKeepsOriginsUniqueIff` | src/derivation_agent_record/replay.py:861-922 | Sealing keeps origins unique if and only if no model revision has already spent the cited call. |
| `RecordTheorems.OnlySealsShareOrigins` | src/derivation_agent_record/replay.py:257-268 | No event but a seal can make two steps share a call. |
| `RecordReuse.V11OriginsCanRepeat` | src/derivation_agent_record/replay.py:861-922 | A concrete accepted Record 1.1 log in which one Writer call is the origin of two steps. |
| `RecordReasons.TargetsIff` | src/derivation_agent_record/replay.py:653-712 | Where a status change is allowed, the same event with another target is allowed if and only if the branch may move there and the reason names that status or is `human_pause`, `human_resume` or `human_kill`. |
| `RecordReasons.PauseCanKill` | src/derivation_agent_record/replay.py:659-669 | A complete accepted log in which the reason `human_pause`, citing a pause, kills the branch. |
| `RecordTheorems.HeadFixesLog` | src/derivation_agent_record/replay.py:366-415 | With a collision-free event hash, the head hash fixes the whole log: no event can be altered, dropped or reordered. |
| `RecordProvenance.ClassOnlyRises` | src/derivation_agent_record/replay.py:1193-1225 | A branch's content class never falls, and stays while its transcript does. |
| `RecordProvenance.OnlySealingExtends` | src/derivation_agent_record/replay.py:906-922 | No event other than sealing a step on a branch changes that existing branch's transcript. |
| `RecordProvenance.ModelOnlyMeansUntouched` | src/derivation_agent_record/replay.py:1193-1225 | A branch is model-only if and only if it holds model steps only and neither it nor any ancestor was created by a human. |
| `RecordRuns.FoldOk` | src/derivation_agent_record/replay.py:349-364 | The invariant of 16 clauses holds after every accepted prefix of every log. |
| `RecordRuns.EventGood` | src/derivation_agent_record/replay.py:349-364 | Each of the 22 handlers keeps the invariant and only grows what is settled. |
| `RecordNormalization.RepairsShowTheSame` | src/derivation_agent_record/replay.py:213-222 | However many character repairs a normalisation records, the text without backslashes and damaged control characters is the Writer's. |
| `RecordNormalization.RepairsOnlyDelete` | src/derivation_agent_record/replay.py:211-226 | Repairs of every kind but a macro expansion, removed escape sequences included, add nothing but backslashes: the rest of each field is the Writer's, in order, with characters deleted. |
| `RecordNormalization.QuotationsAreNotExpanded` | src/derivation_agent_record/replay.py:188-188 | No macro expansion ever touches the quotation field. |
| `RecordReadings.EditIff` | src/derivation_agent_record/replay.py:183-225 | An edit is accepted if and only if it changes something, its original stands where it says, and its kind allows it, each kind being said by the characters before, in and after the replaced text. |
| `RecordReadings.EditsReplace` | src/derivation_agent_record/replay.py:183-226 | An accepted edit puts its replacement where the original stood in its own field, and leaves every other field as it was. |
| `RecordReadings.AnsiEscapeIff` | src/derivation_agent_record/replay.py:46-46 | An escape sequence is ESC, an opening bracket, parameters, intermediates and one final character, each in its range. |
| `RecordNormalization.ExpansionsAreCited` | src/derivation_agent_record/replay.py:198-212 | An accepted expansion edit is one of the two results its cited definition yields, up to one final space. |
| `RecordEngine.ReplayEngine.constructor` | src/derivation_agent_record/replay.py:85-107 | A fresh engine holds the empty ledger. |
| `RecordEngine.ReplayEngine.Replay` | src/derivation_agent_record/replay.py:349-364 | Accepts exactly the non-empty logs whose fold succeeds and passes the final checks, and ends in the fold's ledger. |
| `RecordEngine.ReplayEngine.Dispatch` | src/derivation_agent_record/replay.py:349-364 | Accepts exactly when the event's guard holds, and then produces exactly its effect. |
| `RecordEngine.ReplayEngine.ValidateEnvelope` | src/derivation_agent_record/replay.py:366-415 | Version, sequence, identity, run and hash chain, clause by clause. |
| `RecordEngine.ReplayEngine.OnHumanActionRecorded` | src/derivation_agent_record/replay.py:497-542 | Guard and whole new state. |
| `RecordEngine.ReplayEngine.OnBranchCreated` | src/derivation_agent_record/replay.py:544-639 | Guard, exact-prefix inheritance, active-branch limit and whole new state. |
| `RecordEngine.ReplayEngine.ChildBranch` | src/derivation_agent_record/replay.py:560-625 | The guard of a fork, for each way a branch can come about. |
| `RecordEngine.ReplayEngine.OnBranchStatusChanged` | src/derivation_agent_record/replay.py:641-720 | Guard and whole new state; the nine reasons are checked by CheckStatusReason. |
| `RecordEngine.ReplayEngine.CheckStatusReason` | src/derivation_agent_record/replay.py:653-712 | The nine reasons for a status change, each with its actor and citations. |
| `RecordEngine.ReplayEngine.OnModelCallStarted` | src/derivation_agent_record/replay.py:722-765 | Guard (target, in-flight exclusion, call budget) and whole new state. |
| `RecordEngine.ReplayEngine.OnModelCallChunk` | src/derivation_agent_record/replay.py:776-785 | Guard and whole new state. |
| `RecordEngine.ReplayEngine.OnModelCallFinished` | src/derivation_agent_record/replay.py:787-811 | Guard and whole new state. |
| `RecordEngine.ReplayEngine.OnModelCallFailed` | src/derivation_agent_record/replay.py:813-834 | Guard and whole new state. |
| `RecordEngine.ReplayEngine.OnModelCallAborted` | src/derivation_agent_record/replay.py:836-859 | Guard and whole new state. |
| `RecordEngine.ReplayEngine.OnStepRevisionSealed` | src/derivation_agent_record/replay.py:861-922 | Guard (slot, revision, replacement, origin) and whole new state. |
| `RecordEngine.ReplayEngine.OnModelRevisionApplied` | src/derivation_agent_record/replay.py:241-288 | Guard and whole new state: parent parked, new branch with the prefix and the replacement. |
| `RecordEngine.ReplayEngine.OnModelRevisionDeferred` | src/derivation_agent_record/replay.py:290-303 | Guard and whole new state. |
| `RecordEngine.ReplayEngine.OnSourceEvidenceRegistered` | src/derivation_agent_record/replay.py:305-316 | Guard and whole new state. |
| `RecordEngine.ReplayEngine.OnCheckRetryAuthorized` | src/derivation_agent_record/replay.py:318-330 | Guard and whole new state: the failed check is no longer required. |
| `RecordEngine.ReplayEngine.OnWriterRouteCompletion` | src/derivation_agent_record/replay.py:332-347 | Guard and whole new state. |
| `RecordEngine.ReplayEngine.OnWriterOutputNormalized` | src/derivation_agent_record/replay.py:146-239 | Guard and whole new state; the recorded edits must reproduce the recorded content. |
| `RecordEngine.ReplayEngine.ReapplyEdits` | src/derivation_agent_record/replay.py:180-230 | The in-place loop over the edits computes the left fold of the edit rules, or fails where it fails. |
| `RecordEngine.ReplayEngine.OnCheckRequested` | src/derivation_agent_record/replay.py:924-947 | Guard (no required check on a candidate's step) and whole new state. |
| `RecordEngine.ReplayEngine.ValidateEvidence` | src/derivation_agent_record/replay.py:949-980 | True exactly when every cited quotation is found where it must be; the checked step is always found in its branch. |
| `RecordEngine.ReplayEngine.OnCheckCompleted` | src/derivation_agent_record/replay.py:982-1018 | Guard and whole new state. |
| `RecordEngine.ReplayEngine.OnCandidateDeclared` | src/derivation_agent_record/replay.py:1040-1074 | Guard and whole new state. |
| `RecordEngine.ReplayEngine.OnJudgementRequested` | src/derivation_agent_record/replay.py:1076-1098 | Guard and whole new state. |
| `RecordEngine.ReplayEngine.OnJudgementCompleted` | src/derivation_agent_record/replay.py:1100-1135 | Guard and whole new state. |
| `RecordEngine.ReplayEngine.OnSelectionRecorded` | src/derivation_agent_record/replay.py:1137-1170 | Guard and whole new state. |
| `RecordEngine.ReplayEngine.RunFinalChecks` | src/derivation_agent_record/replay.py:1172-1180 | The final checks, as a predicate on the ledger. |
| `RecordEngine.ReplayEngine.BranchLineage` | src/derivation_agent_record/replay.py:1182-1191 | The reversed ancestry; the cycle check inside the loop never fires. |
| `RecordReadings.LineagesAreRootFirst` | src/derivation_agent_record/replay.py:1182-1191 | A lineage is the ancestry in reverse, element by element. |
| `RecordReadings.OperationalMeans` | src/derivation_agent_record/replay.py:1193-1225 | An action is operational for a branch if and only if it pauses, resumes or kills the branch or an ancestor of it. |
| `RecordEngine.ReplayEngine.BranchProvenance` | src/derivation_agent_record/replay.py:1193-1225 | The loops compute exactly the steering, edit and operational actions of the branch and its lineage, its class, and whether a human touched it. |
| `FormulaDocument.Document` | src/derivation_app/formula_compiler.py:81-99 | The loop builds exactly the specified lines and regions; `FormulaDocument.RegionsHoldTheirLines` says what they are. |
| `FormulaDocument.Fragment` | src/derivation_app/formula_compiler.py:66-78 | The two strip loops compute the lines of a fragment: joined with line feeds they are one stretch of the value with CR LF and CR turned into LF, only strippable characters are cut off around it and all of them, no line holds a line end, and there is no line exactly when nothing is left. |
| `FormulaDocument.NormalizedMeans` | src/derivation_app/formula_compiler.py:71-71 | A CR LF and a lone CR each become one LF, text without CR stays as it is, and the pieces of a text keep their order. |
| `FormulaDocument.StrippableIff` | src/derivation_app/formula_compiler.py:60-63 | The strippable characters by code point. |
| `FormulaDocument.RegionsHoldTheirLines` | src/derivation_app/formula_compiler.py:81-99 | The region of formula i is the two opening lines, the lines of the formula in order, and the two closing ones. |
| `FormulaDocument.RegionsAreExact` | src/derivation_app/formula_compiler.py:81-99 | Region i holds exactly fragment i's block, and regions are ordered and disjoint. |
| `FormulaDocument.LineMapIsTheEngines` | src/derivation_app/formula_compiler.py:66-99 | Whatever bytes the fragments hold, the engine counts the document's lines as the line map does. |
| `FormulaDocument.Locate` | src/derivation_app/formula_compiler.py:110-142 | The loop with its set of seen fragments computes the specified list. |
| `FormulaDocument.LocatedIsExact` | src/derivation_app/formula_compiler.py:110-142 | The halting error comes first if and only if the engine stopped at a line of some region; every entry repeats a line of the log and lies in its own region; each fragment is named once; no warning on a line of a region is lost; infrastructure failures name nothing. |
| `FormulaCompile.CompileFragments` | src/derivation_app/formula_compiler.py:206-405 | Accepted and failed partition the fragments; the last document compiled is exactly the accepted ones and succeeded; nothing a document named is accepted; unsafe fragments are never compiled; every failure is backed by a compile; at most 1 + f(2 + ceil(log2 n)) compiles; with a faithful engine the run never stops and the compiled failures are exactly the bad fragments. |
| `FormulaCompile.FragmentCompiler.Bisect` | src/derivation_app/formula_compiler.py:320-351 | At most ceil(log2 n) + 1 compiles; with a faithful engine a culprit is returned if and only if a candidate is bad, and it is bad. |
| `FormulaCompile.FragmentCompiler.Attribute` | src/derivation_app/formula_compiler.py:379-396 | One failed document drops everything its log located plus at most one bisected culprit; it bisects exactly if nothing was located or it halted at an error that was not, and with a faithful engine finds a culprit exactly if one is left; it never gives up then and drops only bad fragments. |
| `FormulaCompile.FragmentCompiler.Sweep` | src/derivation_app/formula_compiler.py:368-398 | The compile-and-drop loop, with the cost bound and what it drops. |
| `FormulaCompile.FragmentCompiler.Screen` | src/derivation_app/formula_compiler.py:353-366 | Splits the fragments into unsafe failures and the rest. |
| `FormulaCompile.LogCeilIsExact` | src/derivation_app/formula_compiler.py:320-351 | The bound's logarithm is the least k with n <= 2^k. |
| `FormulaCompile.StoppedMeans` | src/derivation_app/formula_compiler.py:320-351 | A run stops if and only if its last compile failed for a reason that is no fault of the fragments, or a bisection of an unlocated failure ended in a compile that succeeded. |
| `TypesetRoute.RouteTypesetter.TypesetRoute` | src/derivation_app/route_typeset.py:1115-1315 | A body that no compile of the attempt accepted is delivered for a formula if and only if the compiler then failed and the review after its last verdict had refused that formula's body and accepted it in its last word; otherwise the recorded text or an accepted one is. A compiled layer is exactly what its last compile accepted; the whole attempt is a trace of at most four compiles, each followed by at most one repair; the budget is respected. |
| `TypesetRoute.RouteTypesetter.Rounds` | src/derivation_app/route_typeset.py:1168-1286 | At most four compile rounds; they end with a compiler failure, or with nothing final that the last compile did not accept. |
| `TypesetRoute.RouteTypesetter.Turn` | src/derivation_app/route_typeset.py:1168-1286 | One round: what goes on to another has compiled, repaired and accepted something, and what stops has a stated reason. |
| `TypesetRoute.RouteTypesetter.CompileRound` | src/derivation_app/route_typeset.py:1168-1254 | One whole-route compile and its verdicts; afterwards final means accepted by this compile. |
| `TypesetRoute.RouteTypesetter.RepairRound` | src/derivation_app/route_typeset.py:1479-1617 | The loops compute the specified repair round; with a reliable journal it stops exactly when there is no room, no Writer or no answer. `TypesetRepairs.OneCorrection` and `TypesetRepairs.RoundMeans` say what the round does to each formula. |
| `TypesetRoute.RepairMeans` | src/derivation_app/route_typeset.py:1479-1617 | Formula by formula: only targets change, and a target comes out final and typeset if and only if the review was stale on it, with the body that was reviewed; `TypesetRepairs.OneCorrection` says which corrections are taken. |
| `TypesetRepairs.OneCorrection` | src/derivation_app/route_typeset.py:1553-1602 | The only correction for a formula that failed: within the guard it becomes the text, repaired and not final, it counts, and nothing of it goes to review; beyond the guard exactly that body goes to review; and an empty, delimited, recorded or just failed body changes nothing. |
| `TypesetRepairs.RoundMeans` | src/derivation_app/route_typeset.py:1544-1616 | Any number of corrections: exactly the bodies that are neither excluded nor within the guard go to review; without any, the formula has the last body taken, or is as it was; without a review it is refused. |
| `TypesetRepairs.CorrectionsMean` | src/derivation_app/route_typeset.py:1544-1602 | The loop over the corrections: text, number accepted, and what waits for review, said on the list itself. |
| `TypesetRepairs.NoCorrection` | src/derivation_app/route_typeset.py:1544-1556 | A formula that is no target, or that no correction names, stays as it is. |
| `TypesetRepairs.LatestMessagesAre` | src/derivation_app/route_typeset.py:647-662 | The messages that license commands are those of the newest round with errors, in order. |
| `TypesetRepairs.VerdictsMean` | src/derivation_app/route_typeset.py:1212-1247 | What a compile decides for every formula: shown verbatim or refused, not compiled; passed, final as it stands; failed, the recorded text is back, body and message are remembered, and it is up for repair exactly if it is no quotation. |
| `TypesetRepairs.SettledMeans` | src/derivation_app/route_typeset.py:1287-1301 | At the end: an accepted formula stays as it is, any other has its recorded text, and no verdict exactly if the compiler failed before giving one. |
| `TypesetRepairs.AcceptedMeans` | src/derivation_app/route_typeset.py:1212-1222 | A text counts as accepted in an attempt if and only if some round compiled this very text for this very formula and accepted it. |
| `TypesetRoute.RouteTypesetter.ReviewRound` | src/derivation_app/route_typeset.py:1620-1736 | The verdicts in order, silence and unavailability as refusals; with a reliable journal the review is held exactly when there is room, a reviewer and an answer. |
| `TypesetRoute.RulesOneByOne` | src/derivation_app/route_typeset.py:1690-1722 | The loop over all verdicts is, for each formula, the verdicts that name it on its last reviewed body. |
| `TypesetRoute.StaleIff` | src/derivation_app/route_typeset.py:1690-1736 | A review leaves a formula final and typeset with a body no compile has seen if and only if its verdicts first refuse the body and in the last word accept it. |
| `TypesetStale.StaleIsDelivered` | src/derivation_app/route_typeset.py:1288-1297 | For every list of verdicts that is stale on a formula there is a route on which the refused and then accepted body is delivered without any compile having seen it. |
| `TypesetRoute.UniqueReviewsAreNotStale` | src/derivation_app/route_typeset.py:1689-1720 | A reviewer that names each formula once is never stale. |
| `TypesetRoute.RunTypesetCall` | src/derivation_app/route_typeset.py:1739-1789 | A call that starts is journalled whatever becomes of it. |
| `TypesetRoute.TypesetCallBudget.Available` | src/derivation_app/route_typeset.py:734-744 | True exactly while one more call fits the budget. |
| `TypesetGuard.Tokenize` | src/derivation_app/route_typeset.py:429-475 | The one-pass loop with its sizing flag computes the specified profile. |
| `TypesetGuard.LexMeans` | src/derivation_app/route_typeset.py:128-128 | The scanner lexeme by lexeme: a command takes the longest name or else one character, letters and digits stand alone, white space disappears, everything else stands for itself. |
| `TypesetGuard.DanglingIff` | src/derivation_app/route_typeset.py:128-128 | A text is left hanging by its last character if and only if that is a backslash nothing escapes. |
| `TypesetGuard.Subsequence` | src/derivation_app/route_typeset.py:484-495 | The shared-iterator scan computes the greedy subsequence test. |
| `TypesetGuard.SubsequenceIff` | src/derivation_app/route_typeset.py:484-495 | The greedy scan answers exactly whether an order-preserving embedding exists. |
| `TypesetGuard.GuardMeans` | src/derivation_app/route_typeset.py:665-714 | The five verdicts amount to two: token by token the same, or a licensed command on both sides, and the sized delimiters embed in order. The counts decide nothing. |
| `TypesetGuard.CountsAre` | src/derivation_app/route_typeset.py:497-524 | What one more token adds to the counts of identifiers, commands and relations. |
| `TypesetGuard.ClosingIsWithinGuard` | src/derivation_app/route_typeset.py:177-185 | Closing an unbalanced pair is within the guard, whatever the compiler licensed. |
| `TypesetGuard.ShapesAreKept` | src/derivation_app/route_typeset.py:484-495 | A repair with as many sized delimiters has the same ones; without a licence the tokens are the same. |
| `TexGroups.ReadGroup` | src/derivation_agent_record/macro_expansion.py:109-141 | The cursor loop computes the specified group, for braces and brackets. |
| `TexGroups.IsBalanced` | src/derivation_agent_record/macro_expansion.py:312-323 | The parity loop computes the specified nesting. |
| `TexGroups.OddBackslashes` | src/derivation_agent_record/macro_expansion.py:76-82 | The backward loop computes the parity of the backslashes before an index. |
| `TexGroups.GroupsAreBalanced` | src/derivation_agent_record/macro_expansion.py:109-141 | Every brace group that is read is balanced, complete, and the text between its braces. |
| `TexGroups.WrappedIsReadBackIff` | src/derivation_agent_record/macro_expansion.py:109-141 | A text put between braces, anywhere, is read back exactly if and only if it is balanced and does not end in a dangling backslash. |
| `TexGroups.BalancedIff` | src/derivation_agent_record/macro_expansion.py:312-323 | A text is balanced if and only if its unescaped braces cancel out and no prefix closes more than it opens. |
| `TexGroups.BracketGroupsCancel` | src/derivation_agent_record/macro_expansion.py:124-134 | In every bracket group that is read the braces cancel out and no escape is cut; it is balanced if and only if no prefix closes more than it opens. |
| `TexGroups.BracketGroupsNeedNotBalance` | src/derivation_agent_record/macro_expansion.py:124-134 | Such a prefix does occur: a concrete group. |
| `MacroExpansion.ReadArguments` | src/derivation_agent_record/macro_expansion.py:356-379 | The loop reads exactly the specified arguments and end position. |
| `MacroMeaning.ArgumentIs` | src/derivation_agent_record/macro_expansion.py:273-285 | What one argument is: blanks are skipped, a backslash takes the longest name or one character, any other character but a brace stands alone, and a closing brace, a lone backslash or the end of the text is none. |
| `MacroMeaning.BracedArgumentIff` | src/derivation_agent_record/macro_expansion.py:273-285 | A text in braces is read as the argument, without its braces, if and only if it is balanced and complete. |
| `MacroMeaning.UniqueIff` | src/derivation_agent_record/macro_expansion.py:344-353 | A name has a unique definition if and only if some source defines it and all that define it agree on the number of arguments, the default and the words of the template; it is then the first one. |
| `MacroMeaning.KeyIsWords` | src/derivation_agent_record/macro_expansion.py:71-73 | Templates are compared by their words with one space between each two. |
| `MacroMeaning.CitationIs` | src/derivation_agent_record/macro_expansion.py:338-342 | A citation means the first definition of the name on that line in that source. |
| `MacroExpansion.Substitute` | src/derivation_agent_record/macro_expansion.py:288-309 | The loop computes the specified substitution; `MacroMeaning.SubstitutionIsByPieces` says what it is. |
| `MacroMeaning.SubstitutionIsByPieces` | src/derivation_agent_record/macro_expansion.py:288-308 | A template is substituted piece by piece: the parameter of number k gives the k-th argument, a doubled sign one sign, any other character itself, and only a value and what follows one are joined on. |
| `MacroMeaning.TemplatesHavePieces` | src/derivation_agent_record/macro_expansion.py:288-308 | Every template is spelled by such pieces, so its value is fixed by them. |
| `MacroMeaning.SimpleTemplates` | src/derivation_agent_record/macro_expansion.py:288-308 | A parameter alone gives its argument, one beyond the arguments itself, text without a parameter sign itself, a doubled sign one sign. |
| `MacroMeaning.JoinIff` | src/derivation_agent_record/macro_expansion.py:267-270 | Two pieces are put side by side, with a space between them if and only if the left one ends in a backslash with letters, up to one line feed, and a letter follows. |
| `MacroExpansion.JoinKeepsWords` | src/derivation_agent_record/macro_expansion.py:267-270 | Joining neither merges control words nor breaks them. |
| `MacroExpansion.ExpandText` | src/derivation_agent_record/macro_expansion.py:382-426 | The recursive loop terminates for every definition table and computes the specified expansion. |
| `MacroExpansion.PlainIsFixed` | src/derivation_agent_record/macro_expansion.py:382-426 | Text that names no uniquely registered macro outside the chain expands to itself. |
| `MacroExpansion.FewMacrosComplete` | src/derivation_agent_record/macro_expansion.py:388-389 | The depth limit cannot be met with at most as many open macros as levels left. |
| `MacroMeaning.EightLevelsExpand` | src/derivation_agent_record/macro_expansion.py:36-36 | A table with at most eight macros always expands, whatever they are, and nothing expands below the eighth level. |
| `MacroExpansion.VerifyMacroExpansion` | src/derivation_agent_record/macro_expansion.py:429-489 | Accepts exactly the replacements the cited definition yields, balanced and without structural characters, and returns that definition; the parts are pinned by `MacroMeaning`. |
| `MacroMeaning.StructuralIff` | src/derivation_agent_record/macro_expansion.py:49-49 | What a replacement may never hold, by what stands before and after the character. |
| `MacroMeaning.RendersIff` | src/derivation_agent_record/macro_expansion.py:468-489 | A replacement is the expansion, or the expansion and a space if and only if it ends in a control word and a letter follows in the field. |
| `MacroExpansion.OneLevelIsExact` | src/derivation_agent_record/macro_expansion.py:23-26 | Where body and arguments name no other registered macro, the recursive derivation equals one-level substitution, which then decides alone. |
| `MacroExpansion.CitationFixesReplacement` | src/derivation_agent_record/macro_expansion.py:460-485 | What passes for one citation is one of two expansions, up to one final space. |
| `MacroBalance.SubstitutionBalancedIff` | src/derivation_agent_record/macro_expansion.py:288-323 | For every template and every list of values, the balance check on the substitution is a scan of the template that reads the values where they are used. |
| `MacroBalance.ArgumentsCancel` | src/derivation_agent_record/macro_expansion.py:355-379 | Every argument that is read has braces that cancel out, and only an optional one can be unbalanced. |
| `MacroBalance.CheckRejectsIff` | src/derivation_agent_record/macro_expansion.py:288-323 | In a template without an escaped parameter, the substitution passes the balance check if and only if the template is balanced and each use of a value lies in at least as many open groups as the value closes ahead of opening. |
| `MacroBalance.OneLevelBalancedIff` | src/derivation_agent_record/macro_expansion.py:460-471 | The same for a whole recorded one-level expansion, with or without its separating space. |
| `MacroBalance.UnbalancedArgumentPasses` | src/derivation_agent_record/macro_expansion.py:460-471 | A concrete recorded expansion with an unbalanced optional argument that verifies. |
| `IntakeRounds.ApplyAnswers` | src/derivation_app/intake_session_service.py:1186-1257 | The loop computes the specified log and remaining questions, or the refusal; `IntakeRounds.AnswerRefusedIff` says what is recorded. |
| `IntakeRounds.AnswerRefusedIff` | src/derivation_app/intake_session.py:485-523 | An answer to an open decision is refused if and only if the question does not allow it: a choice or a strategy on a text question, both routes with fewer than two options or exactly one selected, an option not offered, several options on a single choice. Otherwise the decision is resolved under the same question with the user's words, strategy and options, or all the options where both routes are taken without a selection. |
| `IntakeMeaning.AnswersGoThroughIff` | src/derivation_app/intake_session_service.py:1186-1257 | A list of answers is accepted if and only if they are to different decisions, each open, and each allowed by its question. |
| `IntakeMeaning.RoundStartsIff` | src/derivation_app/intake_session_service.py:395-470 | A round gets as far as its model if and only if its status and submission fit and every question shown has such an answer: an advancing round needs answers or a message, a candidate takes a message only, and a finalizing round a session that must converge. |
| `IntakeTheorems.AnswersHold` | src/derivation_app/intake_session_service.py:1186-1257 | Accepted answers keep the session invariant and the user sees exactly what is open; when everything shown is answered nothing is open. |
| `IntakeRounds.Deduplicate` | src/derivation_app/app_server_intake_session.py:1211-1244 | The loop with its two seen sets computes the specified list. |
| `IntakeRounds.DedupIsDistinct` | src/derivation_app/app_server_intake_session.py:1211-1244 | No decision and no semantic key is left twice. |
| `IntakeRounds.RepairProposal` | src/derivation_app/intake_session_service.py:1273-1384 | The two loops compute the specified repaired round. |
| `IntakeMeaning.KeptAre` | src/derivation_app/intake_session_service.py:1295-1313 | The repair keeps exactly the reopen requests for decisions that are not open, under their own reason, and gives those without references the round's. |
| `IntakeTheorems.RepairMakesReady` | src/derivation_app/intake_session_service.py:1273-1384 | A repaired sensible round meets every condition of the application: distinct, keyed as recorded, a resolved decision asked only if reopened, every reopen with a question and a reason. |
| `IntakeApply.ApplyProposal` | src/derivation_app/intake_session_service.py:1386-1551 | The loops compute the specified session, or the specified backstop refusal. |
| `IntakeApply.MergeDefaults` | src/derivation_app/intake_session_service.py:122-134 | The loop computes the union of defaults. |
| `IntakeApply.MergedMeans` | src/derivation_app/intake_session_service.py:122-134 | No default ever disappears or moves, and the newest wording stands. |
| `IntakeMeaning.DefaultsStay` | src/derivation_app/intake_session_service.py:122-150 | No accepted round takes back a default of the latest specification, and older specifications stay as they were, superseded. |
| `IntakeMeaning.EarlierDefaultsCanBeCited` | src/derivation_app/app_server_intake_session.py:1504-1570 | A rung of the ladder may cite a default of the latest specification: the citation is kept in what is applied. |
| `IntakeTheorems.RoundsLand` | src/derivation_app/intake_session_service.py:1386-1462 | What every round that goes through makes of the session, whatever the model wrote: each question stands open, put back one revision higher if it was resolved, and nothing else in the log is touched. |
| `IntakeTheorems.RoundsAreCoherent` | src/derivation_app/intake_session_service.py:1386-1462 | When nothing was open before, the open decisions are afterwards exactly the questions the user is shown, whatever the model wrote. |
| `IntakeTheorems.AcceptedIff` | src/derivation_app/intake_session.py:600-723 | After repair a round is accepted, by every backstop and by the session constructor, if and only if its reopens give reasons, its new decisions come under unused keys, its thread is the session's, and what it puts before the user depends only on decisions that are resolved and not asked again. |
| `IntakeTheorems.NobodyAnswersForTheUser` | src/derivation_app/intake_session_service.py:1289-1462 | For any round that goes through: a decision resolved afterwards was resolved just so before; one resolved before is untouched, or retired with its answer kept and put back one revision higher; every history stays contiguous. |
| `IntakeTheorems.RepeatsAreDropped` | src/derivation_app/intake_session_service.py:1326-1338 | A question answered in these very words is asked again only if it was reopened. |
| `IntakeMeaning.AskedIs` | src/derivation_app/intake_session_service.py:1432-1465 | What asking a question writes: a new decision at revision one, the open one with the new question, nothing for a reopened one, and a refusal for a resolved one. |
| `IntakeMeaning.ReopenedIs` | src/derivation_app/intake_session_service.py:1405-1431 | A reopen goes through if and only if the decision is resolved, and puts it back open, one revision higher, under a question of its own and for the reason given. |
| `IntakeTheorems.ParseReopens` | src/derivation_app/app_server_intake_session.py:1336-1394 | The loop keeps exactly the specified reopen requests. |
| `IntakeTheorems.ParsingMakesReopensSensible` | src/derivation_app/app_server_intake_session.py:1336-1394 | Reopens that went through parsing are known, distinct and have their replacement question. |
| `IntakeParse.HandBack` | src/derivation_app/app_server_intake_session.py:1247-1294 | The loop computes the specified split of defaults and questions. |
| `IntakeParse.SettleQuestions` | src/derivation_app/app_server_intake_session.py:1297-1333 | The loop computes the specified defaults, or the contract violation. |
| `IntakeParse.AdvanceNeverSettles` | src/derivation_app/app_server_intake_session.py:1484-1522 | No problem-class default of an advancing round survives; each is back with the user; a round that still asks is no candidate. |
| `IntakeParse.FinalizeNeverAsks` | src/derivation_app/app_server_intake_session.py:1297-1333 | A finalizing round asks and reopens nothing; every question it still had stands as a declared default. |
| `IntakeParse.ParsedSpecIsSensible` | src/derivation_app/app_server_intake_session.py:1504-1570 | The specification read from a round is well formed and next in line. |
| `IntakeParse.ParsedIsSensible` | src/derivation_app/app_server_intake_session.py:1397-1575 | Whatever the model wrote, what is read meets every premise of the application that parsing can see to. |
| `IntakeMeaning.ReadIff` | src/derivation_app/app_server_intake_session.py:1397-1575 | A round is taken as read always while advancing, and finalizing if and only if it is a candidate with a ladder whose leftover questions can all be settled; inherited and declared defaults and the questions asked are all in what is read. |
| `IntakeCommands.HeardIsSensible` | src/derivation_app/intake_session_service.py:895-971 | Parsing and the audit together keep the premises: the specification stays well formed, reopens stay known, distinct and answerable, and a candidate asks nothing. |
| `IntakeCommands.RoundsSucceedIff` | src/derivation_app/intake_session_service.py:383-510 | The whole pipeline, from the answers through parsing, audit, repair and application to the constructor: once the answers are accepted and the round is read, a command succeeds if and only if the model gave its reopens reasons, used unused keys, stayed on the thread and asked nothing that depends on what is open. |
| `IntakeCommands.FinalizeNeverSendsBack` | src/derivation_app/intake_session_service.py:512-662 | Neither the model nor the audit can send the user back to answering once they finalize: the round is never short of a candidate, the audit never refused, and what is accepted has nothing left to ask. |
| `IntakeCommands.GuardsDecide` | src/derivation_app/intake_session_service.py:664-893 | Confirming, cancelling and replacing the thread succeed exactly when their guards do. |
| `IntakeMeaning.ConfirmMeans` | src/derivation_app/intake_session_service.py:664-735 | Confirming succeeds if and only if the session is a candidate with a ladder; the candidate is then superseded by its own text, confirmed under the next version, no thread stays active, and decisions and budget stay. |
| `IntakeMeaning.CancelMeans` | src/derivation_app/intake_session_service.py:770-810 | Cancelling succeeds if and only if the session is not finished; it clears what is shown, closes the active threads, and keeps everything else. |
| `IntakeMeaning.ReplaceMeans` | src/derivation_app/intake_session_service.py:812-893 | Replacing the thread supersedes the active one by a new generation and leaves everything else. |
| `IntakeMeaning.ThreadsAfterMeans` | src/derivation_app/intake_session_service.py:1477-1504 | A round opens the first thread of a session or runs on its active one; in every other case it is refused. |
| `IntakeCommands.CommandsKeepSound` | src/derivation_app/intake_session_service.py:383-893 | Every command keeps the session invariant, the open decisions equal to the ones shown, and pending questions to sessions that must converge, whatever the user and the model wrote. |
| `IntakeCommands.OnlyTheUserAnswers` | src/derivation_app/intake_session_service.py:1186-1462 | A decision an accepted command leaves resolved was resolved just so before, or was open and holds what the user said in this command: the same words and strategy, and the options selected, or all that are offered where both routes are taken without a selection; no past revision or answer is lost or altered. |
| `IntakeCommands.CommandsKeepBudget` | src/derivation_app/intake_session_service.py:895-1010 | Active means fewer answered rounds than the budget, and until the first finalize a session that can be advanced has audit rejections to spare; every command keeps this. |
| `IntakeMeaning.RoundCosts` | src/derivation_app/intake_session_service.py:895-1010 | An advancing round counts as the next answered round; a candidate that the audit refuses costs one rejection; the interview must converge exactly if that was the last one, or if there is no candidate and the rounds are spent. |
| `IntakeMeaning.FinalizeCosts` | src/derivation_app/intake_session_service.py:590-605 | A finalizing round costs nothing and marks the session as ended by the user. |
| `IntakeMeaning.AuditMeans` | src/derivation_app/intake_session_service.py:895-971 | An audit that passes only adds declared defaults, while advancing the agent's own; one that refuses adds its questions behind the round's, makes the specification a draft again and spends one rejection, the last one ending the interview. |
| `IntakeCommands.ActiveRoundsRunOut` | src/derivation_app/intake_session_service.py:991-993 | The round that reaches the budget does not leave the session active. |
| `IntakeCommands.SpentAndActiveIff` | src/derivation_app/intake_session_service.py:951-1005 | An accepted round leaves the session active with its audit rejections spent if and only if they were spent before, the round as read is no candidate, and it is not the last of the round budget. |
| `IntakeOverrun.SpentAndActiveIsReached` | src/derivation_app/intake_session_service.py:565-585 | A run of the store that ends there: create, a rejected opening round, finalize, and one correction. |
| `IntakeStore.SqlIntakeStore.Commit` | src/derivation_app/intake_session.py:1206-1281 | The transaction: receipt first, then the revision check, then row, events, receipt and spent submissions. |
| `IntakeStore.SqlIntakeStore.Create` | src/derivation_app/intake_session.py:1112-1155 | The transaction: revision zero, an unused session identifier and an unused creation key, or nothing changes. |
| `IntakeStore.SqlIntakeStore.ReplayCreation` | src/derivation_app/intake_session.py:1157-1178 | The session a creation key made, as it now stands, a conflict, or nothing. |
| `IntakeStore.SqlIntakeStore.Replay` | src/derivation_app/intake_session.py:1283-1300 | The receipt's result, a conflict, or nothing. |
| `IntakeStore.SqlIntakeStore.HoldSubmission` | src/derivation_app/intake_session.py:1322-1345 | One held submission per session, the newest. |
| `IntakeStore.SqlIntakeStore.FailSubmission` | src/derivation_app/intake_session.py:1373-1398 | Only the submission with this key is marked. |
| `IntakeStore.SqlIntakeStore.ReleaseSubmission` | src/derivation_app/intake_session.py:1400-1413 | Only the submission with this key is dropped. |
| `IntakeProtocol.NoUpdateIsLost` | src/derivation_app/intake_session.py:1206-1281 | Under every interleaving each revision was computed by one command from the whole of the one before, exactly one key owns it, and the budget held throughout. |
| `IntakeProtocol.CommitsFromTheCurrentRow` | src/derivation_app/intake_session_service.py:383-510 | When a commit takes effect, the row in the store is the very row its command computed from. |
| `IntakeProtocol.RepeatedKeysChangeNothing` | src/derivation_app/intake_session.py:1283-1300 | A key committed at one step of a run and used again at any later one returns the first result for the same hash, is refused for another, and changes nothing either way. |
| `IntakeProtocol.ReceiptsStay` | src/derivation_app/intake_session.py:1206-1281 | A key keeps its receipt through the rest of every run. |
| `IntakeProtocol.OneSessionPerCreationKey` | src/derivation_app/intake_session.py:1157-1178 | From its creation on, a creation key leads to the one session it made, or is refused for another request. |
| `IntakeProtocol.HeldSubmissionsAreKeyed` | src/derivation_app/intake_session.py:1373-1413 | A held submission stays as it is through every stretch of a run without a newer one, a commit past its revision, or a failure or release of its own key. |
| `IntakeMeaning.SubmissionsAre` | src/derivation_app/intake_session_service.py:1164-1184 | A command keeps its submission under its own key and the revision it was typed at; a failure notes its reason on it, and its release drops it. |
| `IntakeProtocol.RunsKeepSound` | src/derivation_app/intake_session.py:600-723 | Every session any interleaving stores satisfies its invariant, shows exactly its open decisions and keeps its budget, whatever the users and the models wrote. |
| `IntakeMeaning.BudgetsHoldInRuns` | src/derivation_app/intake_session.py:1206-1281 | In every run an active session has answered fewer rounds than its budget, and until the user has finalized once a session that can still be advanced has rejections to spare. |
| `IntakeMeaning.RowsAreCoherent` | src/derivation_app/intake_session.py:600-723 | In every run the open decisions of an unfinished session are exactly the questions it shows, a candidate shows none, and versions, generations and revisions count up from one, all but the last superseded. |
| `IntakeMeaning.RevisionsAreSound` | src/derivation_app/intake_session.py:420-485 | In every run each revision of each decision is filed under its own question, supersedes the one before it, is answered exactly as its status says and with offered options only, and was reopened only for a reason that says something. |
| `IntakeProtocol.EveryAnswerIsTheUsers` | src/derivation_app/intake_session_service.py:1186-1257 | In every run, every resolved decision was open once and holds the words, the strategy and the options of the user's own answer to that question. |
| `IntakeProtocol.AnswersAreNeverLost` | src/derivation_app/intake_session_service.py:1289-1462 | In every run, a revision and its answer stay in the history of their decision in all later rows. |
| `IntakeProtocol.ConvergenceEndsOnlyByTheUser` | src/derivation_app/intake_session_service.py:420-429 | In every run a session that must converge keeps its pending questions until the row that a finalize or a cancel made. |
| `IntakeProtocol.TerminalIsFinal` | src/derivation_app/intake_session_service.py:430-434 | In no run does a confirmed or cancelled session get another revision. |
| `ProfileLock.AtMostOneHolder` | src/derivation_app/product_profile.py:718-739 | However processes crash, acquire, reclaim and release, at most one lock object holds the profile; its process is alive and its inode is the one the path names. |
| `ProfileLock.NobodyUnlinksALiveOwner` | src/derivation_app/product_profile.py:741-780 | No step of another lock object moves the path away from a live owner's file. |
| `ProfileLock.ReclaimRemovesOnlyTheDead` | src/derivation_app/product_profile.py:741-780 | A reclaimer unlinks only the file it examined, and that file has no live owner. |
| `ProfileLock.ReleaseNeverFindsAStranger` | src/derivation_app/product_profile.py:798-808 | A release always finds its own file at the path. |
| `ProfileLock.StepKeeps` | src/derivation_app/product_profile.py:700-815 | Every system call keeps the invariant of owners, flocks and reclaimers. |
| `ProfileLock.DeadOwnersAreReclaimed` | src/derivation_app/product_profile.py:741-780 | A reclaimer that is alone with a dead holder's file gets through every step and frees the path. |
| `ProfileLock.FreePathIsAcquired` | src/derivation_app/product_profile.py:718-739 | A free path is acquired with any unused inode: the lock then holds a file at the path that names its own process. |
| `ProfileLock.FailedWriteFreesThePath` | src/derivation_app/product_profile.py:731-736 | A write that fails leaves the path free and the lock without it. |
| `ProfileLock.ItsOwnerReleasesIt` | src/derivation_app/product_profile.py:787-808 | A lock can be released by exactly the one it belongs to, and the release frees the path and leaves every other lock alone. |
| `ProfileLock.StrangersAreNotReleased` | src/derivation_app/product_profile.py:798-808 | A release that finds another file at the path changes nothing. |
| `ProfileLock.OneRunAcquires` | src/derivation_app/product_profile.py:718-739 | From the empty system a run in which a process acquires the profile, with its whole end state. |
| `ProfileLock.TransferIsOnce` | src/derivation_app/product_profile.py:782-785 | A lock is transferred if and only if it is held and belongs to no runtime yet. |
| `ProfileLock.ReclaimIsGivenUp` | src/derivation_app/product_profile.py:741-780 | A reclaim is given up and removes nothing whenever another one has the file, the file names nobody, its owner is alive, or the path has come to name another file. |
| `ProfileLock.CrashLeavesTheFile` | src/derivation_app/product_profile.py:741-780 | A crash takes exactly the locks of its own process and leaves their files behind. |
| `TenantRegistry.OneServicePerUser` | src/derivation_app/tenant_runtime.py:100-128 | Whatever the interleaving, a user has at most one service that is being created or is registered. |
| `TenantRegistry.EachUserHasItsLock` | src/derivation_app/tenant_runtime.py:108-109 | In every run two users never have the same lock. |
| `TenantRegistry.LocksExclude` | src/derivation_app/tenant_runtime.py:110-128 | In every run two tasks are never at once past the same lock, from the factory to the end of the close of a service nobody gets. |
| `TenantRegistry.NothingRegisteredOnceClosed` | src/derivation_app/tenant_runtime.py:117-152 | Once closed, every service registered later on was registered while open, and one still starting is never registered, although the per-user locks are cleared. |
| `TenantRegistry.StepKeeps` | src/derivation_app/tenant_runtime.py:100-152 | Every step between two awaits keeps the invariant. |
| `TenantRegistry.EveryoneGetsTheSameService` | src/derivation_app/tenant_runtime.py:100-128 | In every run, whoever is served for a user gets the one service that is registered for that user. |
| `TenantRegistry.RegisteredIsServed` | src/derivation_app/tenant_runtime.py:101-112 | A registered service is handed out at once, to a new caller and to one that waited for the lock, and nothing else changes. |
| `TenantRegistry.ClosedRefuses` | src/derivation_app/tenant_runtime.py:100-136 | Once closed, every call fails, new or waiting, and closing again has nothing to do exactly when no service is left. |
| `TenantRegistry.OneRunServes` | src/derivation_app/tenant_runtime.py:100-128 | From the start a run that serves a caller. |
| `TenantRegistry.LoneCallIsServed` | src/derivation_app/tenant_runtime.py:100-128 | A call that finds the registry open and the user's lock free, and whose service starts, registers it and is served. |
| `TenantRegistry.FailedStartIsDiscarded` | src/derivation_app/tenant_runtime.py:113-119 | A service that fails to start is closed, its call fails, and nothing is registered. |
| `TenantRegistry.LoneClose` | src/derivation_app/tenant_runtime.py:130-152 | A close that is alone leaves registered exactly the services whose close failed, and drops the per-user locks only if there are none. |
| `CrashSafeInstall.Disk.CleanStale` | tools/provision_tectonic.py:406-415 | Whatever was left and whatever removals fail, the root afterwards is the old one, or the first previous directory met if it was missing; with removals that succeed it is the current tree and nothing stale is left. |
| `CrashSafeInstall.Disk.Publish` | tools/provision_tectonic.py:447-458 | The two renames: given four operations it is not killed and installs if and only if the rename works, no directory is in the way and the removal succeeds; killed anywhere, the current tree is the old or the verified new one; killed between them, the old tree waits beside what was there before; a removal that fails raises after the new tree is in place. |
| `CrashSafeInstall.Disk.Install` | tools/provision_tectonic.py:418-463 | From a safe state a run leaves the current tree recoverable even if removals fail; with removals that succeed it ends installed and clean, raised and clean with the old tree, or killed, and given enough operations it installs if and only if the tree is verified and can be published. |
| `CrashSafeInstall.Disk.InstallRepeatedly` | tools/provision_tectonic.py:406-463 | Any number of runs killed anywhere, then a clean-up that completes given enough operations: the root is the first tree or one a verified run published, complete, and nothing else is left; each run given enough operations installs if and only if its tree is verified and can be published. |
| `CrashSafeInstall.CompleteIff` | tools/provision_tectonic.py:411-415 | In whatever order directories are found, a completed clean-up gives back a complete tree if and only if the root is complete, or it is missing and no previous directory is torn. |
| `CrashSafeInstall.CurrentIff` | tools/provision_tectonic.py:411-415 | And the current tree if and only if there is nothing else it could find. |
| `CrashSafeInstall.KilledIsSafeIff` | tools/provision_tectonic.py:447-452 | After a kill between the renames the clean-up is right in every order if and only if nothing torn, or nothing other than that tree, had been left before. |
| `CrashSafeInstall.TornComesBack` | tools/provision_tectonic.py:406-415 | A run of stage, publish, kill and clean-up under failing removals that ends with a torn root. |

## Left out

- RecordEngine.ReplayEngine.OnCandidateDeclared: the sorted lists of required and unresolved checks are compared as multisets, so the order inside an event's list is not modelled.
- RecordEngine.ReplayEngine.Replay: typed events stand for decoded JSON; key sets, identifier and digest patterns, time stamps, blank texts, allowed paths and the specification hashes of `run_created` are not modelled.
- RecordEngine.ReplayEngine.BranchProvenance: the sorted lists of action identifiers are sets.
- RecordNormalization.RepairsShowTheSame: removed escape sequences, which take visible characters with them, are covered by `RecordNormalization.RepairsOnlyDelete`.
- RecordEngine.ReplayEngine.OnWriterOutputNormalized: policy and normaliser version texts are not modelled; a macro edit is judged by `MacroExpansion.Verifies`, its imperative form being `VerifyMacroExpansion`.
- MacroExpansion.VerifyMacroExpansion: the definition table is a parameter, so `parse_definitions` and comment stripping are not modelled; digits after `#` are the ASCII ones, and Python's `isalpha` is a parameter.
- MacroBalance.CheckRejectsIff: a parameter behind a lone backslash, which escapes the first character of its value, is left to `MacroBalance.SubstitutionBalancedIff`.
- FormulaCompile.CompileFragments: evidence files, timings and the parsing of the engine's log into line numbers are not modelled; the static check for unsafe commands is a parameter.
- TypesetRoute.RouteTypesetter.TypesetRoute: the flags, audits and hashes of a layer, the collection of formulas from steps, the cleaning of a correction and the harvest of licensed command names are parameters or left out.
- IntakeApply.ApplyProposal: the constructors that raise are not part of it; `IntakeCommands.Computed` refuses a session its own constructor refuses. The events a round writes are modelled only by kind.
- IntakeRounds.RepairProposal: the trail of repair notes is not modelled, nor is the repair of message references, which only drops unknown ones; references are sets.
- IntakeCommands.RoundsSucceedIff: the corrective turn after a round that breaks its contract is not modelled, only the payload that is read in the end; nor is the upgrade of legacy threads and snapshots.
- IntakeProtocol.NoUpdateIsLost: each SQLite transaction is one atomic step.
- ProfileLock.AtMostOneHolder: modelled as steps rather than as one class, because what is proved is about interleavings; file mode, owner and symbolic-link checks are not modelled.
- TenantRegistry.OneServicePerUser: modelled as steps between awaits rather than as one class; tenant paths and directory checks are not modelled.
- CrashSafeInstall.Disk.Install: fetching and verifying files is one outcome; one installer runs at a time; renames fail only where the target is in the way or the run says so.
- Hypothesis text, HTML rendering, the command line, the release scanner, report projection, credential handling, the model catalogue and the rate-limit cache are not part of this model.
