/**
 Record 1.1 does not keep origins unique: a run in which one Writer call is spent by a
 model revision and, once its parked branch is resumed, sealed as well.
 */
module RecordReuse {
  import opened Wrappers
  import opened RecordModel
  import opened RecordRules
  import opened RecordTheorems
  import MacroExpansion

  const CODEC := Codec(
    (s: string) => |s|,
    (e: Event) => e.seq_,
    (m: seq<(Id, Sha)>) => 0,
    (c: Content) => c.claim,
    (s: string) => None,
    (s: string) => Some(Control(Revise, Some(1), Some("r"))),
    (sources: map<Id, Source>) => MacroExpansion.Table([], (c: char) => false))

  const SPEC := ModelSpec("p", "m", "e")
  const CONFIG := Config(None, None, SPEC, SPEC, SPEC)
  const HYPOTHESIS := Hypothesis("", FromModel, None)

  function Text(claim: string): Content {
    Content(claim, "", "", "", "")
  }

  function At(n: nat, actor: ActorKind, body: Payload): Event
    requires n > 0
  {
    Event(V1_1, 0, n, n, actor, if n == 1 then None else Some(n - 1), n, body)
  }

  /** One writer call on branch 1, without chunks. */
  function WriterCall(slot: nat): Call {
    Call(WriterRole, WriterTarget(1, slot), Started, [], None, None, None)
  }

  const ROOT := Branch(None, RecordModel.Root, None, [], [], HYPOTHESIS, Active, RootBranch, None, [StatusChange(2, None, Active)])
  const FIRST := WriterCall(1).(state := Finished, output := Some(Output("aa", 2, 2)))
  const RAW := WriterCall(2).(chunks := [Chunk(Raw, "x")])
  const SECOND := RAW.(state := Finished, output := Some(Output("bb", 2, 2)))
  const STEP1 := StepRevision(1, 1, 1, None, Text("aa"), 2, ModelOrigin(1))
  const STEP2 := StepRevision(2, 1, 2, Some(1), Text("bb"), 2, ModelOrigin(2))
  const STEP3 := StepRevision(1, 2, 1, None, Text("bb"), 2, ModelOrigin(2))
  const PARKED := ROOT.(steps := [1], status := Parked, history := ROOT.history + [StatusChange(9, Some(Active), Parked)])
  const RESUMED := PARKED.(status := Active, history := PARKED.history + [StatusChange(11, Some(Parked), Active)])
  const REVISED := Branch(Some(1), Replace, Some(1), [], [2], Hypothesis("", FromModel, Some(9)), Active, ModelRevision, None,
                          [StatusChange(9, None, Active)])
  const RESUME := Action(ResumeBranch, OnBranch(1), None, None, 10, 10)

  function Ids(n: nat): set<Id> {
    if n == 0 then {} else Ids(n - 1) + {n}
  }

  /** The ledger after n > 0 events that left these maps. */
  function After(n: nat, actions: map<Id, Action>, branches: map<Id, Branch>, calls: map<Id, Call>, steps: map<Id, StepRevision>)
    : Ledger
  {
    Ledger(Some(V1_1), Some(Run(CONFIG, 0)), Some(0), n, Ids(n), Some(n), actions, branches, calls, steps,
           map[], map[], map[], map[], map[])
  }

  /** An admitted event: the state it meets and the state it leaves. */
  ghost predicate Leads(l: Ledger, e: Event, l': Ledger) {
    Admits(CODEC, l, e) && Next(CODEC, l, e) == l'
  }

  const E1 := At(1, System, RunCreated(CONFIG, 0))
  const E2 := At(2, System, BranchCreated(1, None, RecordModel.Root, None, [], HYPOTHESIS, Active, RootBranch, None))
  const E3 := At(3, Model, ModelCallStarted(1, WriterRole, SPEC, WriterTarget(1, 1)))
  const E4 := At(4, Model, ModelCallFinished(1, Output("aa", 2, 2)))
  const E5 := At(5, Model, StepSealed(1, 1, 1, 1, None, Text("aa"), 2, ModelOrigin(1)))
  const E6 := At(6, Model, ModelCallStarted(2, WriterRole, SPEC, WriterTarget(1, 2)))
  const E7 := At(7, Model, ModelCallChunk(2, Raw, 0, "x", 1))
  const E8 := At(8, Model, ModelCallFinished(2, Output("bb", 2, 2)))
  const E9 := At(9, Model, ModelRevisionApplied(1, 2, 1, 2, 2, "r", Text("bb")))
  const E10 := At(10, Human, HumanActionRecorded(1, ResumeBranch, OnBranch(1), None, None))
  const E11 := At(11, Human, BranchStatusChanged(1, Parked, Active, HumanResume, Some(1), None, None))
  const E12 := At(12, Model, StepSealed(3, 1, 2, 1, None, Text("bb"), 2, ModelOrigin(2)))

  const FIRST_FOUR := [E1, E2, E3, E4]
  const FIRST_EIGHT := FIRST_FOUR + [E5, E6, E7, E8]

  /** The whole log: call 2 revises step 1 (event 9) and is sealed once more (event 12). */
  const LOG := FIRST_EIGHT + [E9, E10, E11, E12]

  const ROOT1 := ROOT.(steps := [1])
  const S1 := After(1, map[], map[], map[], map[])
  const S2 := After(2, map[], map[1 := ROOT], map[], map[])
  const S3 := After(3, map[], map[1 := ROOT], map[1 := WriterCall(1)], map[])
  const S4 := After(4, map[], map[1 := ROOT], map[1 := FIRST], map[])
  const S5 := After(5, map[], map[1 := ROOT1], map[1 := FIRST], map[1 := STEP1])
  const S6 := After(6, map[], map[1 := ROOT1], map[1 := FIRST, 2 := WriterCall(2)], map[1 := STEP1])
  const S7 := After(7, map[], map[1 := ROOT1], map[1 := FIRST, 2 := RAW], map[1 := STEP1])
  const S8 := After(8, map[], map[1 := ROOT1], map[1 := FIRST, 2 := SECOND], map[1 := STEP1])
  const S9 := After(9, map[], map[1 := PARKED, 2 := REVISED], map[1 := FIRST, 2 := SECOND], map[1 := STEP1, 2 := STEP2])
  const S10 := After(10, map[1 := RESUME], S9.branches, S9.calls, S9.steps)
  const S11 := After(11, map[1 := RESUME], map[1 := RESUMED, 2 := REVISED], S9.calls, S9.steps)
  const S12 := After(12, map[1 := RESUME], map[1 := RESUMED.(steps := [1, 3]), 2 := REVISED], S9.calls,
                     map[1 := STEP1, 2 := STEP2, 3 := STEP3])

  lemma Opens(codec: Codec, l: Ledger, e: Event, n: nat)
    requires n > 0 && l.count == n && l.version == Some(V1_1) && l.runId == Some(0) && l.eventIds == Ids(n) && l.head == Some(n)
    requires e.version.V1_1? && e.run == 0 && e.seq_ == n + 1 && e.id == n + 1 && e.prev == Some(n) && e.sha == codec.Seal(e)
    ensures EnvelopeOk(codec, l, e) && Entered(l, e) == l.(eventIds := Ids(n + 1))
  {
    IdsUpTo(n);
  }

  lemma {:induction false} IdsUpTo(n: nat)
    ensures forall k :: k in Ids(n) <==> 0 < k <= n
  {
    if n > 0 {
      IdsUpTo(n - 1);
    }
  }

  /** What admits an event of each kind used here, and where it leads. */
  lemma Handled(codec: Codec, l: Ledger, e: Event, m: Ledger, n: nat)
    requires EnvelopeOk(codec, l, e) && m == Entered(l, e) && n == l.count + 1
    ensures e.body.BranchCreated? && CanCreateBranch(m, e) ==>
              Admits(codec, l, e) && Next(codec, l, e) == AfterCreateBranch(m, e).(count := n, head := Some(e.sha))
    ensures e.body.ModelCallStarted? && CanStartCall(m, e) ==>
              Admits(codec, l, e) && Next(codec, l, e) == AfterStartCall(m, e).(count := n, head := Some(e.sha))
    ensures e.body.ModelCallChunk? && CanChunk(codec, m, e) ==>
              Admits(codec, l, e) && Next(codec, l, e) == AfterChunk(m, e).(count := n, head := Some(e.sha))
    ensures e.body.ModelCallFinished? && CanFinishCall(codec, m, e) ==>
              Admits(codec, l, e)
              && Next(codec, l, e) == AfterClose(m, e.body.call, Finished, e.body.output).(count := n, head := Some(e.sha))
    ensures e.body.StepSealed? && CanSeal(codec, m, e) ==>
              Admits(codec, l, e) && Next(codec, l, e) == AfterSeal(m, e).(count := n, head := Some(e.sha))
    ensures e.body.ModelRevisionApplied? && CanRevise(codec, m, e) ==>
              Admits(codec, l, e) && Next(codec, l, e) == AfterRevise(codec, m, e).(count := n, head := Some(e.sha))
    ensures e.body.HumanActionRecorded? && CanHumanAction(codec, m, e) ==>
              Admits(codec, l, e) && Next(codec, l, e) == AfterHumanAction(m, e).(count := n, head := Some(e.sha))
    ensures e.body.BranchStatusChanged? && CanChangeStatus(codec, m, e) ==>
              Admits(codec, l, e) && Next(codec, l, e) == AfterChangeStatus(m, e).(count := n, head := Some(e.sha))
  {
    hide EnvelopeOk, Entered, SameTranscripts;
    hide CanHumanAction, CanAbortCall, CanSeal, CanRequestCheck, CanCompleteCheck, CanDeclare, CanRequestJudgement,
         CanCompleteJudgement, CanSelect, CanRegisterSource, CanRevise, CanDefer, CanRetryCheck, CanCompleteRoute, CanNormalize;
    hide CanCreateBranch, CanChangeStatus, CanStartCall, CanChunk, CanFinishCall, OpenCall;
    hide AfterRun, AfterHumanAction, AfterCreateBranch, AfterChangeStatus, AfterStartCall, AfterChunk, AfterClose, AfterSeal,
         AfterRequestCheck, AfterCompleteCheck, AfterDeclare, AfterRequestJudgement, AfterCompleteJudgement, AfterSelect,
         AfterRegisterSource, AfterRevise, AfterDefer, AfterRetryCheck, AfterCompleteRoute, AfterNormalize;
  }

  lemma Run1()
    ensures Leads(EMPTY_LEDGER, E1, S1)
  {
  }

  lemma Run2()
    ensures Leads(S1, E2, S2)
  {
    hide Accepts, Effect, EnvelopeOk, Admits, Next, Entered;
    Opens(CODEC, S1, E2, 1);
    Handled(CODEC, S1, E2, Entered(S1, E2), 2);
  }

  lemma Run3()
    ensures Leads(S2, E3, S3)
  {
    hide Accepts, Effect, EnvelopeOk, Admits, Next, Entered;
    Opens(CODEC, S2, E3, 2);
    Handled(CODEC, S2, E3, Entered(S2, E3), 3);
  }

  lemma Run4()
    ensures Leads(S3, E4, S4)
  {
    hide Accepts, Effect, EnvelopeOk, Admits, Next, Entered;
    Opens(CODEC, S3, E4, 3);
    Handled(CODEC, S3, E4, Entered(S3, E4), 4);
  }

  lemma Run5()
    ensures Leads(S4, E5, S5)
  {
    hide Accepts, Effect, EnvelopeOk, Admits, Next, Entered;
    Opens(CODEC, S4, E5, 4);
    Handled(CODEC, S4, E5, Entered(S4, E5), 5);
    assert ROOT1 == Grown(ROOT, 1);
  }

  lemma MayStartSecond(m: Ledger)
    requires m.run == S5.run && m.branches == S5.branches && m.calls == S5.calls
    ensures CanStartCall(m, E6)
    ensures S6.calls == m.calls[2 := WriterCall(2)]
  {
    assert !InFlight(m.calls, WriterRole, WriterTarget(1, 2));
  }

  lemma Run6()
    ensures Leads(S5, E6, S6)
  {
    hide Accepts, Effect, EnvelopeOk, Admits, Next, Entered;
    Opens(CODEC, S5, E6, 5);
    Handled(CODEC, S5, E6, Entered(S5, E6), 6);
    MayStartSecond(Entered(S5, E6));
  }

  lemma Run7()
    ensures Leads(S6, E7, S7)
  {
    hide Accepts, Effect, EnvelopeOk, Admits, Next, Entered;
    Opens(CODEC, S6, E7, 6);
    Handled(CODEC, S6, E7, Entered(S6, E7), 7);
    assert RAW.chunks == [] + [Chunk(Raw, "x")];
    assert S7.calls == S6.calls[2 := RAW];
  }

  lemma Run8()
    ensures Leads(S7, E8, S8)
  {
    hide Accepts, Effect, EnvelopeOk, Admits, Next, Entered;
    Opens(CODEC, S7, E8, 7);
    Handled(CODEC, S7, E8, Entered(S7, E8), 8);
  }

  lemma MayRevise(m: Ledger)
    requires m.version == Some(V1_1) && m.branches == S8.branches && m.calls == S8.calls && m.steps == S8.steps
    ensures CanRevise(CODEC, m, E9)
  {
    assert RawTexts(SECOND.chunks) == ["x"];
  }

  lemma RevisesTo(m: Ledger)
    requires m.branches == S8.branches && m.steps == S8.steps && CanRevise(CODEC, m, E9)
    ensures AfterRevise(CODEC, m, E9) == m.(branches := S9.branches, steps := S9.steps)
  {
    hide CanRevise;
    assert Moved(ROOT1, 9, Parked) == PARKED;
    assert RevisedBranch(m, E9) == REVISED;
  }

  lemma Run9()
    ensures Leads(S8, E9, S9)
  {
    hide Accepts, Effect, EnvelopeOk, Admits, Next, Entered;
    Opens(CODEC, S8, E9, 8);
    Handled(CODEC, S8, E9, Entered(S8, E9), 9);
    MayRevise(Entered(S8, E9));
    RevisesTo(Entered(S8, E9));
  }

  lemma Run10()
    ensures Leads(S9, E10, S10)
  {
    hide Accepts, Effect, EnvelopeOk, Admits, Next, Entered;
    Opens(CODEC, S9, E10, 9);
    Handled(CODEC, S9, E10, Entered(S9, E10), 10);
  }

  lemma MayResume(m: Ledger)
    requires m.run == S10.run && m.actions == S10.actions && m.branches == S10.branches
    ensures CanChangeStatus(CODEC, m, E11)
  {
  }

  lemma ResumesTo(m: Ledger)
    requires m.branches == map[1 := PARKED, 2 := REVISED]
    ensures AfterChangeStatus(m, E11) == m.(branches := map[1 := RESUMED, 2 := REVISED])
  {
    hide SameTranscripts;
    assert Moved(PARKED, 11, Active) == RESUMED;
    UpdateFirst(PARKED, REVISED, RESUMED);
  }

  lemma UpdateFirst<T>(a: T, b: T, x: T)
    ensures map[1 := a, 2 := b][1 := x] == map[1 := x, 2 := b]
  {
  }

  lemma AddThird<T>(a: T, b: T, x: T)
    ensures map[1 := a, 2 := b][3 := x] == map[1 := a, 2 := b, 3 := x]
  {
  }

  lemma Run11()
    ensures Leads(S10, E11, S11)
  {
    hide CanChangeStatus, AfterChangeStatus, Accepts, Effect, EnvelopeOk, Admits, Next, Entered;
    Opens(CODEC, S10, E11, 10);
    Handled(CODEC, S10, E11, Entered(S10, E11), 11);
    MayResume(Entered(S10, E11));
    ResumesTo(Entered(S10, E11));
  }

  /** Nothing in the seal's guard asks whether the call was spent. */
  lemma MaySealAgain(m: Ledger)
    requires m.branches == S11.branches && m.calls == S11.calls && m.steps == S11.steps
    ensures CanSeal(CODEC, m, E12)
  {
  }

  lemma SealsTo(m: Ledger)
    requires m.branches == map[1 := RESUMED, 2 := REVISED] && m.steps == map[1 := STEP1, 2 := STEP2]
    ensures AfterSeal(m, E12) == m.(branches := map[1 := RESUMED.(steps := [1, 3]), 2 := REVISED],
                                    steps := map[1 := STEP1, 2 := STEP2, 3 := STEP3])
  {
    assert SealedStep(E12) == STEP3;
    GrownTo();
    hide Grown, SealedStep;
    UpdateFirst(RESUMED, REVISED, RESUMED.(steps := [1, 3]));
    AddThird(STEP1, STEP2, STEP3);
  }

  lemma GrownTo()
    ensures Grown(RESUMED, 3) == RESUMED.(steps := [1, 3])
  {
    assert [1, 3] == [1] + [3];
  }

  lemma Run12()
    ensures Leads(S11, E12, S12)
  {
    hide CanSeal, AfterSeal, Accepts, Effect, EnvelopeOk, Admits, Next, Entered;
    Opens(CODEC, S11, E12, 11);
    Handled(CODEC, S11, E12, Entered(S11, E12), 12);
    MaySealAgain(Entered(S11, E12));
    SealsTo(Entered(S11, E12));
  }

  lemma Continues(log: seq<Event>, a: Event, b: Event, c: Event, d: Event, l: Ledger, la: Ledger, lb: Ledger, lc: Ledger, ld: Ledger)
    requires Fold(CODEC, log) == Some(l) && Leads(l, a, la) && Leads(la, b, lb) && Leads(lb, c, lc) && Leads(lc, d, ld)
    ensures Fold(CODEC, log + [a, b, c, d]) == Some(ld)
  {
    hide Admits, Next;
    Continue(log, l, a, la);
    Continue(log + [a], la, b, lb);
    Continue(log + [a] + [b], lb, c, lc);
    Continue(log + [a] + [b] + [c], lc, d, ld);
    assert log + [a] + [b] + [c] + [d] == log + [a, b, c, d];
  }

  lemma Continue(log: seq<Event>, l: Ledger, e: Event, l': Ledger)
    requires Fold(CODEC, log) == Some(l) && Leads(l, e, l')
    ensures Fold(CODEC, log + [e]) == Some(l')
  {
    hide Admits, Next;
    assert (log + [e])[..|log|] == log;
  }

  lemma Reached()
    ensures Fold(CODEC, LOG) == Some(S12)
  {
    hide Leads, Admits, Next;
    Run1(); Run2(); Run3(); Run4(); Run5(); Run6(); Run7(); Run8(); Run9(); Run10(); Run11(); Run12();
    assert Fold(CODEC, []) == Some(EMPTY_LEDGER);
    hide Fold;
    assert [] + FIRST_FOUR == FIRST_FOUR;
    Continues([], E1, E2, E3, E4, EMPTY_LEDGER, S1, S2, S3, S4);
    Continues(FIRST_FOUR, E5, E6, E7, E8, S4, S5, S6, S7, S8);
    Continues(FIRST_EIGHT, E9, E10, E11, E12, S8, S9, S10, S11, S12);
  }

  lemma CallTwoIsShared()
    ensures FinalChecks(S12) && !OriginsUnique(S12.steps)
  {
    assert S12.steps[2].origin == S12.steps[3].origin;
  }

  /** The log is accepted, and steps 2 and 3 are two steps written by call 2. */
  lemma V11OriginsCanRepeat()
    ensures Fold(CODEC, LOG).Some? && FinalChecks(Fold(CODEC, LOG).value)
    ensures !OriginsUnique(Fold(CODEC, LOG).value.steps)
  {
    hide Fold, FinalChecks, OriginsUnique;
    Reached();
    CallTwoIsShared();
  }
}
