/**
 What the reason of a status change says about the status it leads to: all but three
 reasons fix it, and `human_pause`, `human_resume` and `human_kill` leave it open.
 */
module RecordReasons {
  import opened Wrappers
  import opened RecordModel
  import opened RecordRules
  import opened RecordReuse

  /** The one status a reason leads to; the three human reasons name none. */
  function FixedTarget(r: StatusReason): Option<BranchStatus> {
    match r
    case WriterComplete => Some(Completed)
    case RuntimeFailure => Some(Paused)
    case WriterBlocked => Some(Parked)
    case HardDefectReason => Some(Killed)
    case InstrumentFailureReason => Some(Parked)
    case ManualReopen => Some(Active)
    case HumanPause => None
    case HumanResume => None
    case HumanKill => None
  }

  function Retargeted(e: Event, to: BranchStatus): Event
    requires e.body.BranchStatusChanged?
  {
    e.(body := e.body.(to := to))
  }

  /**
   Which targets a reason admits: where a status change is allowed, the same event with
   this target is allowed if and only if the branch may move there within the limit of
   active branches, and the reason either names this very status or is one of the three
   human ones, which name none.
   */
  lemma TargetsIff(codec: Codec, l: Ledger, e: Event, to: BranchStatus)
    requires e.body.BranchStatusChanged? && CanChangeStatus(codec, l, e)
    ensures CanChangeStatus(codec, l, Retargeted(e, to)) <==>
            && FixedTarget(e.body.statusReason) in {None, Some(to)}
            && to in Transitions(l.branches[e.body.branch].status)
            && WithinActiveLimit(l.run, l.branches[e.body.branch := Moved(l.branches[e.body.branch], e.seq_, to)])
  {
    hide WithinActiveLimit, CitesAction, FinishedWriter, WriterControl, Moved;
  }

  // ----- a pause that kills -------------------------------------------------------------------------

  const PAUSE := At(3, Human, HumanActionRecorded(1, PauseBranch, OnBranch(1), None, None))
  const KILLS := At(4, Human, BranchStatusChanged(1, Active, Killed, HumanPause, Some(1), None, None))
  const ASKED := Action(PauseBranch, OnBranch(1), None, None, 3, 3)
  const DEAD := ROOT.(status := Killed, history := ROOT.history + [StatusChange(4, Some(Active), Killed)])
  const T3 := RecordReuse.After(3, map[1 := ASKED], map[1 := ROOT], map[], map[])
  const T4 := RecordReuse.After(4, map[1 := ASKED], map[1 := DEAD], map[], map[])

  lemma Asks()
    ensures Leads(S2, PAUSE, T3)
  {
    hide Accepts, Effect, EnvelopeOk, Admits, Next, Entered;
    Opens(CODEC, S2, PAUSE, 2);
    Handled(CODEC, S2, PAUSE, Entered(S2, PAUSE), 3);
  }

  lemma MayKill(m: Ledger)
    requires m.run == T3.run && m.actions == T3.actions && m.branches == T3.branches
    ensures CanChangeStatus(CODEC, m, KILLS)
  {
  }

  lemma KillsIt(m: Ledger)
    requires m.branches == map[1 := ROOT]
    ensures AfterChangeStatus(m, KILLS) == m.(branches := map[1 := DEAD])
  {
    assert Moved(ROOT, 4, Killed) == DEAD;
  }

  lemma Dies()
    ensures Leads(T3, KILLS, T4)
  {
    hide CanChangeStatus, AfterChangeStatus, Accepts, Effect, EnvelopeOk, Admits, Next, Entered;
    Opens(CODEC, T3, KILLS, 3);
    Handled(CODEC, T3, KILLS, Entered(T3, KILLS), 4);
    MayKill(Entered(T3, KILLS));
    KillsIt(Entered(T3, KILLS));
  }

  /** A complete, accepted log in which the reason `human_pause`, citing a pause, kills the branch. */
  lemma PauseCanKill()
    ensures Fold(CODEC, [E1, E2, PAUSE, KILLS]).Some? && FinalChecks(Fold(CODEC, [E1, E2, PAUSE, KILLS]).value)
    ensures KILLS.body.statusReason.HumanPause? && Fold(CODEC, [E1, E2, PAUSE, KILLS]).value.branches[1].status.Killed?
  {
    hide Leads, Admits, Next;
    Run1();
    Run2();
    Asks();
    Dies();
    assert Fold(CODEC, []) == Some(EMPTY_LEDGER);
    hide Fold;
    assert [] + [E1, E2, PAUSE, KILLS] == [E1, E2, PAUSE, KILLS];
    Continues([], E1, E2, PAUSE, KILLS, EMPTY_LEDGER, S1, S2, T3, T4);
  }
}
