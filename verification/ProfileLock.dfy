/**
 The profile lock with reclaim of dead owners (`ProfileInstanceLock`), as steps between
 system calls. Any number of lock objects in any number of processes take them in any
 order, processes crash anywhere, and process numbers and inodes are used again.
 */
module ProfileLock {
  import opened Wrappers

  type Actor = nat
  type Pid = nat
  type Inode = nat

  /** What the lock file holds: nothing readable yet, or the line that names its writer. */
  datatype Content = Unreadable | Names(pid: Pid)

  datatype Phase =
    | Idle
    // the owner's side
    | Created(inode: Inode)
    | HeldBy(inode: Inode, runtime: Option<nat>)
    | Abandoning(inode: Inode)
    | Checked(inode: Inode)
    | Gone(inode: Inode)
    // the reclaimer's side
    | Opened(inode: Inode)
    | Flocked(inode: Inode)
    | Read(inode: Inode, pid: Pid)
    | Verified(inode: Inode)
    | Confirmed(inode: Inode)
    | Unlinked(inode: Inode)

  datatype Lock = Lock(pid: Pid, phase: Phase)

  datatype System = System(path: Option<Inode>, content: map<Inode, Content>, locks: map<Actor, Lock>, alive: set<Pid>)

  const START := System(None, map[], map[], {})

  /** The inode a live lock object created and has not given up. */
  function Owned(p: Phase): Option<Inode> {
    match p
    case Created(i) => Some(i)
    case HeldBy(i, _) => Some(i)
    case Abandoning(i) => Some(i)
    case Checked(i) => Some(i)
    case _ => None
  }

  /** The inode a reclaimer has locked with flock. */
  function Claimed(p: Phase): Option<Inode> {
    match p
    case Flocked(i) => Some(i)
    case Read(i, _) => Some(i)
    case Verified(i) => Some(i)
    case Confirmed(i) => Some(i)
    case Unlinked(i) => Some(i)
    case _ => None
  }

  /** A descriptor keeps the inode from being used again. */
  predicate HoldsOpen(p: Phase, i: Inode) {
    match p
    case Idle => false
    case Abandoning(_) => false
    case Created(j) => j == i
    case HeldBy(j, _) => j == i
    case Checked(j) => j == i
    case Gone(j) => j == i
    case Opened(j) => j == i
    case Flocked(j) => j == i
    case Read(j, _) => j == i
    case Verified(j) => j == i
    case Confirmed(j) => j == i
    case Unlinked(j) => j == i
  }

  predicate FreeInode(s: System, i: Inode) {
    s.path != Some(i) && forall a :: a in s.locks ==> !HoldsOpen(s.locks[a].phase, i)
  }

  datatype Step =
    | Spawn(actor: Actor, pid: Pid)          // a lock object in a new or a running process
    | Crash(pid: Pid)                        // every lock object of the process disappears
    | CreateFile(actor: Actor, inode: Inode) // open with O_CREAT and O_EXCL
    | WritePid(actor: Actor)
    | WriteFails(actor: Actor, written: bool) // the write or the sync raised; the descriptor is closed
    | AbandonFile(actor: Actor)              // and the path unlinked
    | Transfer(actor: Actor, runtime: nat)
    | CheckRelease(actor: Actor, owner: Option<nat>)
    | UnlinkOwn(actor: Actor)
    | CloseOwn(actor: Actor)
    | OpenExisting(actor: Actor)
    | TryFlock(actor: Actor)
    | ReadPid(actor: Actor)
    | ProbeOwner(actor: Actor)
    | Recheck(actor: Actor)
    | UnlinkStale(actor: Actor)
    | CloseStale(actor: Actor)

  function PhaseOf(s: System, a: Actor): Phase {
    if a in s.locks then s.locks[a].phase else Idle
  }

  predicate FlockFree(s: System, i: Inode) {
    forall a :: a in s.locks ==> Claimed(s.locks[a].phase) != Some(i)
  }

  predicate Enabled(s: System, step: Step) {
    match step
    case Spawn(a, _) => a !in s.locks
    case Crash(p) => p in s.alive
    case _ =>
      && step.actor in s.locks
      && var p := s.locks[step.actor].phase;
      match step
      case CreateFile(_, i) => p.Idle? && s.path.None? && FreeInode(s, i)
      case WritePid(_) => p.Created?
      case WriteFails(_, _) => p.Created?
      case AbandonFile(_) => p.Abandoning?
      case Transfer(_, _) => p.HeldBy? && p.runtime.None?
      case CheckRelease(_, owner) => p.HeldBy? && p.runtime == owner
      case UnlinkOwn(_) => p.Checked?
      case CloseOwn(_) => p.Gone?
      case OpenExisting(_) => p.Idle? && s.path.Some?
      case TryFlock(_) => p.Opened?
      case ReadPid(_) => p.Flocked?
      case ProbeOwner(_) => p.Read?
      case Recheck(_) => p.Verified?
      case UnlinkStale(_) => p.Confirmed?
      case CloseStale(_) => p.Unlinked?
      case _ => false
  }

  function Move(s: System, a: Actor, p: Phase): System
    requires a in s.locks
  {
    s.(locks := s.locks[a := s.locks[a].(phase := p)])
  }

  /** The system call and what the code does with its answer; a failed check gives the reclaim up. */
  function After(s: System, step: Step): System
    requires Enabled(s, step)
  {
    match step
    case Spawn(a, p) => s.(locks := s.locks[a := Lock(p, Idle)], alive := s.alive + {p})
    case Crash(p) => s.(locks := map a | a in s.locks && s.locks[a].pid != p :: s.locks[a], alive := s.alive - {p})
    case CreateFile(a, i) => Move(s, a, Created(i)).(path := Some(i), content := s.content[i := Unreadable])
    case WritePid(a) =>
      var i := s.locks[a].phase.inode;
      Move(s, a, HeldBy(i, None)).(content := s.content[i := Names(s.locks[a].pid)])
    case WriteFails(a, written) =>
      var i := s.locks[a].phase.inode;
      Move(s, a, Abandoning(i)).(content := s.content[i := if written then Names(s.locks[a].pid) else Unreadable])
    case AbandonFile(a) => Move(s, a, Idle).(path := None)
    case Transfer(a, owner) => Move(s, a, HeldBy(s.locks[a].phase.inode, Some(owner)))
    case CheckRelease(a, _) =>
      if s.path == Some(s.locks[a].phase.inode) then Move(s, a, Checked(s.locks[a].phase.inode)) else s
    case UnlinkOwn(a) => Move(s, a, Gone(s.locks[a].phase.inode)).(path := None)
    case CloseOwn(a) => Move(s, a, Idle)
    case OpenExisting(a) => Move(s, a, Opened(s.path.value))
    case TryFlock(a) =>
      var i := s.locks[a].phase.inode;
      Move(s, a, if FlockFree(s, i) then Flocked(i) else Idle)
    case ReadPid(a) =>
      var i := s.locks[a].phase.inode;
      Move(s, a, if i in s.content && s.content[i].Names? then Read(i, s.content[i].pid) else Idle)
    case ProbeOwner(a) =>
      Move(s, a, if s.locks[a].phase.pid in s.alive then Idle else Verified(s.locks[a].phase.inode))
    case Recheck(a) =>
      Move(s, a, if s.path == Some(s.locks[a].phase.inode) then Confirmed(s.locks[a].phase.inode) else Idle)
    case UnlinkStale(a) => Move(s, a, Unlinked(s.locks[a].phase.inode)).(path := None)
    case CloseStale(a) => Move(s, a, Idle)
  }

  function Run(steps: seq<Step>): Option<System>
    decreases |steps|
  {
    if steps == [] then Some(START)
    else
      match Run(steps[..|steps| - 1])
      case None => None
      case Some(s) => if Enabled(s, steps[|steps| - 1]) then Some(After(s, steps[|steps| - 1])) else None
  }

  // ----- what every step keeps --------------------------------------------------------------------

  /** A live owner's file is the one the path names, and it names no process but the owner's. */
  ghost predicate OwnerOk(s: System, x: Lock) {
    Owned(x.phase).Some? ==>
      && s.path == Owned(x.phase)
      && Owned(x.phase).value in s.content
      && (s.content[Owned(x.phase).value].Names? ==> s.content[Owned(x.phase).value].pid == x.pid)
      && (x.phase.HeldBy? || x.phase.Checked? ==> s.content[Owned(x.phase).value] == Names(x.pid))
  }

  ghost predicate Owners(s: System) {
    && (forall a :: a in s.locks ==> s.locks[a].pid in s.alive && OwnerOk(s, s.locks[a]))
    && (forall a, b :: a in s.locks && b in s.locks && Owned(s.locks[a].phase).Some? && Owned(s.locks[b].phase).Some? ==> a == b)
  }

  /** flock: no two reclaimers have the same inode. */
  ghost predicate Flocks(s: System) {
    forall a, b | a in s.locks && b in s.locks && Claimed(s.locks[a].phase).Some? ::
      Claimed(s.locks[a].phase) == Claimed(s.locks[b].phase) ==> a == b
  }

  predicate OwnedBy(s: System, i: Inode, a: Actor) {
    a in s.locks && Owned(s.locks[a].phase) == Some(i)
  }

  /** A reclaimer past the probe has an inode without a live owner; past the recheck the path still names it. */
  ghost predicate ReclaimOk(s: System, p: Phase) {
    && (p.Read? ==> forall a :: OwnedBy(s, p.inode, a) ==> s.locks[a].pid == p.pid)
    && (p.Verified? || p.Confirmed? ==> forall a :: !OwnedBy(s, p.inode, a))
    && (p.Confirmed? ==> s.path == Some(p.inode))
  }

  ghost predicate Reclaims(s: System) {
    forall a :: a in s.locks ==> ReclaimOk(s, s.locks[a].phase)
  }

  ghost predicate Inv(s: System) {
    Owners(s) && Flocks(s) && Reclaims(s)
  }

  // ----- local steps: only one phase moves ----------------------------------------------------------

  /** Nothing but this lock's phase changed, and it owns exactly what it owned. */
  lemma LocalMoveKeeps(s: System, a: Actor, p: Phase)
    requires Inv(s) && a in s.locks && Owned(p) == Owned(s.locks[a].phase)
    requires OwnerOk(s, Lock(s.locks[a].pid, p)) && ReclaimOk(s, p)
    requires Claimed(p).Some? ==> Claimed(p) == Claimed(s.locks[a].phase) || FlockFree(s, Claimed(p).value)
    ensures Inv(Move(s, a, p))
  {
    var s' := Move(s, a, p);
    forall b | b in s'.locks
      ensures s'.locks[b].pid in s'.alive && OwnerOk(s', s'.locks[b])
      ensures ReclaimOk(s', s'.locks[b].phase)
    {
      assert OwnerOk(s, s.locks[b]) && ReclaimOk(s, s.locks[b].phase);
      assert forall i, c :: OwnedBy(s', i, c) <==> OwnedBy(s, i, c);
    }
  }

  lemma ReclaimSteps(s: System, step: Step)
    requires Inv(s) && Enabled(s, step)
    requires step.OpenExisting? || step.TryFlock? || step.ReadPid? || step.ProbeOwner? || step.Recheck? || step.CloseStale?
    ensures Inv(After(s, step))
  {
    hide Inv;
    var a := step.actor;
    var p := After(s, step).locks[a].phase;
    assert After(s, step) == Move(s, a, p);
    assert ReclaimOk(s, s.locks[a].phase) && OwnerOk(s, s.locks[a]) by {
      PhaseHolds(s, a);
    }
    if step.ReadPid? && p.Read? {
      ReaderSeesOwner(s, p);
    } else if step.ProbeOwner? && p.Verified? {
      DeadOwnsNothing(s, s.locks[a].phase);
    }
    LocalMoveKeeps(s, a, p);
  }

  lemma PhaseHolds(s: System, a: Actor)
    requires Inv(s) && a in s.locks
    ensures ReclaimOk(s, s.locks[a].phase) && OwnerOk(s, s.locks[a])
  {
  }

  /** The file of a live owner names no other process. */
  lemma ReaderSeesOwner(s: System, p: Phase)
    requires Inv(s) && p.Read? && p.inode in s.content && s.content[p.inode] == Names(p.pid)
    ensures ReclaimOk(s, p)
  {
    forall a | OwnedBy(s, p.inode, a)
      ensures s.locks[a].pid == p.pid
    {
      assert OwnerOk(s, s.locks[a]);
    }
  }

  /** When the process the file names is dead, the file has no live owner. */
  lemma DeadOwnsNothing(s: System, p: Phase)
    requires Inv(s) && p.Read? && ReclaimOk(s, p) && p.pid !in s.alive
    ensures ReclaimOk(s, Verified(p.inode))
  {
    forall a | a in s.locks
      ensures !OwnedBy(s, p.inode, a)
    {
      assert s.locks[a].pid in s.alive;
    }
  }

  lemma OwnerSteps(s: System, step: Step)
    requires Inv(s) && Enabled(s, step) && (step.Transfer? || step.CheckRelease? || step.CloseOwn?)
    ensures Inv(After(s, step))
  {
    hide Inv;
    var a := step.actor;
    PhaseHolds(s, a);
    if After(s, step) != s {
      LocalMoveKeeps(s, a, After(s, step).locks[a].phase);
    }
  }

  // ----- steps that write or remove the file ------------------------------------------------------------

  lemma WriteSteps(s: System, step: Step)
    requires Inv(s) && Enabled(s, step) && (step.WritePid? || step.WriteFails?)
    ensures Inv(After(s, step))
  {
    var a := step.actor;
    var s' := After(s, step);
    var i := s.locks[a].phase.inode;
    assert OwnerOk(s, s.locks[a]);
    forall b | b in s'.locks
      ensures s'.locks[b].pid in s'.alive && OwnerOk(s', s'.locks[b])
      ensures ReclaimOk(s', s'.locks[b].phase)
    {
      assert OwnerOk(s, s.locks[b]) && ReclaimOk(s, s.locks[b].phase);
      assert forall j, c :: OwnedBy(s', j, c) <==> OwnedBy(s, j, c);
    }
  }

  lemma CreateStep(s: System, step: Step)
    requires Inv(s) && Enabled(s, step) && step.CreateFile?
    ensures Inv(After(s, step))
  {
    var a, i := step.actor, step.inode;
    var s' := After(s, step);
    forall b | b in s.locks
      ensures Owned(s.locks[b].phase).None?
    {
      assert OwnerOk(s, s.locks[b]);
    }
    forall b | b in s'.locks
      ensures s'.locks[b].pid in s'.alive && OwnerOk(s', s'.locks[b])
      ensures ReclaimOk(s', s'.locks[b].phase)
    {
      assert ReclaimOk(s, s.locks[b].phase);
      assert forall j, c :: OwnedBy(s', j, c) ==> c == a && j == i;
      assert b != a ==> !HoldsOpen(s.locks[b].phase, i);
    }
  }

  /** Whoever unlinks, unlinks the file at the path, and nobody else alive owns it. */
  lemma UnlinkerIsAlone(s: System, step: Step)
    requires Inv(s) && Enabled(s, step) && (step.AbandonFile? || step.UnlinkOwn? || step.UnlinkStale?)
    ensures s.path == Some(s.locks[step.actor].phase.inode)
    ensures forall a :: OwnedBy(s, s.locks[step.actor].phase.inode, a) ==> a == step.actor && !step.UnlinkStale?
    ensures forall b :: b in s.locks && Owned(s.locks[b].phase).Some? ==> b == step.actor
    ensures forall b :: b in s.locks && s.locks[b].phase.Confirmed? ==> b == step.actor
  {
    var a := step.actor;
    var i := s.locks[a].phase.inode;
    assert OwnerOk(s, s.locks[a]) && ReclaimOk(s, s.locks[a].phase);
    forall b | b in s.locks && Owned(s.locks[b].phase).Some?
      ensures b == a && !step.UnlinkStale?
    {
      assert OwnerOk(s, s.locks[b]) && OwnedBy(s, i, b);
    }
    forall b | b in s.locks && s.locks[b].phase.Confirmed?
      ensures b == a
    {
      assert ReclaimOk(s, s.locks[b].phase);
      if !step.UnlinkStale? {
        assert OwnedBy(s, i, a);
      }
    }
  }

  lemma UnlinkSteps(s: System, step: Step)
    requires Inv(s) && Enabled(s, step) && (step.AbandonFile? || step.UnlinkOwn? || step.UnlinkStale?)
    ensures Inv(After(s, step))
  {
    UnlinkerIsAlone(s, step);
    var s' := After(s, step);
    forall b | b in s'.locks
      ensures s'.locks[b].pid in s'.alive && Owned(s'.locks[b].phase).None?
      ensures ReclaimOk(s', s'.locks[b].phase)
    {
      assert ReclaimOk(s, s.locks[b].phase);
      assert forall j, c :: OwnedBy(s', j, c) ==> OwnedBy(s, j, c);
    }
  }

  lemma ProcessSteps(s: System, step: Step)
    requires Inv(s) && Enabled(s, step) && (step.Spawn? || step.Crash?)
    ensures Inv(After(s, step))
  {
    var s' := After(s, step);
    forall b | b in s'.locks
      ensures s'.locks[b].pid in s'.alive && OwnerOk(s', s'.locks[b])
      ensures ReclaimOk(s', s'.locks[b].phase)
    {
      if b in s.locks {
        assert OwnerOk(s, s.locks[b]) && ReclaimOk(s, s.locks[b].phase);
      }
      assert forall j, c :: OwnedBy(s', j, c) ==> OwnedBy(s, j, c) && s'.locks[c] == s.locks[c];
    }
  }

  lemma StepKeeps(s: System, step: Step)
    requires Inv(s) && Enabled(s, step)
    ensures Inv(After(s, step))
  {
    hide Inv, After;
    match step {
      case Spawn(_, _) => ProcessSteps(s, step);
      case Crash(_) => ProcessSteps(s, step);
      case CreateFile(_, _) => CreateStep(s, step);
      case WritePid(_) => WriteSteps(s, step);
      case WriteFails(_, _) => WriteSteps(s, step);
      case AbandonFile(_) => UnlinkSteps(s, step);
      case UnlinkOwn(_) => UnlinkSteps(s, step);
      case UnlinkStale(_) => UnlinkSteps(s, step);
      case Transfer(_, _) => OwnerSteps(s, step);
      case CheckRelease(_, _) => OwnerSteps(s, step);
      case CloseOwn(_) => OwnerSteps(s, step);
      case _ => ReclaimSteps(s, step);
    }
  }

  lemma {:induction false} RunsKeep(steps: seq<Step>)
    requires Run(steps).Some?
    ensures Inv(Run(steps).value)
    decreases |steps|
  {
    hide Enabled, After;
    if steps != [] {
      RunsKeep(steps[..|steps| - 1]);
      StepKeeps(Run(steps[..|steps| - 1]).value, steps[|steps| - 1]);
    }
  }

  // ----- theorems ---------------------------------------------------------------------------------------

  /** At most one lock object holds the profile, and the lock path names its file and its live process. */
  lemma AtMostOneHolder(steps: seq<Step>, a: Actor, b: Actor)
    requires Run(steps).Some? && a in Run(steps).value.locks && b in Run(steps).value.locks
    requires Run(steps).value.locks[a].phase.HeldBy? || Run(steps).value.locks[a].phase.Checked?
    requires Run(steps).value.locks[b].phase.HeldBy? || Run(steps).value.locks[b].phase.Checked?
    ensures a == b
    ensures var s := Run(steps).value;
            && s.locks[a].pid in s.alive && s.path == Some(s.locks[a].phase.inode)
            && s.path.value in s.content && s.content[s.path.value] == Names(s.locks[a].pid)
  {
    RunsKeep(steps);
    assert OwnerOk(Run(steps).value, Run(steps).value.locks[a]);
  }

  /** No step of another lock object moves the path away from a live owner's file. */
  lemma NobodyUnlinksALiveOwner(steps: seq<Step>, step: Step, a: Actor)
    requires Run(steps).Some? && Enabled(Run(steps).value, step)
    requires a in Run(steps).value.locks && Owned(Run(steps).value.locks[a].phase).Some?
    requires !step.Crash? && !step.Spawn? ==> step.actor != a
    ensures After(Run(steps).value, step).path == Run(steps).value.path == Owned(Run(steps).value.locks[a].phase)
  {
    var s := Run(steps).value;
    RunsKeep(steps);
    hide Run;
    PhaseHolds(s, a);
    assert OwnedBy(s, Owned(s.locks[a].phase).value, a);
    if step.AbandonFile? || step.UnlinkOwn? || step.UnlinkStale? {
      UnlinkerIsAlone(s, step);
    }
  }

  /**
   A reclaimer removes only the file it examined, and that file has no live owner: neither
   a live process's file nor a replacement is ever unlinked.
   */
  lemma ReclaimRemovesOnlyTheDead(steps: seq<Step>, a: Actor)
    requires Run(steps).Some? && Enabled(Run(steps).value, UnlinkStale(a))
    ensures var s := Run(steps).value;
            s.path == Some(s.locks[a].phase.inode) && forall b :: !OwnedBy(s, s.path.value, b)
  {
    RunsKeep(steps);
    PhaseHolds(Run(steps).value, a);
  }

  /** A release never finds a foreign file at the path, so it never fails and never removes one. */
  lemma ReleaseNeverFindsAStranger(steps: seq<Step>, a: Actor, owner: Option<nat>)
    requires Run(steps).Some? && Enabled(Run(steps).value, CheckRelease(a, owner))
    ensures After(Run(steps).value, CheckRelease(a, owner)).locks[a].phase == Checked(Run(steps).value.locks[a].phase.inode)
  {
    RunsKeep(steps);
    PhaseHolds(Run(steps).value, a);
  }

  /** A dead holder's file can be examined: the probe finds no process, whoever asks. */
  ghost predicate DeadFile(s: System, i: Inode) {
    s.path == Some(i) && i in s.content && s.content[i].Names? && s.content[i].pid !in s.alive
  }

  /**
   A dead holder does not lock everyone out: each step of a reclaimer that is alone with
   the file takes it to the next, and the last one frees the path.
   */
  lemma DeadOwnersAreReclaimed(s: System, a: Actor, i: Inode)
    requires a in s.locks && DeadFile(s, i) && forall b :: b in s.locks && b != a ==> Claimed(s.locks[b].phase) != Some(i)
    ensures s.locks[a].phase.Idle? ==> Reaches(s, OpenExisting(a), Opened(i), i)
    ensures s.locks[a].phase == Opened(i) ==> Reaches(s, TryFlock(a), Flocked(i), i)
    ensures s.locks[a].phase == Flocked(i) ==> Reaches(s, ReadPid(a), Read(i, s.content[i].pid), i)
    ensures s.locks[a].phase == Read(i, s.content[i].pid) ==> Reaches(s, ProbeOwner(a), Verified(i), i)
    ensures s.locks[a].phase == Verified(i) ==> Reaches(s, Recheck(a), Confirmed(i), i)
    ensures s.locks[a].phase == Confirmed(i) ==> Enabled(s, UnlinkStale(a)) && After(s, UnlinkStale(a)).path.None?
  {
  }

  /** The step is possible, ends in that phase, and leaves the dead file as it was. */
  ghost predicate Reaches(s: System, step: Step, p: Phase, i: Inode)
    requires !step.Spawn? && !step.Crash? && step.actor in s.locks
  {
    Enabled(s, step) && PhaseOf(After(s, step), step.actor) == p && DeadFile(After(s, step), i)
  }

  /** From the system one steps through these steps to the other. */
  ghost predicate Leads(s: System, steps: seq<Step>, s': System)
    decreases |steps|
  {
    if steps == [] then s' == s else Enabled(s, steps[0]) && Leads(After(s, steps[0]), steps[1..], s')
  }

  /** Only this lock, the path and this file are not as they were. */
  ghost predicate OthersAsBefore(s: System, s': System, a: Actor, i: Inode) {
    && a in s.locks && s'.alive == s.alive && s'.locks.Keys == s.locks.Keys && s'.locks[a].pid == s.locks[a].pid
    && (forall b :: b in s.locks && b != a ==> s'.locks[b] == s.locks[b])
    && s'.content.Keys == s.content.Keys + {i} && forall j :: j in s.content && j != i ==> s'.content[j] == s.content[j]
  }

  /** A free path is acquired: with any unused inode, the lock then holds a file that names its own process. */
  lemma FreePathIsAcquired(s: System, a: Actor, i: Inode) returns (s': System)
    requires a in s.locks && s.locks[a].phase == Idle && s.path.None?
    requires forall b :: b in s.locks ==> !HoldsOpen(s.locks[b].phase, i)
    ensures Leads(s, [CreateFile(a, i), WritePid(a)], s') && OthersAsBefore(s, s', a, i)
    ensures s'.locks[a].phase == HeldBy(i, None) && s'.path == Some(i) && s'.content[i] == Names(s.locks[a].pid)
  {
    var steps := [CreateFile(a, i), WritePid(a)];
    var mid := After(s, steps[0]);
    s' := After(mid, steps[1]);
    assert steps[1..] == [WritePid(a)] && steps[1..][1..] == [];
    assert Leads(mid, steps[1..], s');
  }

  /** A write that fails leaves the path free again, and the lock without it. */
  lemma FailedWriteFreesThePath(s: System, a: Actor, written: bool) returns (s': System)
    requires a in s.locks && s.locks[a].phase.Created?
    ensures Leads(s, [WriteFails(a, written), AbandonFile(a)], s')
    ensures PhaseOf(s', a) == Idle && a in s'.locks && s'.path.None?
  {
    var steps := [WriteFails(a, written), AbandonFile(a)];
    var mid := After(s, steps[0]);
    s' := After(mid, steps[1]);
    assert steps[1..] == [AbandonFile(a)] && steps[1..][1..] == [];
    assert Leads(mid, steps[1..], s');
  }

  /** Whoever the lock was transferred to, and nobody else, can release it; the release frees the path. */
  lemma ItsOwnerReleasesIt(s: System, a: Actor, owner: Option<nat>) returns (s': System)
    requires a in s.locks && s.locks[a].phase.HeldBy? && s.path == Some(s.locks[a].phase.inode)
    ensures Enabled(s, CheckRelease(a, owner)) <==> s.locks[a].phase.runtime == owner
    ensures s.locks[a].phase.runtime == owner ==>
              && Leads(s, [CheckRelease(a, owner), UnlinkOwn(a), CloseOwn(a)], s')
              && PhaseOf(s', a) == Idle && a in s'.locks && s'.path.None? && s'.content == s.content
              && forall b :: b in s.locks && b != a ==> b in s'.locks && s'.locks[b] == s.locks[b]
  {
    s' := s;
    if s.locks[a].phase.runtime == owner {
      var steps := [CheckRelease(a, owner), UnlinkOwn(a), CloseOwn(a)];
      var one := After(s, steps[0]);
      var two := After(one, steps[1]);
      s' := After(two, steps[2]);
      assert steps[1..] == [UnlinkOwn(a), CloseOwn(a)] && steps[1..][1..] == [CloseOwn(a)] && steps[1..][1..][1..] == [];
      assert Leads(two, steps[1..][1..], s');
      assert Leads(one, steps[1..], s');
    }
  }

  /** A path that names another file is not touched by a release: the lock stays held. */
  lemma StrangersAreNotReleased(s: System, a: Actor, owner: Option<nat>)
    requires Enabled(s, CheckRelease(a, owner)) && s.path != Some(s.locks[a].phase.inode)
    ensures After(s, CheckRelease(a, owner)) == s
  {
  }

  /** Every step that is possible after a run makes it a longer one. */
  lemma RunsGoOn(steps: seq<Step>, step: Step)
    ensures Run([]) == Some(System(None, map[], map[], {}))
    ensures Run(steps).Some? && Enabled(Run(steps).value, step) ==> Run(steps + [step]) == Some(After(Run(steps).value, step))
    ensures !(Run(steps).Some? && Enabled(Run(steps).value, step)) ==> Run(steps + [step]).None?
  {
    hide Enabled, After;
    assert (steps + [step])[..|steps|] == steps;
  }

  /** A run in which one process acquires the profile. */
  lemma OneRunAcquires(a: Actor, pid: Pid, i: Inode)
    ensures Run([Spawn(a, pid), CreateFile(a, i), WritePid(a)]).Some?
    ensures var s := Run([Spawn(a, pid), CreateFile(a, i), WritePid(a)]).value;
            && s.locks == map[a := Lock(pid, HeldBy(i, None))] && s.path == Some(i) && s.content == map[i := Names(pid)] && s.alive == {pid}
  {
    RunsGoOn([], Spawn(a, pid));
    assert [] + [Spawn(a, pid)] == [Spawn(a, pid)];
    var s := After(START, Spawn(a, pid));
    RunsGoOn([Spawn(a, pid)], CreateFile(a, i));
    assert [Spawn(a, pid)] + [CreateFile(a, i)] == [Spawn(a, pid), CreateFile(a, i)];
    RunsGoOn([Spawn(a, pid), CreateFile(a, i)], WritePid(a));
    assert [Spawn(a, pid), CreateFile(a, i)] + [WritePid(a)] == [Spawn(a, pid), CreateFile(a, i), WritePid(a)];
    assert Run([Spawn(a, pid)]) == Some(s);
    hide Run;
    var t := After(s, CreateFile(a, i));
    assert After(t, WritePid(a)).locks == map[a := Lock(pid, HeldBy(i, None))];
  }

  /** A lock is transferred to a runtime at most once, and only while it is held. */
  lemma TransferIsOnce(s: System, a: Actor, runtime: nat)
    ensures Enabled(s, Transfer(a, runtime)) <==>
            a in s.locks && s.locks[a].phase.HeldBy? && s.locks[a].phase.runtime.None?
    ensures Enabled(s, Transfer(a, runtime)) ==>
              && After(s, Transfer(a, runtime)).locks[a].phase == HeldBy(s.locks[a].phase.inode, Some(runtime))
              && After(s, Transfer(a, runtime)).path == s.path && After(s, Transfer(a, runtime)).content == s.content
              && forall other :: !Enabled(After(s, Transfer(a, runtime)), Transfer(a, other))
  {
  }

  /** What makes a reclaimer give up, and leave everything but itself as it was. */
  ghost predicate GivesUp(s: System, step: Step)
    requires !step.Spawn? && !step.Crash? && step.actor in s.locks
  {
    && Enabled(s, step)
    && After(s, step) == s.(locks := s.locks[step.actor := Lock(s.locks[step.actor].pid, Idle)])
  }

  /**
   A reclaim is given up, and nothing is removed, whenever another one has the file, the
   file names nobody, its owner is alive, or the path has come to name another file.
   */
  lemma ReclaimIsGivenUp(s: System, a: Actor, i: Inode, pid: Pid)
    requires a in s.locks
    ensures s.locks[a].phase == Opened(i) && (exists b :: b in s.locks && Claimed(s.locks[b].phase) == Some(i)) ==> GivesUp(s, TryFlock(a))
    ensures s.locks[a].phase == Flocked(i) && (i !in s.content || s.content[i] == Unreadable) ==> GivesUp(s, ReadPid(a))
    ensures s.locks[a].phase == Read(i, pid) && pid in s.alive ==> GivesUp(s, ProbeOwner(a))
    ensures s.locks[a].phase == Verified(i) && s.path != Some(i) ==> GivesUp(s, Recheck(a))
  {
  }

  /** A crash takes exactly the locks of its own process, and leaves their files behind. */
  lemma CrashLeavesTheFile(s: System, pid: Pid)
    requires pid in s.alive
    ensures Enabled(s, Crash(pid))
    ensures var s' := After(s, Crash(pid));
            && s'.path == s.path && s'.content == s.content && s'.alive == s.alive - {pid}
            && (forall a :: a in s'.locks <==> a in s.locks && s.locks[a].pid != pid)
            && forall a :: a in s'.locks ==> s'.locks[a] == s.locks[a]
  {
  }
}
