/**
 The asynchronous tenant registry (`TenantRuntimeRegistry`), as the steps between its
 awaits. Any number of tasks call `service_for` and `close` in any interleaving.
 */
module TenantRegistry {
  import opened Wrappers

  type Task = nat
  type User = nat
  type LockId = nat
  type Service = nat

  datatype Phase =
    | WantsLock(user: User)                                   // before the registry lock
    | Waiting(user: User, lock: LockId)                       // for the per-user lock
    | Creating(user: User, lock: LockId)                      // in the factory
    | Starting(user: User, lock: LockId, service: Service)    // in start()
    | Registering(user: User, lock: LockId, service: Service) // before the registry lock, started
    | Discarding(user: User, lock: LockId, service: Service)  // in close() of a service nobody gets
    | Closing(todo: seq<(User, Service)>, failed: seq<(User, Service)>)

  datatype Registry = Registry(
    closed: bool,
    services: map<User, Service>,
    locks: map<User, LockId>,
    tasks: map<Task, Phase>,
    made: set<Service>,
    registered: set<Service>)

  const START := Registry(false, map[], map[], map[], {}, {})

  datatype Step =
    | CallServiceFor(task: Task, user: User)
    | GetLock(task: Task, newLock: LockId)
    | Enter(task: Task)
    | FactoryReturns(task: Task, service: Service)
    | FactoryRaises(task: Task)
    | Started(task: Task)
    | StartRaises(task: Task)
    | Register(task: Task)
    | Discarded(task: Task)
    | CallClose(task: Task)
    | CloseOne(task: Task, closes: bool)
    | FinishClose(task: Task)

  /** The task stands inside the per-user lock. */
  predicate Inside(p: Phase, lock: LockId) {
    match p
    case Creating(_, l) => l == lock
    case Starting(_, l, _) => l == lock
    case Registering(_, l, _) => l == lock
    case Discarding(_, l, _) => l == lock
    case _ => false
  }

  predicate LockFree(r: Registry, lock: LockId) {
    forall t :: t in r.tasks ==> !Inside(r.tasks[t], lock)
  }

  /** A lock object that nobody has seen. */
  predicate FreshLock(r: Registry, lock: LockId) {
    && lock !in r.locks.Values
    && forall t :: t in r.tasks ==> !Inside(r.tasks[t], lock) && !(r.tasks[t].Waiting? && r.tasks[t].lock == lock)
  }

  predicate Enabled(r: Registry, step: Step) {
    match step
    case CallServiceFor(t, _) => t !in r.tasks
    case CallClose(t) => t !in r.tasks
    case _ =>
      && step.task in r.tasks
      && var p := r.tasks[step.task];
      match step
      case GetLock(_, newLock) => p.WantsLock? && FreshLock(r, newLock)
      case Enter(_) => p.Waiting? && LockFree(r, p.lock)
      case FactoryReturns(_, s) => p.Creating? && s !in r.made
      case FactoryRaises(_) => p.Creating?
      case Started(_) => p.Starting?
      case StartRaises(_) => p.Starting?
      case Register(_) => p.Registering?
      case Discarded(_) => p.Discarding?
      case CloseOne(_, _) => p.Closing? && p.todo != []
      case FinishClose(_) => p.Closing? && p.todo == []
      case _ => false
  }

  function Leave(r: Registry, t: Task): Registry {
    r.(tasks := r.tasks - {t})
  }

  function Go(r: Registry, t: Task, p: Phase): Registry {
    r.(tasks := r.tasks[t := p])
  }

  /** A list of all registered services, whatever its order. */
  ghost predicate Lists(services: map<User, Service>, list: seq<(User, Service)>) {
    && (forall x :: x in list ==> x.0 in services && services[x.0] == x.1)
    && (forall u :: u in services ==> (u, services[u]) in list)
    && forall i, j :: 0 <= i < j < |list| ==> list[i].0 != list[j].0
  }

  function Restored(services: map<User, Service>, failed: seq<(User, Service)>): map<User, Service>
    decreases |failed|
  {
    if failed == [] then services
    else Restored(services, failed[..|failed| - 1])[failed[|failed| - 1].0 := failed[|failed| - 1].1]
  }

  /** One step of one task. Code between two awaits runs without interruption. */
  ghost predicate Next(r: Registry, step: Step, r': Registry) {
    && Enabled(r, step)
    && match step
       case CallServiceFor(t, u) =>
         r' == if r.closed || u in r.services then r else Go(r, t, WantsLock(u))
       case GetLock(t, newLock) =>
         var u := r.tasks[t].user;
         if u in r.locks then r' == Go(r, t, Waiting(u, r.locks[u]))
         else r' == Go(r, t, Waiting(u, newLock)).(locks := r.locks[u := newLock])
       case Enter(t) =>
         var u, l := r.tasks[t].user, r.tasks[t].lock;
         r' == if r.closed || u in r.services then Leave(r, t) else Go(r, t, Creating(u, l))
       case FactoryReturns(t, s) =>
         r' == Go(r, t, Starting(r.tasks[t].user, r.tasks[t].lock, s)).(made := r.made + {s})
       case FactoryRaises(t) => r' == Leave(r, t)
       case Started(t) => r' == Go(r, t, Registering(r.tasks[t].user, r.tasks[t].lock, r.tasks[t].service))
       case StartRaises(t) => r' == Go(r, t, Discarding(r.tasks[t].user, r.tasks[t].lock, r.tasks[t].service))
       case Register(t) =>
         var u, l, s := r.tasks[t].user, r.tasks[t].lock, r.tasks[t].service;
         r' == if r.closed then Go(r, t, Discarding(u, l, s))
               else Leave(r, t).(services := r.services[u := s], registered := r.registered + {s})
       case Discarded(t) => r' == Leave(r, t)
       case CallClose(t) =>
         if r.closed && r.services == map[] then r' == r
         else
           && r'.tasks.Keys == r.tasks.Keys + {t} && r'.tasks[t].Closing? && r'.tasks[t].failed == []
           && Lists(r.services, r'.tasks[t].todo)
           && r' == Go(r, t, r'.tasks[t]).(closed := true, services := map[])
       case CloseOne(t, closes) =>
         var p := r.tasks[t];
         r' == Go(r, t, Closing(p.todo[..|p.todo| - 1], if closes then p.failed else p.failed + [p.todo[|p.todo| - 1]]))
       case FinishClose(t) =>
         r' == if r.tasks[t].failed != [] then Leave(r, t).(services := Restored(r.services, r.tasks[t].failed))
               else Leave(r, t).(locks := map[])
  }

  /** An interleaving: every state follows from the one before it. */
  ghost predicate Trace(states: seq<Registry>, steps: seq<Step>) {
    && |states| == |steps| + 1 && states[0] == START
    && forall k :: 0 <= k < |steps| ==> Next(states[k], steps[k], states[k + 1])
  }

  // ----- what every step keeps ---------------------------------------------------------------------

  /** The task has passed the checks for its user and its service is not yet given up. */
  predicate Bringing(p: Phase, u: User) {
    (p.Creating? || p.Starting? || p.Registering?) && p.user == u
  }

  predicate Holding(p: Phase) {
    p.Creating? || p.Starting? || p.Registering? || p.Discarding?
  }

  /** asyncio.Lock: two tasks are never inside the same lock. */
  ghost predicate Exclusive(r: Registry) {
    forall a, b | a in r.tasks && b in r.tasks && Holding(r.tasks[a]) && Holding(r.tasks[b]) ::
      r.tasks[a].lock == r.tasks[b].lock ==> a == b
  }

  /** Until the registry closes, a task's lock is its user's lock. */
  ghost predicate OneLockEach(r: Registry) {
    !r.closed ==> forall t :: t in r.tasks && (Holding(r.tasks[t]) || r.tasks[t].Waiting?) ==>
                    r.tasks[t].user in r.locks && r.locks[r.tasks[t].user] == r.tasks[t].lock
  }

  ghost predicate ClosersClose(r: Registry) {
    !r.closed ==> forall t :: t in r.tasks ==> !r.tasks[t].Closing?
  }

  /** No service of the user is registered, or on its way back from a close. */
  ghost predicate Absent(r: Registry, u: User) {
    && u !in r.services
    && forall t :: t in r.tasks && r.tasks[t].Closing? ==> forall x :: x in r.tasks[t].todo + r.tasks[t].failed ==> x.0 != u
  }

  /** Each user has at most one service that is being brought up or is registered. */
  ghost predicate OnePerUser(r: Registry) {
    && (forall a, b, u | a in r.tasks && b in r.tasks && Bringing(r.tasks[a], u) && Bringing(r.tasks[b], u) :: a == b)
    && (forall t, u :: t in r.tasks && Bringing(r.tasks[t], u) ==> Absent(r, u))
  }

  /** What is registered, or on a closer's list, was registered while the registry was open. */
  ghost predicate Known(r: Registry) {
    && (forall u :: u in r.services ==> r.services[u] in r.registered)
    && (forall t :: t in r.tasks && r.tasks[t].Closing? ==>
          (forall x :: x in r.tasks[t].todo + r.tasks[t].failed ==> x.1 in r.registered))
  }

  /** A service in the hands of a task is its alone and not registered. */
  ghost predicate Unshared(r: Registry) {
    && r.registered <= r.made
    && (forall t :: t in r.tasks && InHand(r.tasks[t]) ==> r.tasks[t].service in r.made && r.tasks[t].service !in r.registered)
    && (forall a, b | a in r.tasks && b in r.tasks && InHand(r.tasks[a]) && InHand(r.tasks[b]) ::
          r.tasks[a].service == r.tasks[b].service ==> a == b)
  }

  predicate InHand(p: Phase) {
    p.Starting? || p.Registering? || p.Discarding?
  }

  ghost predicate Inv(r: Registry) {
    Exclusive(r) && OneLockEach(r) && ClosersClose(r) && OnePerUser(r) && Known(r) && Unshared(r)
  }

  lemma ExclusiveStep(r: Registry, step: Step, r': Registry)
    requires Exclusive(r) && Next(r, step, r')
    ensures Exclusive(r')
  {
    hide FreshLock, Lists, Restored;
  }

  lemma OneLockStep(r: Registry, step: Step, r': Registry)
    requires OneLockEach(r) && ClosersClose(r) && Next(r, step, r')
    ensures OneLockEach(r') && ClosersClose(r')
  {
    hide FreshLock, LockFree, Lists, Restored;
  }

  lemma OnePerUserStep(r: Registry, step: Step, r': Registry)
    requires Exclusive(r) && OneLockEach(r) && ClosersClose(r) && OnePerUser(r) && Next(r, step, r')
    ensures OnePerUser(r')
  {
    hide FreshLock, Lists, Restored, Absent;
    forall t, u | t in r'.tasks && Bringing(r'.tasks[t], u)
      ensures Absent(r', u)
    {
      if step.Enter? && step.task == t {
        EnterAbsent(r, step, r', u);
      } else {
        assert t in r.tasks && Bringing(r.tasks[t], u);
        StaysAbsent(r, step, r', t, u);
      }
    }
  }

  lemma EnterAbsent(r: Registry, step: Step, r': Registry, u: User)
    requires ClosersClose(r) && step.Enter? && Next(r, step, r') && step.task in r'.tasks && Bringing(r'.tasks[step.task], u)
    ensures Absent(r', u)
  {
    hide FreshLock, LockFree, Lists, Restored;
  }

  lemma StaysAbsent(r: Registry, step: Step, r': Registry, t: Task, u: User)
    requires Absent(r, u) && OnePerUser(r) && Next(r, step, r') && t in r.tasks && t in r'.tasks
    requires Bringing(r.tasks[t], u) && Bringing(r'.tasks[t], u)
    ensures Absent(r', u)
  {
    hide FreshLock, LockFree, Restored;
    if step.FinishClose? {
      RestoredFrom(r.services, r.tasks[step.task].failed);
      assert forall x :: x in r.tasks[step.task].failed ==> x in r.tasks[step.task].todo + r.tasks[step.task].failed;
    } else if step.CloseOne? {
      var p := r.tasks[step.task];
      assert p.todo[|p.todo| - 1] in p.todo + p.failed;
      assert forall x :: x in p.todo[..|p.todo| - 1] ==> x in p.todo + p.failed;
      assert forall x :: x in p.failed ==> x in p.todo + p.failed;
      assert forall x :: x in r'.tasks[step.task].todo + r'.tasks[step.task].failed ==> x in p.todo + p.failed;
    }
  }

  lemma KnownStep(r: Registry, step: Step, r': Registry)
    requires Known(r) && Next(r, step, r')
    ensures Known(r')
  {
    hide FreshLock, LockFree, Restored;
    if step.FinishClose? {
      RestoredFrom(r.services, r.tasks[step.task].failed);
    } else if step.CloseOne? {
      CloseOneStep(r, step, r');
    }
  }

  lemma CloseOneStep(r: Registry, step: Step, r': Registry)
    requires Known(r) && step.CloseOne? && Next(r, step, r')
    ensures forall x :: x in r'.tasks[step.task].todo + r'.tasks[step.task].failed ==> x.1 in r.registered
  {
    var p := r.tasks[step.task];
    assert p.todo[|p.todo| - 1] in p.todo + p.failed;
    assert forall x :: x in p.todo[..|p.todo| - 1] ==> x in p.todo;
  }

  lemma {:induction false} RestoredFrom(services: map<User, Service>, failed: seq<(User, Service)>)
    ensures forall u :: u in Restored(services, failed) ==>
              (u in services && Restored(services, failed)[u] == services[u]) || (u, Restored(services, failed)[u]) in failed
    decreases |failed|
  {
    if failed != [] {
      RestoredFrom(services, failed[..|failed| - 1]);
    }
  }

  lemma UnsharedStep(r: Registry, step: Step, r': Registry)
    requires Unshared(r) && Next(r, step, r')
    ensures Unshared(r')
  {
    hide FreshLock, LockFree, Lists, Restored;
  }

  lemma StepKeeps(r: Registry, step: Step, r': Registry)
    requires Inv(r) && Next(r, step, r')
    ensures Inv(r')
  {
    hide Exclusive, OneLockEach, ClosersClose, OnePerUser, Known, Unshared, Next;
    ExclusiveStep(r, step, r');
    OneLockStep(r, step, r');
    OnePerUserStep(r, step, r');
    KnownStep(r, step, r');
    UnsharedStep(r, step, r');
  }

  lemma {:induction false} TracesKeep(states: seq<Registry>, steps: seq<Step>, k: nat)
    requires Trace(states, steps) && k < |states|
    ensures Inv(states[k])
  {
    hide Next, Inv;
    if k == 0 {
      StartHolds();
    } else {
      TracesKeep(states, steps, k - 1);
      assert Next(states[k - 1], steps[k - 1], states[k]);
      StepKeeps(states[k - 1], steps[k - 1], states[k]);
    }
  }

  lemma StartHolds()
    ensures Inv(START)
  {
  }

  // ----- theorems ------------------------------------------------------------------------------------

  /** Whatever the interleaving, a user has at most one service that is being created or is registered. */
  lemma OneServicePerUser(states: seq<Registry>, steps: seq<Step>, k: nat, a: Task, b: Task, u: User)
    requires Trace(states, steps) && k < |states|
    requires a in states[k].tasks && Bringing(states[k].tasks[a], u)
    ensures b in states[k].tasks && Bringing(states[k].tasks[b], u) ==> a == b
    ensures u !in states[k].services
  {
    hide Trace, Inv;
    TracesKeep(states, steps, k);
    OneOf(states[k], a, b, u);
  }

  lemma OneOf(r: Registry, a: Task, b: Task, u: User)
    requires Inv(r) && a in r.tasks && Bringing(r.tasks[a], u)
    ensures b in r.tasks && Bringing(r.tasks[b], u) ==> a == b
    ensures u !in r.services
  {
    hide Exclusive, OneLockEach, ClosersClose, Known, Unshared;
    assert Absent(r, u);
  }

  /** No two users share a lock. */
  ghost predicate OwnLocks(r: Registry) {
    forall u, v :: u in r.locks && v in r.locks && r.locks[u] == r.locks[v] ==> u == v
  }

  lemma OwnLocksStep(r: Registry, step: Step, r': Registry)
    requires OwnLocks(r) && Next(r, step, r')
    ensures OwnLocks(r')
  {
    hide LockFree, Lists, Restored;
  }

  /** In every run, two users never have the same lock. */
  lemma {:induction false} EachUserHasItsLock(states: seq<Registry>, steps: seq<Step>, k: nat)
    requires Trace(states, steps) && k < |states|
    ensures forall u, v :: u in states[k].locks && v in states[k].locks && states[k].locks[u] == states[k].locks[v] ==> u == v
  {
    hide Next;
    if k > 0 {
      EachUserHasItsLock(states, steps, k - 1);
      assert Next(states[k - 1], steps[k - 1], states[k]);
      OwnLocksStep(states[k - 1], steps[k - 1], states[k]);
    }
  }

  /** In every run, two tasks are never at once past the same lock, from the factory up to the end of a discarded service's close. */
  lemma LocksExclude(states: seq<Registry>, steps: seq<Step>, k: nat, a: Task, b: Task)
    requires Trace(states, steps) && k < |states| && a in states[k].tasks && b in states[k].tasks
    requires var p := states[k].tasks[a]; p.Creating? || p.Starting? || p.Registering? || p.Discarding?
    requires var q := states[k].tasks[b]; q.Creating? || q.Starting? || q.Registering? || q.Discarding?
    requires states[k].tasks[a].lock == states[k].tasks[b].lock
    ensures a == b
  {
    hide Trace, Inv;
    TracesKeep(states, steps, k);
    ExclusiveNow(states[k]);
  }

  lemma ExclusiveNow(r: Registry)
    requires Inv(r)
    ensures Exclusive(r)
  {
    hide OneLockEach, ClosersClose, OnePerUser, Known, Unshared;
  }

  lemma ClosedStays(states: seq<Registry>, steps: seq<Step>, j: nat, k: nat)
    requires Trace(states, steps) && j <= k < |states| && states[j].closed
    ensures states[k].closed && states[k].registered == states[j].registered
    decreases k - j
  {
    hide Next;
    if j < k {
      ClosedStays(states, steps, j, k - 1);
      assert Next(states[k - 1], steps[k - 1], states[k]);
      ClosedStep(states[k - 1], steps[k - 1], states[k]);
    }
  }

  lemma ClosedStep(r: Registry, step: Step, r': Registry)
    requires Next(r, step, r') && r.closed
    ensures r'.closed && r'.registered == r.registered
  {
    hide FreshLock, LockFree, Lists, Restored;
  }

  /**
   Once the registry is closed nothing new gets in: every service registered later on,
   the ones a failed close puts back included, was registered while it was open, and a
   service still starting then is never registered.
   */
  lemma NothingRegisteredOnceClosed(states: seq<Registry>, steps: seq<Step>, j: nat, k: nat)
    requires Trace(states, steps) && j <= k < |states| && states[j].closed
    ensures forall u :: u in states[k].services ==> states[k].services[u] in states[j].registered
    ensures forall t :: t in states[j].tasks && InHand(states[j].tasks[t]) ==>
              forall u :: u in states[k].services ==> states[k].services[u] != states[j].tasks[t].service
  {
    hide Trace, Inv;
    TracesKeep(states, steps, k);
    TracesKeep(states, steps, j);
    ClosedStays(states, steps, j, k);
    KnownNow(states[k]);
    HandsNow(states[j]);
  }

  lemma KnownNow(r: Registry)
    requires Inv(r)
    ensures forall u :: u in r.services ==> r.services[u] in r.registered
  {
    hide Exclusive, OneLockEach, ClosersClose, OnePerUser, Unshared;
  }

  lemma HandsNow(r: Registry)
    requires Inv(r)
    ensures forall t :: t in r.tasks && InHand(r.tasks[t]) ==> r.tasks[t].service !in r.registered
  {
    hide Exclusive, OneLockEach, ClosersClose, OnePerUser, Known;
  }

  // ----- what the callers get ------------------------------------------------------------------------

  /** What a step tells the caller whose task it is: nothing yet, a service, an error, or that the registry is closed. */
  datatype Reply = Pending | Serves(service: Service) | Fails | ClosedNow

  function ReplyTo(r: Registry, step: Step): Reply
    requires Enabled(r, step)
  {
    match step
    case CallServiceFor(_, u) => if r.closed then Fails else if u in r.services then Serves(r.services[u]) else Pending
    case Enter(t) =>
      if r.closed then Fails else if r.tasks[t].user in r.services then Serves(r.services[r.tasks[t].user]) else Pending
    case FactoryRaises(_) => Fails
    case Register(t) => if r.closed then Pending else Serves(r.tasks[t].service)
    case Discarded(_) => Fails
    case CallClose(_) => if r.closed && r.services == map[] then ClosedNow else Pending
    case FinishClose(t) => if r.tasks[t].failed != [] then Fails else ClosedNow
    case _ => Pending
  }

  /** The user whose call the step answers with this service. */
  ghost predicate ServedBy(r: Registry, step: Step, u: User, s: Service) {
    && Enabled(r, step) && ReplyTo(r, step) == Serves(s)
    && match step
       case CallServiceFor(_, v) => v == u
       case Enter(t) => r.tasks[t].user == u
       case Register(t) => r.tasks[t].user == u
       case _ => false
  }

  /**
   A registered service is handed out at once, to a new caller and to one that waited for the
   lock, and nothing changes but that the caller goes.
   */
  lemma RegisteredIsServed(r: Registry, t: Task, u: User)
    requires !r.closed && u in r.services
    ensures t !in r.tasks ==>
              ServedBy(r, CallServiceFor(t, u), u, r.services[u]) && Next(r, CallServiceFor(t, u), r)
    ensures t in r.tasks && r.tasks[t].Waiting? && r.tasks[t].user == u && LockFree(r, r.tasks[t].lock) ==>
              ServedBy(r, Enter(t), u, r.services[u]) && Next(r, Enter(t), r.(tasks := r.tasks - {t}))
  {
    hide LockFree;
  }

  /** Once closed, a call fails, whether it is new or waited for the lock; a second close has nothing to do once every service is closed. */
  lemma ClosedRefuses(r: Registry, t: Task, u: User)
    requires r.closed
    ensures t !in r.tasks ==>
              ReplyTo(r, CallServiceFor(t, u)) == Fails && Next(r, CallServiceFor(t, u), r)
    ensures t in r.tasks && r.tasks[t].Waiting? && LockFree(r, r.tasks[t].lock) ==>
              ReplyTo(r, Enter(t)) == Fails && Next(r, Enter(t), r.(tasks := r.tasks - {t}))
    ensures t !in r.tasks && r.services == map[] ==> ReplyTo(r, CallClose(t)) == ClosedNow && Next(r, CallClose(t), r)
    ensures t !in r.tasks && r.services != map[] ==> ReplyTo(r, CallClose(t)) == Pending
  {
    hide LockFree;
  }

  lemma ServedIsRegistered(r: Registry, step: Step, r': Registry, u: User, s: Service)
    requires Next(r, step, r') && ServedBy(r, step, u, s)
    ensures !r.closed && !r'.closed && u in r'.services && r'.services[u] == s
    ensures u in r.services ==> r.services[u] == s || step.Register?
  {
    hide FreshLock, LockFree, Lists, Restored;
  }

  lemma RegisteredStays(r: Registry, step: Step, r': Registry, u: User)
    requires ClosersClose(r) && OnePerUser(r) && Next(r, step, r') && !r'.closed && u in r.services
    ensures u in r'.services && r'.services[u] == r.services[u]
  {
    hide FreshLock, LockFree, Lists, Restored, Absent;
    if step.Register? {
      var p := r.tasks[step.task];
      assert Bringing(p, p.user);
      NotRegistered(r, p.user);
    }
  }

  lemma NotRegistered(r: Registry, u: User)
    requires Absent(r, u)
    ensures u !in r.services
  {
  }

  lemma {:induction false} StaysRegistered(states: seq<Registry>, steps: seq<Step>, j: nat, k: nat, u: User)
    requires Trace(states, steps) && j <= k < |states| && !states[k].closed && u in states[j].services
    ensures u in states[k].services && states[k].services[u] == states[j].services[u]
    decreases k - j
  {
    hide Next, Exclusive, OneLockEach, ClosersClose, OnePerUser, Known, Unshared;
    if j < k {
      if states[k - 1].closed {
        ClosedStays(states, steps, k - 1, k);
      }
      StaysRegistered(states, steps, j, k - 1, u);
      TracesKeep(states, steps, k - 1);
      assert Next(states[k - 1], steps[k - 1], states[k]);
      RegisteredStays(states[k - 1], steps[k - 1], states[k], u);
    }
  }

  /** In every run, whoever is served for a user gets the one service that is registered for that user. */
  lemma EveryoneGetsTheSameService(states: seq<Registry>, steps: seq<Step>, j: nat, k: nat, u: User, x: Service, y: Service)
    requires Trace(states, steps) && j <= k < |steps|
    requires ServedBy(states[j], steps[j], u, x) && ServedBy(states[k], steps[k], u, y)
    ensures x == y && u in states[k + 1].services && states[k + 1].services[u] == x
  {
    hide Next, ServedBy, Inv;
    assert Next(states[j], steps[j], states[j + 1]) && Next(states[k], steps[k], states[k + 1]);
    ServedIsRegistered(states[j], steps[j], states[j + 1], u, x);
    ServedIsRegistered(states[k], steps[k], states[k + 1], u, y);
    StaysRegistered(states, steps, j + 1, k + 1, u);
  }

  // ----- calls that are alone ----------------------------------------------------------------------------

  /** A run of steps from one registry to another. */
  ghost predicate Path(states: seq<Registry>, steps: seq<Step>) {
    |states| == |steps| + 1 && forall k :: 0 <= k < |steps| ==> Next(states[k], steps[k], states[k + 1])
  }

  /** The task's own steps, as far as they depend on nothing else. */
  lemma OwnSteps(r: Registry, t: Task, u: User, l: LockId, s: Service)
    requires !r.closed && u !in r.services
    ensures t !in r.tasks ==> Next(r, CallServiceFor(t, u), Go(r, t, WantsLock(u)))
    ensures t in r.tasks && r.tasks[t] == Waiting(u, l) && LockFree(r, l) ==> Next(r, Enter(t), Go(r, t, Creating(u, l)))
    ensures t in r.tasks && r.tasks[t] == Creating(u, l) && s !in r.made ==>
              Next(r, FactoryReturns(t, s), Go(r, t, Starting(u, l, s)).(made := r.made + {s}))
    ensures t in r.tasks && r.tasks[t] == Starting(u, l, s) ==> Next(r, Started(t), Go(r, t, Registering(u, l, s)))
    ensures t in r.tasks && r.tasks[t] == Registering(u, l, s) ==>
              && Next(r, Register(t), Leave(r, t).(services := r.services[u := s], registered := r.registered + {s}))
              && ServedBy(r, Register(t), u, s)
  {
    hide LockFree, FreshLock, Lists, Restored;
  }

  /** The lock of the user, or a new one for a user without any. */
  function LockOf(r: Registry, u: User, l: LockId): LockId {
    if u in r.locks then r.locks[u] else l
  }

  lemma LockStep(r: Registry, t: Task, u: User, l: LockId)
    requires t in r.tasks && r.tasks[t] == WantsLock(u) && FreshLock(r, l)
    ensures Next(r, GetLock(t, l), Go(r, t, Waiting(u, LockOf(r, u, l))).(locks := r.locks[u := LockOf(r, u, l)]))
  {
    hide FreshLock;
    if u in r.locks {
      assert r.locks[u := r.locks[u]] == r.locks;
    }
  }

  lemma WaitingOutside(r: Registry, r': Registry, t: Task, u: User, l: LockId)
    requires LockFree(r, l) && t !in r.tasks && r'.tasks == r.tasks[t := Waiting(u, l)]
    ensures LockFree(r', l)
  {
  }

  /** A call that finds the registry open and the user's lock free, and whose service starts, registers it and is served. */
  lemma LoneCallIsServed(r: Registry, t: Task, u: User, l: LockId, s: Service) returns (states: seq<Registry>, steps: seq<Step>)
    requires !r.closed && u !in r.services && t !in r.tasks && s !in r.made && FreshLock(r, l)
    requires u in r.locks ==> LockFree(r, r.locks[u])
    ensures Path(states, steps) && |steps| == 6 && states[0] == r && steps[0] == CallServiceFor(t, u)
    ensures ServedBy(states[5], steps[5], u, s)
    ensures states[6].services == r.services[u := s] && states[6].tasks == r.tasks && states[6].registered == r.registered + {s}
  {
    var lock := LockOf(r, u, l);
    FreshIsFree(r, l);
    StillFresh(r, t, u, l);
    hide FreshLock, LockFree, Next, ServedBy, LockOf;
    var asked := Go(r, t, WantsLock(u));
    OwnSteps(r, t, u, lock, s);
    var waiting := Go(asked, t, Waiting(u, lock)).(locks := r.locks[u := lock]);
    LockStep(asked, t, u, l);
    assert waiting.tasks == r.tasks[t := Waiting(u, lock)];
    WaitingOutside(r, waiting, t, u, lock);
    var end;
    states, end := WaitingIsServed(waiting, t, u, lock, s);
    states := [r, asked] + states;
    steps := [CallServiceFor(t, u), GetLock(t, l), Enter(t), FactoryReturns(t, s), Started(t), Register(t)];
    assert forall k :: 0 <= k < 6 ==> Next(states[k], steps[k], states[k + 1]);
    assert end.tasks == r.tasks;
  }

  /** A waiting call that gets the lock, from there to its end. */
  lemma WaitingIsServed(r: Registry, t: Task, u: User, lock: LockId, s: Service) returns (states: seq<Registry>, end: Registry)
    requires !r.closed && u !in r.services && s !in r.made && t in r.tasks && r.tasks[t] == Waiting(u, lock) && LockFree(r, lock)
    ensures |states| == 5 && states[0] == r && states[4] == end
    ensures Next(states[0], Enter(t), states[1]) && Next(states[1], FactoryReturns(t, s), states[2])
    ensures Next(states[2], Started(t), states[3]) && Next(states[3], Register(t), end) && ServedBy(states[3], Register(t), u, s)
    ensures end == r.(tasks := r.tasks - {t}, services := r.services[u := s], made := r.made + {s}, registered := r.registered + {s})
  {
    hide LockFree, Next, ServedBy;
    var creating := Go(r, t, Creating(u, lock));
    OwnSteps(r, t, u, lock, s);
    var starting := Go(creating, t, Starting(u, lock, s)).(made := r.made + {s});
    OwnSteps(creating, t, u, lock, s);
    var started := Go(starting, t, Registering(u, lock, s));
    OwnSteps(starting, t, u, lock, s);
    end := Leave(started, t).(services := r.services[u := s], registered := r.registered + {s});
    OwnSteps(started, t, u, lock, s);
    assert started.tasks - {t} == r.tasks - {t};
    states := [r, creating, starting, started, end];
  }

  /** From the start there is a run that serves a caller. */
  lemma OneRunServes(t: Task, u: User, l: LockId, s: Service) returns (states: seq<Registry>, steps: seq<Step>)
    ensures Trace(states, steps) && |steps| == 6 && ServedBy(states[5], steps[5], u, s)
    ensures states[0] == Registry(false, map[], map[], map[], {}, {})
  {
    hide Next, ServedBy;
    states, steps := LoneCallIsServed(START, t, u, l, s);
  }

  lemma FreshIsFree(r: Registry, l: LockId)
    requires FreshLock(r, l)
    ensures LockFree(r, l)
  {
  }

  lemma StillFresh(r: Registry, t: Task, u: User, l: LockId)
    requires FreshLock(r, l) && t !in r.tasks
    ensures FreshLock(Go(r, t, WantsLock(u)), l)
  {
  }

  /** A service that fails to start is closed, its call fails, and nothing is registered. */
  lemma FailedStartIsDiscarded(r: Registry, t: Task) returns (states: seq<Registry>, steps: seq<Step>)
    requires t in r.tasks && r.tasks[t].Starting?
    ensures Path(states, steps) && states[0] == r && steps == [StartRaises(t), Discarded(t)]
    ensures Enabled(states[1], steps[1]) && ReplyTo(states[1], steps[1]) == Fails
    ensures states[2] == r.(tasks := r.tasks - {t})
  {
    var p := r.tasks[t];
    var discarding := Go(r, t, Discarding(p.user, p.lock, p.service));
    states, steps := [r, discarding, Leave(discarding, t)], [StartRaises(t), Discarded(t)];
    assert discarding.tasks - {t} == r.tasks - {t};
  }

  /** The services of a list whose close fails. */
  function FailedOf(list: seq<(User, Service)>, closes: User -> bool): seq<(User, Service)>
    decreases |list|
  {
    if list == [] then []
    else
      var last := list[|list| - 1];
      (if closes(last.0) then [] else [last]) + FailedOf(list[..|list| - 1], closes)
  }

  lemma {:induction false} FailedAre(list: seq<(User, Service)>, closes: User -> bool)
    ensures forall x :: x in FailedOf(list, closes) <==> x in list && !closes(x.0)
    decreases |list|
  {
    if list != [] {
      FailedAre(list[..|list| - 1], closes);
      assert list == list[..|list| - 1] + [list[|list| - 1]];
    }
  }

  lemma CloseStep(r: Registry, t: Task, todo: seq<(User, Service)>, failed: seq<(User, Service)>, x: (User, Service), closes: bool)
    requires t in r.tasks && r.tasks[t] == Closing(todo + [x], failed)
    ensures Next(r, CloseOne(t, closes), Go(r, t, Closing(todo, if closes then failed else failed + [x])))
  {
    assert (todo + [x])[..|todo + [x]| - 1] == todo;
  }

  /** Closing goes through the whole list. */
  lemma {:induction false} CloseGoesOn(r: Registry, t: Task, todo: seq<(User, Service)>, failed: seq<(User, Service)>, closes: User -> bool)
    returns (states: seq<Registry>, steps: seq<Step>)
    requires t in r.tasks && r.tasks[t] == Closing(todo, failed)
    ensures Path(states, steps) && |states| == |steps| + 1 && states[0] == r
    ensures states[|steps|] == Go(r, t, Closing([], failed + FailedOf(todo, closes)))
    decreases |todo|
  {
    if todo == [] {
      states, steps := [r], [];
      assert failed + [] == failed && r.tasks[t := Closing(todo, failed)] == r.tasks;
    } else {
      var front, last := todo[..|todo| - 1], todo[|todo| - 1];
      assert todo == front + [last];
      var closed := closes(last.0);
      var failed' := if closed then failed else failed + [last];
      FailedSnoc(front, last, failed, closes);
      GoTwice(r, t, Closing(front, failed'), Closing([], failed' + FailedOf(front, closes)));
      hide Next, Path, FailedOf, Go;
      var mid := Go(r, t, Closing(front, failed'));
      CloseStep(r, t, front, failed, last, closed);
      var restStates, restSteps := CloseGoesOn(mid, t, front, failed', closes);
      states, steps := [r] + restStates, [CloseOne(t, closed)] + restSteps;
      assert |restStates| == |restSteps| + 1 by {
        PathSize(restStates, restSteps);
      }
      PathGrows(r, CloseOne(t, closed), restStates, restSteps);
      assert states[|steps|] == restStates[|restSteps|];
    }
  }

  lemma GoTwice(r: Registry, t: Task, p: Phase, q: Phase)
    ensures Go(Go(r, t, p), t, q) == Go(r, t, q) && t in Go(r, t, p).tasks && Go(r, t, p).tasks[t] == p
  {
    assert r.tasks[t := p][t := q] == r.tasks[t := q];
  }

  lemma FailedSnoc(front: seq<(User, Service)>, last: (User, Service), failed: seq<(User, Service)>, closes: User -> bool)
    ensures failed + FailedOf(front + [last], closes) ==
            (if closes(last.0) then failed else failed + [last]) + FailedOf(front, closes)
  {
    assert (front + [last])[..|front|] == front;
  }

  lemma PathSize(states: seq<Registry>, steps: seq<Step>)
    requires Path(states, steps)
    ensures |states| == |steps| + 1
  {
    hide Next;
  }

  lemma PathGrows(r: Registry, first: Step, states: seq<Registry>, steps: seq<Step>)
    requires Path(states, steps) && Next(r, first, states[0])
    ensures Path([r] + states, [first] + steps)
  {
    hide Next;
    var allStates, allSteps := [r] + states, [first] + steps;
    forall k | 0 <= k < |allSteps|
      ensures Next(allStates[k], allSteps[k], allStates[k + 1])
    {
      if k > 0 {
        assert allStates[k] == states[k - 1] && allSteps[k] == steps[k - 1] && allStates[k + 1] == states[k];
      }
    }
  }

  lemma {:induction false} RestoredAre(services: map<User, Service>, failed: seq<(User, Service)>)
    ensures forall u :: u in Restored(services, failed) <==> u in services || exists i :: 0 <= i < |failed| && failed[i].0 == u
    decreases |failed|
  {
    if failed != [] {
      RestoredAre(services, failed[..|failed| - 1]);
    }
  }

  lemma FailedAreBack(services: map<User, Service>, list: seq<(User, Service)>, closes: User -> bool)
    requires Lists(services, list)
    ensures Restored(map[], FailedOf(list, closes)) == map u | u in services && !closes(u) :: services[u]
    ensures FailedOf(list, closes) == [] <==> forall u :: u in services ==> closes(u)
  {
    var failed := FailedOf(list, closes);
    FailedAre(list, closes);
    RestoredAre(map[], failed);
    RestoredFrom(map[], failed);
    assert forall i :: 0 <= i < |failed| ==> failed[i] in failed;
    forall u
      ensures (exists i :: 0 <= i < |failed| && failed[i].0 == u) <==> u in services && !closes(u)
    {
      if u in services && !closes(u) {
        assert (u, services[u]) in failed;
        var i :| 0 <= i < |failed| && failed[i] == (u, services[u]);
      }
    }
    if failed != [] {
      assert failed[0] in list;
    }
  }

  /**
   A close that is alone closes every service once, last registered first: those that close
   are gone, those that do not are registered again and the close fails, and the per-user
   locks go only when every service is closed.
   */
  lemma LoneClose(r: Registry, t: Task, list: seq<(User, Service)>, closes: User -> bool)
    returns (states: seq<Registry>, steps: seq<Step>)
    requires t !in r.tasks && Lists(r.services, list) && !(r.closed && r.services == map[])
    ensures Path(states, steps) && states[0] == r && |steps| > 1 && steps[0] == CallClose(t) && steps[|steps| - 1] == FinishClose(t)
    ensures var end := states[|steps|];
            && end.closed && end.tasks == r.tasks
            && end.services == (map u | u in r.services && !closes(u) :: r.services[u])
            && end.locks == (if forall u :: u in r.services ==> closes(u) then map[] else r.locks)
    ensures |states| == |steps| + 1 && Enabled(states[|steps| - 1], FinishClose(t))
    ensures ReplyTo(states[|steps| - 1], FinishClose(t)) == if forall u :: u in r.services ==> closes(u) then ClosedNow else Fails
  {
    hide Next, Lists, Restored;
    var asked := Go(r, t, Closing(list, [])).(closed := true, services := map[]);
    CloseStarts(r, t, list);
    var restStates, restSteps := CloseGoesOn(asked, t, list, [], closes);
    var failed := FailedOf(list, closes);
    assert [] + failed == failed;
    FailedAreBack(r.services, list, closes);
    var closed := restStates[|restSteps|];
    CloseEnds(closed, t, failed);
    var end := if failed != [] then Leave(closed, t).(services := Restored(closed.services, failed)) else Leave(closed, t).(locks := map[]);
    states := [r] + restStates + [end];
    steps := [CallClose(t)] + restSteps + [FinishClose(t)];
    PathJoined(r, restStates, end, CallClose(t), restSteps, FinishClose(t));
    assert closed.tasks - {t} == r.tasks;
  }

  lemma CloseStarts(r: Registry, t: Task, list: seq<(User, Service)>)
    requires t !in r.tasks && Lists(r.services, list) && !(r.closed && r.services == map[])
    ensures Next(r, CallClose(t), Go(r, t, Closing(list, [])).(closed := true, services := map[]))
  {
    hide Lists;
  }

  lemma CloseEnds(r: Registry, t: Task, failed: seq<(User, Service)>)
    requires t in r.tasks && r.tasks[t] == Closing([], failed)
    ensures Next(r, FinishClose(t), if failed != [] then Leave(r, t).(services := Restored(r.services, failed))
                                    else Leave(r, t).(locks := map[]))
  {
    hide Restored;
  }

  lemma PathJoined(r: Registry, states: seq<Registry>, end: Registry, first: Step, steps: seq<Step>, last: Step)
    requires Path(states, steps) && Next(r, first, states[0]) && Next(states[|steps|], last, end)
    ensures Path([r] + states + [end], [first] + steps + [last])
  {
    hide Next;
    var allStates, allSteps := [r] + states + [end], [first] + steps + [last];
    forall k | 0 <= k < |allSteps|
      ensures Next(allStates[k], allSteps[k], allStates[k + 1])
    {
      if 0 < k <= |steps| {
        assert allStates[k] == states[k - 1] && allSteps[k] == steps[k - 1] && allStates[k + 1] == states[k];
      }
    }
  }
}
