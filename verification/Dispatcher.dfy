/**
 The per-key mailbox dispatcher as a protocol: any number of callers of Submit and
 Shutdown, one worker per mailbox, the registry lock, one lock per mailbox, bounded
 channels, idle eviction and the wait group.

 Every step is one atomic action: taking a lock, a critical section up to and including
 the unlock that ends it, a channel operation, or the end of a submitted job.
 */
module Dispatcher {
  import opened Wrappers

  type Key = string

  /** A submitted job, by identity. */
  type Job = nat

  /** Who may hold a lock: a goroutine calling the dispatcher, or the worker of a mailbox. */
  datatype Agent = Caller(t: nat) | Worker(m: nat)

  datatype WorkerPc =
    | AtSelect               // in the select of runMailbox
    | RunningJob(job: Job)   // inside the submitted function
    | EvictWantsMailbox      // the idle timer fired; waits for the mailbox lock
    | EvictInMailbox         // holds the mailbox lock, about to look at closed and len(jobs)
    | EvictWantsRegistry     // still holds the mailbox lock, waits for the registry lock
    | EvictInRegistry        // holds both locks
    | Leaving                // returned from the loop, no lock held; wg.Done is still to come
    | Exited                 // left the wait group

  datatype CallerPc =
    | Idle
    | SubmitWantsRegistry(key: Key, job: Job)
    | SubmitInRegistry(key: Key, job: Job)
    | SubmitWantsMailbox(key: Key, job: Job, box: nat)
    | SubmitInMailbox(key: Key, job: Job, box: nat)   // holds the mailbox lock, about to test closed
    | SubmitInSelect(key: Key, job: Job, box: nat)    // holds the mailbox lock, sends or gives up
    | SubmitReturned(result: SubmitResult)
    | ShutdownWantsRegistry
    | ShutdownInRegistry
    | ShutdownNext(todo: set<nat>)                    // between two rounds of the closing loop
    | ShutdownWantsMailbox(box: nat, todo: set<nat>)
    | ShutdownInMailbox(box: nat, todo: set<nat>)
    | ShutdownWaiting(done: bool)                     // done: the wait group was seen at zero
    | ShutdownReturned(outcome: ShutdownResult)

  datatype SubmitResult = Accepted | ContextDone | DispatcherClosed
  datatype ShutdownResult = AlreadyClosed | Drained | GaveUp

  /** `closed` is the flag of the struct; `open` says whether the channel itself is still open. */
  datatype Mailbox = Mailbox(key: Key, jobs: seq<Job>, open: bool, closed: bool, mu: Option<Agent>, worker: WorkerPc)
  {
    /** The jobs this mailbox still owes, oldest first. */
    function Work(): seq<Job> {
      (if worker.RunningJob? then [worker.job] else []) + jobs
    }

    predicate OwesNothing() {
      !worker.RunningJob? && jobs == []
    }
  }

  /**
   `mailboxes` lists every mailbox ever created, in creation order. `accepted` and `finished`
   record, for each key, the jobs whose Submit returned nil and the jobs whose function returned.
   `panicked` is set by a send on a closed channel or a second close.
   */
  datatype State = State(
    capacity: nat,
    mailboxes: seq<Mailbox>,
    registry: map<Key, nat>,
    closed: bool,
    mu: Option<Agent>,
    waitGroup: int,
    callers: map<nat, CallerPc>,
    accepted: map<Key, seq<Job>>,
    finished: map<Key, seq<Job>>,
    panicked: bool)

  function Pc(s: State, t: nat): CallerPc {
    if t in s.callers then s.callers[t] else Idle
  }

  function At(history: map<Key, seq<Job>>, key: Key): seq<Job> {
    if key in history then history[key] else []
  }

  function Record(history: map<Key, seq<Job>>, key: Key, job: Job): map<Key, seq<Job>> {
    history[key := At(history, key) + [job]]
  }

  /** A dispatcher as the constructor returns it: a buffer size below one becomes one. */
  function New(buffer: int): State {
    State(if buffer <= 0 then 1 else buffer, [], map[], false, None, 0, map[], map[], map[], false)
  }

  datatype Step =
    | CallSubmit(t: nat, key: Key, job: Job)
    | CallShutdown(t: nat)
    | LockRegistry(t: nat)
    | LookUp(t: nat)                 // getOrCreateMailbox under the registry lock
    | BeginShutdown(t: nat)          // the first critical section of Shutdown
    | LockMailbox(t: nat)
    | CheckClosed(t: nat)            // Submit tests mb.closed
    | Send(t: nat)
    | CancelSubmit(t: nat)           // the caller's context is done while it waits to send
    | PickMailbox(t: nat, box: nat)  // the closing loop takes its next mailbox
    | CloseMailbox(t: nat)
    | StartWaiting(t: nat)
    | SeeDrained(t: nat)             // wg.Wait returned
    | ReturnDrained(t: nat)
    | GiveUp(t: nat)                 // the Shutdown context is done
    | Receive(m: nat)
    | ReceiveClosed(m: nat)
    | FinishJob(m: nat)
    | TimerFires(m: nat)
    | EvictLockMailbox(m: nat)
    | EvictCheck(m: nat)
    | EvictLockRegistry(m: nat)
    | EvictDecide(m: nat)
    | Leave(m: nat)                  // the deferred wg.Done

  predicate WorkerAt(s: State, m: nat, pc: WorkerPc) {
    m < |s.mailboxes| && s.mailboxes[m].worker == pc
  }

  predicate Enabled(s: State, step: Step) {
    match step
    case CallSubmit(t, _, _) => Pc(s, t).Idle? || Pc(s, t).SubmitReturned? || Pc(s, t).ShutdownReturned?
    case CallShutdown(t) => Pc(s, t).Idle? || Pc(s, t).SubmitReturned? || Pc(s, t).ShutdownReturned?
    case LockRegistry(t) => (Pc(s, t).SubmitWantsRegistry? || Pc(s, t).ShutdownWantsRegistry?) && s.mu.None?
    case LookUp(t) => Pc(s, t).SubmitInRegistry?
    case BeginShutdown(t) => Pc(s, t).ShutdownInRegistry?
    case LockMailbox(t) =>
      && (Pc(s, t).SubmitWantsMailbox? || Pc(s, t).ShutdownWantsMailbox?)
      && Pc(s, t).box < |s.mailboxes| && s.mailboxes[Pc(s, t).box].mu.None?
    case CheckClosed(t) => Pc(s, t).SubmitInMailbox? && Pc(s, t).box < |s.mailboxes|
    case Send(t) =>
      && Pc(s, t).SubmitInSelect? && Pc(s, t).box < |s.mailboxes|
      && (s.mailboxes[Pc(s, t).box].open ==> |s.mailboxes[Pc(s, t).box].jobs| < s.capacity)
    case CancelSubmit(t) => Pc(s, t).SubmitInSelect? && Pc(s, t).box < |s.mailboxes|
    case PickMailbox(t, box) => Pc(s, t).ShutdownNext? && box in Pc(s, t).todo
    case CloseMailbox(t) => Pc(s, t).ShutdownInMailbox? && Pc(s, t).box < |s.mailboxes|
    case StartWaiting(t) => Pc(s, t).ShutdownNext? && Pc(s, t).todo == {}
    case SeeDrained(t) => Pc(s, t) == ShutdownWaiting(false) && s.waitGroup == 0
    case ReturnDrained(t) => Pc(s, t) == ShutdownWaiting(true)
    case GiveUp(t) => Pc(s, t).ShutdownWaiting?
    case Receive(m) => WorkerAt(s, m, AtSelect) && s.mailboxes[m].jobs != []
    case ReceiveClosed(m) => WorkerAt(s, m, AtSelect) && s.mailboxes[m].jobs == [] && !s.mailboxes[m].open
    case FinishJob(m) => m < |s.mailboxes| && s.mailboxes[m].worker.RunningJob?
    case TimerFires(m) => WorkerAt(s, m, AtSelect)
    case EvictLockMailbox(m) => WorkerAt(s, m, EvictWantsMailbox) && s.mailboxes[m].mu.None?
    case EvictCheck(m) => WorkerAt(s, m, EvictInMailbox)
    case EvictLockRegistry(m) => WorkerAt(s, m, EvictWantsRegistry) && s.mu.None?
    case EvictDecide(m) => WorkerAt(s, m, EvictInRegistry)
    case Leave(m) => WorkerAt(s, m, Leaving)
  }

  function SetPc(s: State, t: nat, pc: CallerPc): State {
    s.(callers := s.callers[t := pc])
  }

  function SetBox(s: State, m: nat, box: Mailbox): State
    requires m < |s.mailboxes|
  {
    s.(mailboxes := s.mailboxes[m := box])
  }

  /** Each step is enabled exactly where its program counter stands and its lock or channel lets it pass. */
  function Apply(s: State, step: Step): State
    requires Enabled(s, step)
  {
    match step
    case CallSubmit(t, key, job) => SetPc(s, t, SubmitWantsRegistry(key, job))
    case CallShutdown(t) => SetPc(s, t, ShutdownWantsRegistry)
    case LockRegistry(t) => EnterRegistry(s, t)
    case LookUp(t) => GetOrCreateMailbox(s, t, Pc(s, t).key, Pc(s, t).job)
    case BeginShutdown(t) => TakeSnapshot(s, t)
    case LockMailbox(t) => EnterMailbox(s, t)
    case CheckClosed(t) => TestClosed(s, t)
    case Send(t) => SendJob(s, t)
    case CancelSubmit(t) => LeaveMailbox(s, t, SubmitReturned(ContextDone))
    case PickMailbox(t, box) => SetPc(s, t, ShutdownWantsMailbox(box, Pc(s, t).todo - {box}))
    case CloseMailbox(t) => CloseNext(s, t)
    case StartWaiting(t) => SetPc(s, t, ShutdownWaiting(false))
    case SeeDrained(t) => SetPc(s, t, ShutdownWaiting(true))
    case ReturnDrained(t) => SetPc(s, t, ShutdownReturned(Drained))
    case GiveUp(t) => SetPc(s, t, ShutdownReturned(GaveUp))
    case Receive(m) => StartJob(s, m)
    case ReceiveClosed(m) => SetBox(s, m, s.mailboxes[m].(worker := Leaving))
    case FinishJob(m) => EndJob(s, m)
    case TimerFires(m) => SetBox(s, m, s.mailboxes[m].(worker := EvictWantsMailbox))
    case EvictLockMailbox(m) => SetBox(s, m, s.mailboxes[m].(worker := EvictInMailbox, mu := Some(Worker(m))))
    case EvictCheck(m) => TestIdle(s, m)
    case EvictLockRegistry(m) =>
      SetBox(s, m, s.mailboxes[m].(worker := EvictInRegistry)).(mu := Some(Worker(m)))
    case EvictDecide(m) => TryEvict(s, m)
    case Leave(m) => SetBox(s, m, s.mailboxes[m].(worker := Exited)).(waitGroup := s.waitGroup - 1)
  }

  function EnterRegistry(s: State, t: nat): State
    requires Pc(s, t).SubmitWantsRegistry? || Pc(s, t).ShutdownWantsRegistry?
  {
    var pc := Pc(s, t);
    SetPc(s, t, if pc.SubmitWantsRegistry? then SubmitInRegistry(pc.key, pc.job) else ShutdownInRegistry).(
    mu := Some(Caller(t)))
  }

  /** The first critical section of Shutdown: it closes the dispatcher and takes the mailboxes over. */
  function TakeSnapshot(s: State, t: nat): State {
    if s.closed then
      SetPc(s, t, ShutdownReturned(AlreadyClosed)).(mu := None)
    else
      SetPc(s, t, ShutdownNext(s.registry.Values)).(mu := None, closed := true, registry := map[])
  }

  function EnterMailbox(s: State, t: nat): State
    requires Pc(s, t).SubmitWantsMailbox? || Pc(s, t).ShutdownWantsMailbox?
    requires Pc(s, t).box < |s.mailboxes|
  {
    var pc := Pc(s, t);
    SetPc(SetBox(s, pc.box, s.mailboxes[pc.box].(mu := Some(Caller(t)))), t,
          if pc.SubmitWantsMailbox? then SubmitInMailbox(pc.key, pc.job, pc.box)
          else ShutdownInMailbox(pc.box, pc.todo))
  }

  /** Unlocks the mailbox that caller `t` holds and moves on to `next`. */
  function LeaveMailbox(s: State, t: nat, next: CallerPc): State
    requires Pc(s, t).SubmitInMailbox? || Pc(s, t).SubmitInSelect? || Pc(s, t).ShutdownInMailbox?
    requires Pc(s, t).box < |s.mailboxes|
  {
    SetPc(SetBox(s, Pc(s, t).box, s.mailboxes[Pc(s, t).box].(mu := None)), t, next)
  }

  function TestClosed(s: State, t: nat): State
    requires Pc(s, t).SubmitInMailbox? && Pc(s, t).box < |s.mailboxes|
  {
    var pc := Pc(s, t);
    if s.mailboxes[pc.box].closed then LeaveMailbox(s, t, SubmitWantsRegistry(pc.key, pc.job))
    else SetPc(s, t, SubmitInSelect(pc.key, pc.job, pc.box))
  }

  /** The send of Submit and the unlock behind it. A send on a closed channel panics. */
  function SendJob(s: State, t: nat): State
    requires Pc(s, t).SubmitInSelect? && Pc(s, t).box < |s.mailboxes|
  {
    var pc := Pc(s, t);
    var box := s.mailboxes[pc.box];
    if box.open then
      SetPc(SetBox(s, pc.box, box.(mu := None, jobs := box.jobs + [pc.job])), t, SubmitReturned(Accepted)).(
      accepted := Record(s.accepted, pc.key, pc.job))
    else
      s.(panicked := true)
  }

  /** One round of the closing loop of Shutdown. Closing a closed channel panics. */
  function CloseNext(s: State, t: nat): State
    requires Pc(s, t).ShutdownInMailbox? && Pc(s, t).box < |s.mailboxes|
  {
    var pc := Pc(s, t);
    var box := s.mailboxes[pc.box];
    if box.closed then
      LeaveMailbox(s, t, ShutdownNext(pc.todo))
    else
      SetPc(SetBox(s, pc.box, box.(mu := None, closed := true, open := false)), t, ShutdownNext(pc.todo)).(
      panicked := s.panicked || !box.open)
  }

  function StartJob(s: State, m: nat): State
    requires m < |s.mailboxes| && s.mailboxes[m].jobs != []
  {
    var box := s.mailboxes[m];
    SetBox(s, m, box.(worker := RunningJob(box.jobs[0]), jobs := box.jobs[1..]))
  }

  function EndJob(s: State, m: nat): State
    requires m < |s.mailboxes| && s.mailboxes[m].worker.RunningJob?
  {
    var box := s.mailboxes[m];
    SetBox(s, m, box.(worker := AtSelect)).(finished := Record(s.finished, box.key, box.worker.job))
  }

  /** The first test of tryEvictMailbox, under the mailbox lock. */
  function TestIdle(s: State, m: nat): State
    requires m < |s.mailboxes|
  {
    var box := s.mailboxes[m];
    if box.closed || |box.jobs| > 0 then SetBox(s, m, box.(worker := AtSelect, mu := None))
    else SetBox(s, m, box.(worker := EvictWantsRegistry))
  }

  /** The registry lookup of Submit, and the unlock at its end. */
  function GetOrCreateMailbox(s: State, t: nat, key: Key, job: Job): State {
    if s.closed then
      SetPc(s, t, SubmitReturned(DispatcherClosed)).(mu := None)
    else if key in s.registry then
      SetPc(s, t, SubmitWantsMailbox(key, job, s.registry[key])).(mu := None)
    else
      var m := |s.mailboxes|;
      SetPc(s, t, SubmitWantsMailbox(key, job, m)).(
      mu := None,
      mailboxes := s.mailboxes + [Mailbox(key, [], true, false, None, AtSelect)],
      registry := s.registry[key := m],
      waitGroup := s.waitGroup + 1)
  }

  /** Whether the eviction reaches the branch that finds another mailbox, or none, registered. */
  predicate EvictionFindsStranger(s: State, m: nat)
    requires m < |s.mailboxes|
  {
    !s.closed && !(s.mailboxes[m].key in s.registry && s.registry[s.mailboxes[m].key] == m)
  }

  /** The part of tryEvictMailbox that runs under both locks, and the unlocks. */
  function TryEvict(s: State, m: nat): State
    requires m < |s.mailboxes|
  {
    var box := s.mailboxes[m];
    if EvictionFindsStranger(s, m) then
      SetBox(s, m, box.(worker := AtSelect, mu := None)).(mu := None)
    else
      SetBox(s, m, box.(worker := Leaving, mu := None, closed := true, open := false)).(
      mu := None,
      registry := if s.closed then s.registry else s.registry - {box.key},
      panicked := s.panicked || !box.open)
  }

  // Runs

  predicate Runs(s: State, steps: seq<Step>)
    decreases |steps|
  {
    steps == [] || (Enabled(s, steps[0]) && Runs(Apply(s, steps[0]), steps[1..]))
  }

  function After(s: State, steps: seq<Step>): State
    requires Runs(s, steps)
    decreases |steps|
  {
    if steps == [] then s else After(Apply(s, steps[0]), steps[1..])
  }
}
