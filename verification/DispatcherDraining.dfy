/**
 How a closed dispatcher comes to rest: a bound on all that its own steps can still do, and the
 exact states from which they can finish every accepted job.
 */
module DispatcherDraining {
  import opened Dispatcher
  import opened DispatcherSafety
  import opened DispatcherGuarantees
  import opened DispatcherProgress

  /** A new call, an expired timer or the end of a caller's context. */
  predicate FromOutside(step: Step) {
    step.CallSubmit? || step.CallShutdown? || step.TimerFires? || step.CancelSubmit? || step.GiveUp?
  }

  function Disturbances(steps: seq<Step>): nat {
    if steps == [] then 0 else (if FromOutside(steps[0]) then 1 else 0) + Disturbances(steps[1..])
  }

  // ---------- Effort ----------

  /** A bound on the steps that a worker takes before it is back in its select, or gone, and leaves. */
  function WorkerEffort(pc: WorkerPc): nat {
    match pc
    case Exited => 0
    case Leaving => 1
    case AtSelect => 2
    case RunningJob(_) => 3
    case EvictInRegistry => 3
    case EvictWantsRegistry => 4
    case EvictInMailbox => 5
    case EvictWantsMailbox => 6
  }

  /** A bound on the steps of a call in a closed dispatcher and, for a Submit, of the job it may still hand over. */
  function CallerEffort(pc: CallerPc): nat {
    match pc
    case Idle => 0
    case SubmitReturned(_) => 0
    case ShutdownReturned(_) => 0
    case SubmitInRegistry(_, _) => 1
    case SubmitWantsRegistry(_, _) => 2
    case SubmitInSelect(_, _, _) => 3
    case SubmitInMailbox(_, _, _) => 4
    case SubmitWantsMailbox(_, _, _) => 5
    case ShutdownInRegistry => 1
    case ShutdownWantsRegistry => 2
    case ShutdownWaiting(done) => if done then 1 else 2
    case ShutdownNext(todo) => 3 * |todo| + 3
    case ShutdownInMailbox(_, todo) => 3 * |todo| + 4
    case ShutdownWantsMailbox(_, todo) => 3 * |todo| + 5
  }

  /** A buffered job costs its worker two steps. */
  function BoxEffort(box: Mailbox): nat {
    WorkerEffort(box.worker) + 2 * |box.jobs|
  }

  function BoxesEffort(boxes: seq<Mailbox>): nat {
    if boxes == [] then 0 else BoxesEffort(boxes[..|boxes| - 1]) + BoxEffort(boxes[|boxes| - 1])
  }

  ghost function Someone(callers: map<nat, CallerPc>): (t: nat)
    requires callers != map[]
    ensures t in callers
  {
    var t :| t in callers; t
  }

  ghost function CallersEffort(callers: map<nat, CallerPc>): nat
    decreases |callers|
  {
    if callers == map[] then 0
    else var t := Someone(callers); CallerEffort(callers[t]) + CallersEffort(callers - {t})
  }

  /** What is left to do: the owed jobs and every program counter on its way to rest. */
  ghost function Effort(s: State): nat {
    BoxesEffort(s.mailboxes) + CallersEffort(s.callers)
  }

  lemma {:induction false} BoxMoves(boxes: seq<Mailbox>, m: nat, box: Mailbox)
    requires m < |boxes|
    ensures BoxesEffort(boxes[m := box]) == BoxesEffort(boxes) - BoxEffort(boxes[m]) + BoxEffort(box)
  {
    var last := |boxes| - 1;
    if m < last {
      BoxMoves(boxes[..last], m, box);
      assert boxes[m := box][..last] == boxes[..last][m := box];
    } else {
      assert boxes[m := box][..last] == boxes[..last];
    }
  }

  lemma {:induction false} SetAside(callers: map<nat, CallerPc>, t: nat)
    requires t in callers
    ensures CallersEffort(callers) == CallerEffort(callers[t]) + CallersEffort(callers - {t})
    decreases |callers|
  {
    var u := Someone(callers);
    if u != t {
      SetAside(callers - {u}, t);
      SetAside(callers - {t}, u);
      assert callers - {u} - {t} == callers - {t} - {u};
    }
  }

  lemma CallerMoves(callers: map<nat, CallerPc>, t: nat, pc: CallerPc)
    ensures CallersEffort(callers[t := pc]) ==
            CallersEffort(callers) - (if t in callers then CallerEffort(callers[t]) else 0) + CallerEffort(pc)
  {
    SetAside(callers[t := pc], t);
    assert callers[t := pc] - {t} == callers - {t};
    if t in callers {
      SetAside(callers, t);
    } else {
      assert callers - {t} == callers;
    }
  }

  /** A step that moves at most caller `t` and mailbox `m` changes the effort by these two. */
  lemma EffortMoves(s: State, s': State, t: nat, m: nat)
    requires s'.callers == s.callers || s'.callers == s.callers[t := Pc(s', t)]
    requires m < |s.mailboxes| == |s'.mailboxes|
    requires s'.mailboxes == s.mailboxes[m := s'.mailboxes[m]]
    ensures Effort(s') == Effort(s) - CallerEffort(Pc(s, t)) + CallerEffort(Pc(s', t))
                          - BoxEffort(s.mailboxes[m]) + BoxEffort(s'.mailboxes[m])
  {
    BoxMoves(s.mailboxes, m, s'.mailboxes[m]);
    CallerMoves(s.callers, t, Pc(s', t));
  }

  lemma EffortOfCaller(s: State, s': State, t: nat)
    requires s'.callers == s.callers[t := Pc(s', t)] && s'.mailboxes == s.mailboxes
    ensures Effort(s') == Effort(s) - CallerEffort(Pc(s, t)) + CallerEffort(Pc(s', t))
  {
    CallerMoves(s.callers, t, Pc(s', t));
  }

  /** An agent's own step lowers the effort; a disturbance raises it by four at most. */
  ghost predicate Lowers(s: State, step: Step, s': State) {
    if FromOutside(step) then Effort(s') <= Effort(s) + 4 else Effort(s') < Effort(s)
  }

  lemma WorkerLowersEffort(s: State, step: Step)
    requires Structure(s) && s.closed && Enabled(s, step) && ByWorker(step)
    ensures Lowers(s, step, Apply(s, step))
  {
    hide GetOrCreateMailbox, TakeSnapshot, EnterRegistry, EnterMailbox, LeaveMailbox, TestClosed, SendJob, CloseNext, Record;
    hide Effort, CallerEffort, Live, Superseded, CallerOk;
    assert MailboxOk(s, step.m);
    EffortMoves(s, Apply(s, step), 0, step.m);
  }

  lemma BoxStepLowersEffort(s: State, step: Step)
    requires Structure(s) && Enabled(s, step) && !ByWorker(step) && BoxOf(s, step) >= 0
    ensures Lowers(s, step, Apply(s, step))
  {
    hide Structure, Effort, EnterMailbox, LeaveMailbox, TestClosed, SendJob, CloseNext;
    match step
    case LockMailbox(t) => EnteringLowersEffort(s, t);
    case CheckClosed(t) => CheckLowersEffort(s, t);
    case Send(t) => SelectIsOpen(s, t); SendLowersEffort(s, t);
    case CancelSubmit(t) => LeavingLowersEffort(s, t, SubmitReturned(ContextDone));
    case CloseMailbox(t) => CloseLowersEffort(s, t);
  }

  lemma EnteringLowersEffort(s: State, t: nat)
    requires (Pc(s, t).SubmitWantsMailbox? || Pc(s, t).ShutdownWantsMailbox?) && Pc(s, t).box < |s.mailboxes|
    ensures Effort(EnterMailbox(s, t)) < Effort(s)
  {
    hide Effort;
    EffortMoves(s, EnterMailbox(s, t), t, Pc(s, t).box);
  }

  lemma LeavingLowersEffort(s: State, t: nat, next: CallerPc)
    requires (Pc(s, t).SubmitInMailbox? || Pc(s, t).SubmitInSelect? || Pc(s, t).ShutdownInMailbox?) && Pc(s, t).box < |s.mailboxes|
    requires CallerEffort(next) < CallerEffort(Pc(s, t))
    ensures Effort(LeaveMailbox(s, t, next)) < Effort(s)
  {
    hide Effort, CallerEffort;
    EffortMoves(s, LeaveMailbox(s, t, next), t, Pc(s, t).box);
  }

  lemma CheckLowersEffort(s: State, t: nat)
    requires Pc(s, t).SubmitInMailbox? && Pc(s, t).box < |s.mailboxes|
    ensures Effort(TestClosed(s, t)) < Effort(s)
  {
    hide Effort, LeaveMailbox;
    var pc := Pc(s, t);
    if s.mailboxes[pc.box].closed {
      LeavingLowersEffort(s, t, SubmitWantsRegistry(pc.key, pc.job));
    } else {
      EffortOfCaller(s, TestClosed(s, t), t);
    }
  }

  /** The job that a Submit hands over is already part of its own effort. */
  lemma SendLowersEffort(s: State, t: nat)
    requires Pc(s, t).SubmitInSelect? && Pc(s, t).box < |s.mailboxes| && s.mailboxes[Pc(s, t).box].open
    ensures Effort(SendJob(s, t)) < Effort(s)
  {
    hide Effort;
    EffortMoves(s, SendJob(s, t), t, Pc(s, t).box);
  }

  lemma CloseLowersEffort(s: State, t: nat)
    requires Pc(s, t).ShutdownInMailbox? && Pc(s, t).box < |s.mailboxes|
    ensures Effort(CloseNext(s, t)) < Effort(s)
  {
    hide Effort, LeaveMailbox;
    if s.mailboxes[Pc(s, t).box].closed {
      LeavingLowersEffort(s, t, ShutdownNext(Pc(s, t).todo));
    } else {
      EffortMoves(s, CloseNext(s, t), t, Pc(s, t).box);
    }
  }

  lemma SelectIsOpen(s: State, t: nat)
    requires Structure(s) && Pc(s, t).SubmitInSelect?
    ensures Pc(s, t).box < |s.mailboxes| && s.mailboxes[Pc(s, t).box].open
  {
    assert CallerOk(s, t) && MailboxOk(s, Pc(s, t).box);
  }

  lemma CallerStepLowersEffort(s: State, step: Step)
    requires Structure(s) && s.closed && Enabled(s, step) && !ByWorker(step) && BoxOf(s, step) < 0
    ensures Lowers(s, step, Apply(s, step))
  {
    hide Structure, Effort, CallerEffort, Apply, Enabled;
    CallerStepMoves(s, step);
    CallerStepCosts(s, step);
    EffortOfCaller(s, Apply(s, step), step.t);
  }

  lemma CallerStepMoves(s: State, step: Step)
    requires s.closed && Enabled(s, step) && !ByWorker(step) && BoxOf(s, step) < 0
    ensures var s' := Apply(s, step);
            s'.callers == s.callers[step.t := Pc(s', step.t)] && s'.mailboxes == s.mailboxes
  {
    hide EnterMailbox, LeaveMailbox, TestClosed, SendJob, CloseNext, StartJob, EndJob, TestIdle, TryEvict;
  }

  lemma CallerStepCosts(s: State, step: Step)
    requires s.closed && Enabled(s, step) && !ByWorker(step) && BoxOf(s, step) < 0
    ensures var before, now := CallerEffort(Pc(s, step.t)), CallerEffort(Pc(Apply(s, step), step.t));
            if FromOutside(step) then now <= before + 4 else now < before
  {
    hide EnterMailbox, LeaveMailbox, TestClosed, SendJob, CloseNext, StartJob, EndJob, TestIdle, TryEvict;
  }

  lemma StepLowersEffort(s: State, step: Step)
    requires Structure(s) && s.closed && Enabled(s, step)
    ensures Lowers(s, step, Apply(s, step))
  {
    hide Structure, Lowers, Enabled, Apply;
    if ByWorker(step) {
      WorkerLowersEffort(s, step);
    } else if BoxOf(s, step) >= 0 {
      BoxStepLowersEffort(s, step);
    } else {
      CallerStepLowersEffort(s, step);
    }
  }

  /** Under every schedule, a closed dispatcher takes at most `Effort` steps and five more for each disturbance. */
  lemma {:induction false} ClosedRunsEnd(s: State, steps: seq<Step>)
    requires Inv(s) && s.closed && Runs(s, steps)
    ensures |steps| + Effort(After(s, steps)) <= Effort(s) + 5 * Disturbances(steps)
    decreases |steps|
  {
    if steps == [] {
    } else {
      hide Inv, Effort, Enabled, Apply;
      InvConserves(s);
      StepLowersEffort(s, steps[0]);
      StepKeepsInv(s, steps[0]);
      StepKeepsClosed(s, steps[0]);
      ClosedRunsEnd(Apply(s, steps[0]), steps[1..]);
    }
  }

  // ---------- Rest ----------

  ghost predicate AtRest(s: State) {
    forall a :: !Busy(s, a)
  }

  ghost predicate Stopped(s: State) {
    forall a :: !CanStep(s, a)
  }

  ghost predicate NoDoom(s: State) {
    forall m, t :: !Doomed(s, m, t)
  }

  lemma {:induction false} LeadsSomewhere(s: State, a: Agent, hops: nat)
    requires LeadsToStep(s, a, hops)
    ensures !Stopped(s)
    decreases hops
  {
    if !CanStep(s, a) {
      LeadsSomewhere(s, WaitsOn(s, a).value, hops - 1);
    }
  }

  lemma {:induction false} CircleIsDoom(s: State, a: Agent, hops: nat)
    requires LeadsToCircle(s, a, hops)
    ensures !NoDoom(s)
    decreases hops
  {
    if InCircle(s, a) {
      match a
      case Caller(t) => assert Doomed(s, Pc(s, t).box, t);
      case Worker(m) => var t :| CircularWait(s, m, t); assert Doomed(s, m, t);
    } else {
      CircleIsDoom(s, WaitsOn(s, a).value, hops - 1);
    }
  }

  /** Where no agent can step and no Submit is stuck, nobody is in the middle of anything. */
  lemma StoppedIsAtRest(s: State)
    requires Structure(s) && Stopped(s) && NoDoom(s)
    ensures AtRest(s)
  {
    hide Structure;
    forall a ensures !Busy(s, a) {
      if Busy(s, a) {
        BusyProgress(s, a);
        if LeadsToStep(s, a, 3) {
          LeadsSomewhere(s, a, 3);
        } else {
          CircleIsDoom(s, a, 1);
        }
      }
    }
  }

  lemma AtRestOwesNothing(s: State)
    requires Structure(s) && AtRest(s)
    ensures NothingOwed(s)
  {
    hide Live, Superseded, CallerOk;
    forall m | 0 <= m < |s.mailboxes| ensures s.mailboxes[m].OwesNothing() {
      assert MailboxOk(s, m) && !Busy(s, Worker(m));
    }
  }

  lemma AtRestRanEverything(s: State)
    requires Inv(s) && AtRest(s)
    ensures EverythingRan(s)
  {
    hide Structure, Conserved, AtRest;
    AtRestOwesNothing(s);
    RanIffNothingOwed(s);
  }

  // ---------- A Shutdown on its way ----------

  /** In its final wait, or back from it with everything drained. */
  predicate Awaits(pc: CallerPc) {
    pc.ShutdownWaiting? || pc == ShutdownReturned(Drained)
  }

  /** In or before its final wait, or back from it. */
  predicate Draining(pc: CallerPc) {
    Closing(pc) || Awaits(pc)
  }

  predicate Releases(step: Step, t: nat) {
    step == GiveUp(t) || CallsAgain(step, t)
  }

  lemma StepKeepsDraining(s: State, step: Step, t: nat)
    requires Structure(s) && Enabled(s, step) && Draining(Pc(s, t)) && !Releases(step, t)
    ensures Draining(Pc(Apply(s, step), t))
    ensures Awaits(Pc(s, t)) ==> Awaits(Pc(Apply(s, step), t))
  {
    hide Structure;
    if ByWorker(step) || step.t != t {
      OthersLeaveThePc(s, step, t);
    }
  }

  lemma {:induction false} RunKeepsDraining(s: State, steps: seq<Step>, t: nat)
    requires Inv(s) && Runs(s, steps) && Draining(Pc(s, t))
    requires forall i :: 0 <= i < |steps| ==> !Releases(steps[i], t)
    ensures Draining(Pc(After(s, steps), t))
    ensures Awaits(Pc(s, t)) ==> Awaits(Pc(After(s, steps), t))
    decreases |steps|
  {
    if steps == [] {
    } else {
      hide Inv, Apply, Enabled, Draining, Awaits, Releases;
      InvConserves(s);
      StepKeepsDraining(s, steps[0], t);
      StepKeepsInv(s, steps[0]);
      RunKeepsDraining(Apply(s, steps[0]), steps[1..], t);
    }
  }

  lemma AwaitingIsNotDoomed(s: State, t: nat)
    requires Structure(s) && Awaits(Pc(s, t))
    ensures s.closed && NoDoom(s)
  {
    assert CallerOk(s, t);
    forall m: nat | m < |s.mailboxes| ensures !s.mailboxes[m].open {
      assert MailboxOk(s, m);
    }
  }

  /**
   Once a Shutdown waits for the wait group, every schedule drains: a run is no longer than the
   effort allows, and where it cannot go on, the Shutdown has returned through `done` and every
   accepted job has run, unless its own context ended before.
   */
  lemma WaitingShutdownDrains(buffer: int, before: seq<Step>, t: nat, steps: seq<Step>)
    requires Runs(New(buffer), before) && Pc(After(New(buffer), before), t).ShutdownWaiting?
    requires Runs(After(New(buffer), before), steps)
    requires forall i :: 0 <= i < |steps| ==> !Releases(steps[i], t)
    ensures |steps| <= Effort(After(New(buffer), before)) + 5 * Disturbances(steps)
    ensures var s := After(After(New(buffer), before), steps);
            Stopped(s) ==> Pc(s, t) == ShutdownReturned(Drained) && EverythingRan(s)
  {
    hide Inv, Effort, Stopped, Structure, Conserved;
    var s0 := After(New(buffer), before);
    ReachableInv(buffer, before);
    InvConserves(s0);
    AwaitingIsNotDoomed(s0, t);
    ClosedRunsEnd(s0, steps);
    RunKeepsInv(s0, steps);
    RunKeepsDraining(s0, steps, t);
    var s := After(s0, steps);
    if Stopped(s) {
      InvConserves(s);
      AwaitingIsNotDoomed(s, t);
      StoppedIsAtRest(s);
      AtRestRanEverything(s);
      assert !Busy(s, Caller(t));
    }
  }

  // ---------- When the dispatcher can drain on its own ----------

  /** A doomed Submit stays doomed until its own context ends. */
  lemma {:induction false} DoomSurvivesRun(s: State, m: nat, t: nat, steps: seq<Step>)
    requires Inv(s) && Doomed(s, m, t) && Runs(s, steps) && CancelSubmit(t) !in steps
    ensures Doomed(After(s, steps), m, t)
    decreases |steps|
  {
    if steps == [] {
    } else {
      hide Inv;
      InvConserves(s);
      DoomSurvivesStep(s, m, t, steps[0]);
      StepKeepsInv(s, steps[0]);
      DoomSurvivesRun(Apply(s, steps[0]), m, t, steps[1..]);
    }
  }

  lemma DoomSurvivesStep(s: State, m: nat, t: nat, step: Step)
    requires Structure(s) && Doomed(s, m, t) && Enabled(s, step) && step != CancelSubmit(t)
    ensures Doomed(Apply(s, step), m, t)
  {
    hide Structure;
    if ByWorker(step) || step.t != t {
      hide Apply, Enabled;
      OthersKeepDoom(s, m, t, step);
    } else {
      OpenIsNotClosed(s, m);
    }
  }

  /**
   A Shutdown that finds a Submit doomed never comes to its final wait, where it would look at its
   own context: it does not return before the Submit's context ends.
   */
  lemma {:induction false} DoomBlocksShutdown(s: State, m: nat, t: nat, u: nat, steps: seq<Step>)
    requires Inv(s) && Doomed(s, m, t) && Closing(Pc(s, u)) && Runs(s, steps) && CancelSubmit(t) !in steps
    ensures Closing(Pc(After(s, steps), u)) && !Pc(After(s, steps), u).ShutdownWaiting?
    decreases |steps|
  {
    hide Inv, Apply, Doomed;
    InvConserves(s);
    if Awaits(Pc(s, u)) {
      AwaitingIsNotDoomed(s, u);
    }
    if steps == [] {
    } else {
      DoomSurvivesStep(s, m, t, steps[0]);
      StepKeepsDraining(s, steps[0], u);
      StepKeepsInv(s, steps[0]);
      var s' := Apply(s, steps[0]);
      InvConserves(s');
      if Awaits(Pc(s', u)) {
        AwaitingIsNotDoomed(s', u);
      }
      DoomBlocksShutdown(s', m, t, u, steps[1..]);
    }
  }

  lemma OpenIsNotClosed(s: State, m: nat)
    requires Structure(s) && m < |s.mailboxes|
    ensures s.mailboxes[m].open == !s.mailboxes[m].closed && s.capacity > 0
  {
    assert MailboxOk(s, m);
  }

  /** Among the agents' own steps, only a Submit that overtakes the worker at the lock gets stuck. */
  lemma OnlyOvertakingDooms(s: State, step: Step, m: nat, t: nat)
    requires Structure(s) && Enabled(s, step) && !FromOutside(step)
    requires !Doomed(s, m, t) && Doomed(Apply(s, step), m, t)
    ensures step == LockMailbox(t) && Enabled(s, EvictLockMailbox(m))
  {
    hide Structure;
    if ByWorker(step) {
      WorkerDoomsNobody(s, step, m, t);
    } else if BoxOf(s, step) >= 0 {
      LockingDooms(s, step, m, t);
    } else {
      CallerDoomsNobody(s, step, m, t);
    }
  }

  lemma WorkerDoomsNobody(s: State, step: Step, m: nat, t: nat)
    requires Structure(s) && Enabled(s, step) && !FromOutside(step) && ByWorker(step) && Doomed(Apply(s, step), m, t)
    ensures Doomed(s, m, t)
  {
    hide Structure, Apply, Enabled;
    WorkerStepIsLocal(s, step);
    WorkerMovesOn(s, step);
    hide MailboxOk, CallerOk, HoldsOnly;
  }

  lemma WorkerMovesOn(s: State, step: Step)
    requires Enabled(s, step) && !FromOutside(step) && ByWorker(step)
    ensures !WorkerAt(Apply(s, step), step.m, EvictWantsMailbox)
  {
    hide GetOrCreateMailbox, TakeSnapshot, EnterRegistry, EnterMailbox, LeaveMailbox, TestClosed, SendJob, CloseNext, Record;
    hide TryEvict;
    if step.EvictDecide? {
      EvictionMovesOn(s, step.m);
    }
  }

  lemma EvictionMovesOn(s: State, m: nat)
    requires m < |s.mailboxes|
    ensures !WorkerAt(TryEvict(s, m), m, EvictWantsMailbox)
  {
  }

  lemma CallerDoomsNobody(s: State, step: Step, m: nat, t: nat)
    requires Enabled(s, step) && !ByWorker(step) && BoxOf(s, step) < 0 && Doomed(Apply(s, step), m, t)
    ensures Doomed(s, m, t)
  {
    hide EnterMailbox, LeaveMailbox, TestClosed, SendJob, CloseNext, StartJob, EndJob, TestIdle, TryEvict;
  }

  lemma LockingDooms(s: State, step: Step, m: nat, t: nat)
    requires Enabled(s, step) && !FromOutside(step) && !ByWorker(step) && BoxOf(s, step) >= 0
    requires !Doomed(s, m, t) && Doomed(Apply(s, step), m, t)
    ensures step == LockMailbox(t) && Enabled(s, EvictLockMailbox(m))
  {
    hide Doomed, EnterMailbox, TestClosed, SendJob, CloseNext;
    match step
    case LockMailbox(u) => LockerIsDoomed(s, u, m, t);
    case CheckClosed(u) => CheckDoomsNobody(s, u, m, t);
    case Send(u) => SendDoomsNobody(s, u, m, t);
    case CloseMailbox(u) => CloseDoomsNobody(s, u, m, t);
  }

  lemma LockerIsDoomed(s: State, u: nat, m: nat, t: nat)
    requires Pc(s, u).SubmitWantsMailbox? || Pc(s, u).ShutdownWantsMailbox?
    requires Pc(s, u).box < |s.mailboxes| && s.mailboxes[Pc(s, u).box].mu.None?
    requires !Doomed(s, m, t) && Doomed(EnterMailbox(s, u), m, t)
    ensures u == t && WorkerAt(s, m, EvictWantsMailbox) && s.mailboxes[m].mu.None?
  {
  }

  lemma CheckDoomsNobody(s: State, u: nat, m: nat, t: nat)
    requires Pc(s, u).SubmitInMailbox? && Pc(s, u).box < |s.mailboxes| && Doomed(TestClosed(s, u), m, t)
    ensures Doomed(s, m, t)
  {
    if s.mailboxes[Pc(s, u).box].closed {
      LeaverDoomsNobody(s, TestClosed(s, u), u, Pc(s, u).box, m, t);
    }
  }

  lemma SendDoomsNobody(s: State, u: nat, m: nat, t: nat)
    requires Pc(s, u).SubmitInSelect? && Pc(s, u).box < |s.mailboxes| && Doomed(SendJob(s, u), m, t)
    ensures Doomed(s, m, t)
  {
    if s.mailboxes[Pc(s, u).box].open {
      LeaverDoomsNobody(s, SendJob(s, u), u, Pc(s, u).box, m, t);
    }
  }

  lemma CloseDoomsNobody(s: State, u: nat, m: nat, t: nat)
    requires Pc(s, u).ShutdownInMailbox? && Pc(s, u).box < |s.mailboxes| && Doomed(CloseNext(s, u), m, t)
    ensures Doomed(s, m, t)
  {
    if s.mailboxes[Pc(s, u).box].closed {
      LeaverDoomsNobody(s, CloseNext(s, u), u, Pc(s, u).box, m, t);
    } else {
      LeaverDoomsNobody(s, CloseNext(s, u), u, Pc(s, u).box, m, t);
    }
  }

  lemma LeaverDoomsNobody(s: State, s': State, u: nat, box: nat, m: nat, t: nat)
    requires box < |s.mailboxes| && |s'.mailboxes| == |s.mailboxes| && s'.capacity == s.capacity
    requires s'.mailboxes == s.mailboxes[box := s'.mailboxes[box]] && s'.mailboxes[box].mu.None?
    requires s'.callers == s.callers[u := Pc(s', u)] && !HoldsMailbox(Pc(s', u), m)
    requires Doomed(s', m, t)
    ensures Doomed(s, m, t)
  {
  }

  /** A step that some agent can take without dooming a Submit: a worker goes first at its own lock. */
  lemma SafeStep(s: State) returns (step: Step)
    requires Structure(s) && NoDoom(s) && !Stopped(s)
    ensures Enabled(s, step) && !FromOutside(step) && NoDoom(Apply(s, step))
  {
    hide Structure, Apply, Enabled, Doomed;
    if m :| Enabled(s, EvictLockMailbox(m)) {
      step := EvictLockMailbox(m);
    } else {
      var a :| CanStep(s, a);
      step := OwnStep(s, a);
      OwnIsInside(s, a);
    }
    forall m, t ensures !Doomed(Apply(s, step), m, t) {
      if Doomed(Apply(s, step), m, t) {
        OnlyOvertakingDooms(s, step, m, t);
      }
    }
  }

  lemma OwnIsInside(s: State, a: Agent)
    requires Busy(s, a)
    ensures !FromOutside(OwnStep(s, a))
  {
  }

  /** Unless a Submit is doomed, the agents can bring a closed dispatcher to rest by themselves. */
  lemma {:induction false} ComeToRest(s: State) returns (steps: seq<Step>)
    requires Inv(s) && s.closed && NoDoom(s)
    ensures Runs(s, steps) && Disturbances(steps) == 0 && AtRest(After(s, steps))
    decreases Effort(s)
  {
    hide Inv, Effort, Stopped, NoDoom, AtRest, Apply, Enabled, FromOutside;
    InvConserves(s);
    if Stopped(s) {
      StoppedIsAtRest(s);
      steps := [];
    } else {
      var step := SafeStep(s);
      StepLowersEffort(s, step);
      StepKeepsInv(s, step);
      StepKeepsClosed(s, step);
      var more := ComeToRest(Apply(s, step));
      steps := [step] + more;
      assert steps[1..] == more;
    }
  }

  /** Some run of the agents' own steps finishes every accepted job. */
  ghost predicate CanDrain(s: State) {
    exists steps :: Drains(s, steps)
  }

  /** It is no longer than the effort allows, and every Shutdown on its way returns through `done`. */
  ghost predicate Drains(s: State, steps: seq<Step>) {
    && Runs(s, steps) && Disturbances(steps) == 0 && |steps| <= Effort(s)
    && EverythingRan(After(s, steps))
    && forall t :: Closing(Pc(s, t)) ==> Pc(After(s, steps), t) == ShutdownReturned(Drained)
  }

  lemma {:induction false} Undisturbed(steps: seq<Step>, i: nat)
    requires Disturbances(steps) == 0 && i < |steps|
    ensures !FromOutside(steps[i])
  {
    if i > 0 {
      Undisturbed(steps[1..], i - 1);
    }
  }

  lemma RestDrains(s: State, steps: seq<Step>)
    requires Inv(s) && s.closed && Runs(s, steps) && Disturbances(steps) == 0 && AtRest(After(s, steps))
    ensures Drains(s, steps)
  {
    hide Inv, Effort;
    ClosedRunsEnd(s, steps);
    RunKeepsInv(s, steps);
    AtRestRanEverything(After(s, steps));
    forall t | Closing(Pc(s, t)) ensures Pc(After(s, steps), t) == ShutdownReturned(Drained) {
      forall i | 0 <= i < |steps| ensures !Releases(steps[i], t) {
        Undisturbed(steps, i);
      }
      RunKeepsDraining(s, steps, t);
      assert !Busy(After(s, steps), Caller(t));
    }
  }

  lemma DoomedNeverRunsEverything(s: State, m: nat, t: nat)
    requires Inv(s) && Doomed(s, m, t)
    ensures !EverythingRan(s)
  {
    hide Structure, Conserved, EverythingRan;
    OpenIsNotClosed(s, m);
    RanIffNothingOwed(s);
    assert !s.mailboxes[m].OwesNothing();
  }

  /**
   From every reachable closed state the dispatcher's own steps can finish every accepted job, and
   let every Shutdown that is on its way return through `done`, exactly if no Submit holds a full
   mailbox whose worker wants its lock.
   */
  lemma DrainsExactlyUndoomed(buffer: int, before: seq<Step>)
    requires Runs(New(buffer), before) && After(New(buffer), before).closed
    ensures CanDrain(After(New(buffer), before)) <==> NoDoom(After(New(buffer), before))
  {
    hide Inv, Effort, EverythingRan;
    var s := After(New(buffer), before);
    ReachableInv(buffer, before);
    if NoDoom(s) {
      var steps := ComeToRest(s);
      RestDrains(s, steps);
    } else {
      var m, t :| Doomed(s, m, t);
      forall steps ensures !Drains(s, steps) {
        if Drains(s, steps) {
          if i: nat :| i < |steps| && steps[i] == CancelSubmit(t) {
            Undisturbed(steps, i);
          }
          DoomSurvivesRun(s, m, t, steps);
          RunKeepsInv(s, steps);
          DoomedNeverRunsEverything(After(s, steps), m, t);
        }
      }
    }
  }
}
