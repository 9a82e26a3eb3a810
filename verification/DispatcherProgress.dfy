/**
 Who waits for whom in the dispatcher. The only circular wait is a Submit blocked on a full
 channel while it holds the mailbox lock that the mailbox's own worker needs to evict it; from
 every other pending operation the waits lead to somebody who can step.
 */
module DispatcherProgress {
  import opened Wrappers
  import opened Dispatcher
  import opened DispatcherSafety

  /** In the middle of something: a call that has not returned, or a worker with work or an eviction at hand. */
  predicate Busy(s: State, a: Agent) {
    match a
    case Caller(t) => !Pc(s, t).Idle? && !Pc(s, t).SubmitReturned? && !Pc(s, t).ShutdownReturned?
    case Worker(m) =>
      && m < |s.mailboxes| && !s.mailboxes[m].worker.Exited?
      && (s.mailboxes[m].worker.AtSelect? ==> s.mailboxes[m].jobs != [] || !s.mailboxes[m].open)
  }

  /** The step a busy agent is about to take. Cancelled contexts and timers are the environment's. */
  ghost function OwnStep(s: State, a: Agent): Step
    requires Busy(s, a)
  {
    match a
    case Caller(t) => (
      match Pc(s, t)
      case SubmitInRegistry(_, _) => LookUp(t)
      case SubmitWantsMailbox(_, _, _) => LockMailbox(t)
      case SubmitInMailbox(_, _, _) => CheckClosed(t)
      case SubmitInSelect(_, _, _) => Send(t)
      case ShutdownInRegistry => BeginShutdown(t)
      case ShutdownNext(todo) => if todo == {} then StartWaiting(t) else var box :| box in todo; PickMailbox(t, box)
      case ShutdownWantsMailbox(_, _) => LockMailbox(t)
      case ShutdownInMailbox(_, _) => CloseMailbox(t)
      case ShutdownWaiting(done) => if done then ReturnDrained(t) else SeeDrained(t)
      case _ => LockRegistry(t))
    case Worker(m) => (
      match s.mailboxes[m].worker
      case AtSelect => if s.mailboxes[m].jobs != [] then Receive(m) else ReceiveClosed(m)
      case RunningJob(_) => FinishJob(m)
      case EvictWantsMailbox => EvictLockMailbox(m)
      case EvictInMailbox => EvictCheck(m)
      case EvictWantsRegistry => EvictLockRegistry(m)
      case Leaving => Leave(m)
      case _ => EvictDecide(m))
  }

  ghost predicate CanStep(s: State, a: Agent) {
    Busy(s, a) && Enabled(s, OwnStep(s, a))
  }

  ghost function FirstLive(boxes: seq<Mailbox>): Option<Agent> {
    if m :| 0 <= m < |boxes| && !boxes[m].worker.Exited? && forall i :: 0 <= i < m ==> boxes[i].worker.Exited?
    then Some(Worker(m)) else None
  }

  /** The agent that a blocked agent waits for: a lock's holder, the channel's receiver, a live worker. */
  ghost function WaitsOn(s: State, a: Agent): Option<Agent> {
    match a
    case Caller(t) => (
      match Pc(s, t)
      case SubmitWantsRegistry(_, _) => s.mu
      case ShutdownWantsRegistry => s.mu
      case SubmitWantsMailbox(_, _, box) => if box < |s.mailboxes| then s.mailboxes[box].mu else None
      case ShutdownWantsMailbox(box, _) => if box < |s.mailboxes| then s.mailboxes[box].mu else None
      case SubmitInSelect(_, _, box) => Some(Worker(box))
      case ShutdownWaiting(_) => FirstLive(s.mailboxes)
      case _ => None)
    case Worker(m) =>
      if m >= |s.mailboxes| then None
      else if s.mailboxes[m].worker.EvictWantsMailbox? then s.mailboxes[m].mu
      else if s.mailboxes[m].worker.EvictWantsRegistry? then s.mu
      else None
  }

  /** Following the waits for at most `hops` links reaches an agent that can step. */
  ghost predicate LeadsToStep(s: State, a: Agent, hops: nat)
    decreases hops
  {
    CanStep(s, a) || (hops > 0 && WaitsOn(s, a).Some? && LeadsToStep(s, WaitsOn(s, a).value, hops - 1))
  }

  /** Submit `t` holds mailbox `m` with its channel full while the mailbox's worker wants that lock. */
  predicate Doomed(s: State, m: nat, t: nat) {
    && m < |s.mailboxes|
    && s.mailboxes[m].worker == EvictWantsMailbox
    && s.mailboxes[m].mu == Some(Caller(t))
    && (Pc(s, t).SubmitInMailbox? || Pc(s, t).SubmitInSelect?) && Pc(s, t).box == m
    && s.mailboxes[m].open && |s.mailboxes[m].jobs| == s.capacity
  }

  /** It has looked at `closed` and is blocked in the send. */
  predicate CircularWait(s: State, m: nat, t: nat) {
    Doomed(s, m, t) && Pc(s, t).SubmitInSelect?
  }

  ghost predicate InCircle(s: State, a: Agent) {
    match a
    case Caller(t) => Pc(s, t).SubmitInSelect? && CircularWait(s, Pc(s, t).box, t)
    case Worker(m) => exists t :: CircularWait(s, m, t)
  }

  /** Following the waits of blocked agents for at most `hops` links reaches the circle. */
  ghost predicate LeadsToCircle(s: State, a: Agent, hops: nat)
    decreases hops
  {
    InCircle(s, a) || (hops > 0 && !CanStep(s, a) && WaitsOn(s, a).Some? && LeadsToCircle(s, WaitsOn(s, a).value, hops - 1))
  }

  // ---------- Nobody else is stuck ----------

  lemma RegistryHolderCanStep(s: State)
    requires Structure(s) && s.mu.Some?
    ensures CanStep(s, s.mu.value)
  {
    match s.mu.value
    case Caller(t) => assert CallerOk(s, t);
    case Worker(m) => assert MailboxOk(s, m);
  }

  /** A worker that is not circularly waiting can step, or waits for somebody who can. */
  lemma WorkerProgress(s: State, m: nat)
    requires Structure(s) && Busy(s, Worker(m))
    ensures LeadsToStep(s, Worker(m), 1) || InCircle(s, Worker(m))
  {
    hide Live, CallerOk, Superseded, RegistryOk;
    assert MailboxOk(s, m);
    var box := s.mailboxes[m];
    if box.worker.EvictWantsRegistry? && s.mu.Some? {
      RegistryHolderCanStep(s);
      assert LeadsToStep(s, s.mu.value, 0);
    } else if box.worker.EvictWantsMailbox? && box.mu.Some? {
      EvictionProgress(s, m);
      assert LeadsToStep(s, s.mailboxes[m].mu.value, 0) || InCircle(s, Worker(m));
    } else {
      assert CanStep(s, Worker(m));
    }
  }

  lemma EvictionProgress(s: State, m: nat)
    requires Structure(s) && m < |s.mailboxes| && s.mailboxes[m].worker.EvictWantsMailbox? && s.mailboxes[m].mu.Some?
    ensures CanStep(s, s.mailboxes[m].mu.value) || InCircle(s, Worker(m))
  {
    hide Live, Superseded, RegistryOk;
    assert MailboxOk(s, m);
    var t := s.mailboxes[m].mu.value.t;
    assert CallerOk(s, t);
    if Pc(s, t).SubmitInSelect? && |s.mailboxes[m].jobs| == s.capacity {
      assert CircularWait(s, m, t);
    } else {
      assert CanStep(s, Caller(t));
    }
  }

  lemma SenderProgress(s: State, t: nat)
    requires Structure(s) && Pc(s, t).SubmitInSelect?
    ensures LeadsToStep(s, Caller(t), 2) || LeadsToCircle(s, Caller(t), 0)
  {
    var m := Pc(s, t).box;
    assert CallerOk(s, t) && MailboxOk(s, m);
    if |s.mailboxes[m].jobs| == s.capacity {
      WorkerProgress(s, m);
      if exists u :: CircularWait(s, m, u) {
        assert CircularWait(s, m, t);
      }
    } else {
      assert CanStep(s, Caller(t));
    }
  }

  lemma MailboxHolderProgress(s: State, m: nat)
    requires Structure(s) && m < |s.mailboxes| && s.mailboxes[m].mu.Some?
    ensures LeadsToStep(s, s.mailboxes[m].mu.value, 2) || LeadsToCircle(s, s.mailboxes[m].mu.value, 0)
  {
    hide Live, Superseded, RegistryOk;
    assert MailboxOk(s, m);
    match s.mailboxes[m].mu.value
    case Caller(t) =>
      assert CallerOk(s, t);
      if Pc(s, t).SubmitInSelect? {
        SenderProgress(s, t);
      } else {
        assert CanStep(s, Caller(t));
      }
    case Worker(_) =>
      WorkerProgress(s, m);
      assert LeadsToStep(s, Worker(m), 1);
  }

  lemma WaiterProgress(s: State, t: nat)
    requires Structure(s) && Pc(s, t).ShutdownWaiting?
    ensures LeadsToStep(s, Caller(t), 2)
  {
    assert CallerOk(s, t);
    if Pc(s, t) == ShutdownWaiting(false) && s.waitGroup != 0 {
      SomeoneLives(s.mailboxes);
      var a := FirstLive(s.mailboxes).value;
      assert MailboxOk(s, a.m) && s.mailboxes[a.m].closed;
      WorkerProgress(s, a.m);
      assert !exists u :: CircularWait(s, a.m, u);
    } else {
      assert CanStep(s, Caller(t));
    }
  }

  lemma SomeoneLives(boxes: seq<Mailbox>)
    requires Live(boxes) != 0
    ensures FirstLive(boxes).Some?
  {
    AllExitedMeansNoneLive(boxes);
    var i :| 0 <= i < |boxes| && !boxes[i].worker.Exited?;
    Lowest(boxes, i);
  }

  lemma AllExitedMeansNoneLive(boxes: seq<Mailbox>)
    ensures (forall i :: 0 <= i < |boxes| ==> boxes[i].worker.Exited?) ==> Live(boxes) == 0
  {
  }

  lemma {:induction false} Lowest(boxes: seq<Mailbox>, i: nat)
    requires i < |boxes| && !boxes[i].worker.Exited?
    ensures exists m :: 0 <= m < |boxes| && !boxes[m].worker.Exited? && forall j :: 0 <= j < m ==> boxes[j].worker.Exited?
    decreases i
  {
    if j :| 0 <= j < i && !boxes[j].worker.Exited? {
      Lowest(boxes, j);
    }
  }

  lemma {:induction false} MoreHops(s: State, a: Agent, few: nat, many: nat)
    requires few <= many
    ensures LeadsToStep(s, a, few) ==> LeadsToStep(s, a, many)
    decreases many
  {
    if few > 0 && WaitsOn(s, a).Some? {
      MoreHops(s, WaitsOn(s, a).value, few - 1, many - 1);
    }
  }

  /** An agent in a circle cannot step, and neither can the one it waits for. */
  lemma CircleIsStuck(s: State, a: Agent, hops: nat)
    requires Structure(s) && InCircle(s, a)
    ensures !LeadsToStep(s, a, hops)
    decreases hops
  {
    hide Live, Superseded, RegistryOk;
    var m, t;
    match a {
      case Caller(c) => m, t := Pc(s, c).box, c;
      case Worker(w) => m := w; t :| CircularWait(s, w, t);
    }
    assert MailboxOk(s, m) && CallerOk(s, t);
    if hops > 0 && WaitsOn(s, a).Some? {
      assert InCircle(s, WaitsOn(s, a).value);
      CircleIsStuck(s, WaitsOn(s, a).value, hops - 1);
    }
  }

  lemma {:induction false} NotBoth(s: State, a: Agent, hops: nat, more: nat)
    requires Structure(s) && LeadsToCircle(s, a, hops)
    ensures !LeadsToStep(s, a, more)
    decreases hops
  {
    if InCircle(s, a) {
      CircleIsStuck(s, a, more);
    } else if more > 0 {
      NotBoth(s, WaitsOn(s, a).value, hops - 1, more - 1);
    }
  }

  lemma CallerProgress(s: State, t: nat)
    requires Structure(s) && Busy(s, Caller(t))
    ensures LeadsToStep(s, Caller(t), 3) || LeadsToCircle(s, Caller(t), 1)
  {
    assert CallerOk(s, t);
    var pc := Pc(s, t);
    if (pc.SubmitWantsRegistry? || pc.ShutdownWantsRegistry?) && s.mu.Some? {
      RegistryHolderCanStep(s);
      assert LeadsToStep(s, s.mu.value, 2);
    } else if (pc.SubmitWantsMailbox? || pc.ShutdownWantsMailbox?) && s.mailboxes[pc.box].mu.Some? {
      MailboxHolderProgress(s, pc.box);
    } else if pc.SubmitInSelect? {
      SenderProgress(s, t);
      MoreHops(s, Caller(t), 2, 3);
    } else if pc.ShutdownWaiting? {
      WaiterProgress(s, t);
      MoreHops(s, Caller(t), 2, 3);
    } else {
      assert CanStep(s, Caller(t));
    }
  }

  lemma BusyProgress(s: State, a: Agent)
    requires Structure(s) && Busy(s, a)
    ensures LeadsToStep(s, a, 3) <==> !LeadsToCircle(s, a, 1)
  {
    if a.Caller? {
      CallerProgress(s, a.t);
    } else {
      WorkerProgress(s, a.m);
      MoreHops(s, a, 1, 3);
    }
    if LeadsToCircle(s, a, 1) {
      NotBoth(s, a, 1, 3);
    }
  }

  /**
   In every reachable state, the waits of a busy agent lead to an agent that can step exactly
   if they do not lead into the circular wait of a full mailbox.
   */
  lemma OnlyTheFullMailboxDeadlocks(buffer: int, steps: seq<Step>, a: Agent)
    requires Runs(New(buffer), steps) && Busy(After(New(buffer), steps), a)
    ensures LeadsToStep(After(New(buffer), steps), a, 3) <==> !LeadsToCircle(After(New(buffer), steps), a, 1)
  {
    ReachableInv(buffer, steps);
    BusyProgress(After(New(buffer), steps), a);
  }

  /** A Shutdown that waits for the wait group is never part of it: the waits always lead to a step. */
  lemma WaitingShutdownProgresses(buffer: int, steps: seq<Step>, t: nat)
    requires Runs(New(buffer), steps) && Pc(After(New(buffer), steps), t).ShutdownWaiting?
    ensures LeadsToStep(After(New(buffer), steps), Caller(t), 2)
  {
    ReachableInv(buffer, steps);
    WaiterProgress(After(New(buffer), steps), t);
  }

  // ---------- The circle is real and permanent ----------

  /** No other agent's enabled step works on the mailbox that the Submit holds. */
  lemma OthersKeepOff(s: State, m: nat, t: nat, step: Step)
    requires Structure(s) && Doomed(s, m, t)
    requires Enabled(s, step) && (ByWorker(step) || step.t != t)
    ensures if ByWorker(step) then step.m != m else BoxOf(s, step) != m
  {
    if !ByWorker(step) {
      assert CallerOk(s, step.t);
    }
  }

  lemma OthersKeepDoom(s: State, m: nat, t: nat, step: Step)
    requires Structure(s) && Doomed(s, m, t)
    requires Enabled(s, step) && (ByWorker(step) || step.t != t)
    ensures Doomed(Apply(s, step), m, t) && Pc(Apply(s, step), t) == Pc(s, t)
  {
    hide Structure, Local, Enabled, Apply;
    OthersKeepOff(s, m, t, step);
    if ByWorker(step) {
      WorkerStepIsLocal(s, step);
      LocalKeepsDoom(s, Apply(s, step), -1, step.m, m, t);
    } else if BoxOf(s, step) >= 0 {
      BoxStepIsLocal(s, step);
      LocalKeepsDoom(s, Apply(s, step), step.t, BoxOf(s, step), m, t);
    } else if !Widens(s, step) {
      CallerStepIsLocal(s, step);
      LocalKeepsDoom(s, Apply(s, step), step.t, -1, m, t);
    } else {
      WideningKeepsDoom(s, step, m, t);
    }
  }

  lemma LocalKeepsDoom(s: State, s': State, actor: int, box: int, m: nat, t: nat)
    requires Doomed(s, m, t) && Local(s, s', actor, box) && actor != t && box != m
    ensures Doomed(s', m, t) && Pc(s', t) == Pc(s, t)
  {
    hide MailboxOk, CallerOk, HoldsOnly;
  }

  lemma WideningKeepsDoom(s: State, step: Step, m: nat, t: nat)
    requires Doomed(s, m, t) && Enabled(s, step) && Widens(s, step) && step.t != t
    ensures Doomed(Apply(s, step), m, t) && Pc(Apply(s, step), t) == Pc(s, t)
  {
  }

  lemma CircleSurvivesStep(s: State, m: nat, t: nat, step: Step)
    requires Structure(s) && CircularWait(s, m, t)
    requires Enabled(s, step) && step != CancelSubmit(t)
    ensures CircularWait(Apply(s, step), m, t)
  {
    hide Structure;
    if ByWorker(step) || step.t != t {
      hide Apply, Enabled;
      OthersKeepDoom(s, m, t, step);
    }
  }

  /** Once there, only the end of the blocked Submit's own context ends the circular wait. */
  lemma {:induction false} CircleSurvivesRun(s: State, m: nat, t: nat, steps: seq<Step>)
    requires Inv(s) && CircularWait(s, m, t) && Runs(s, steps)
    requires CancelSubmit(t) !in steps
    ensures CircularWait(After(s, steps), m, t)
    decreases |steps|
  {
    if steps == [] {
    } else {
      CircleSurvivesStep(s, m, t, steps[0]);
      StepKeepsInv(s, steps[0]);
      CircleSurvivesRun(Apply(s, steps[0]), m, t, steps[1..]);
    }
  }

  lemma {:induction false} Extend(s: State, steps: seq<Step>, step: Step)
    requires Runs(s, steps) && Enabled(After(s, steps), step)
    ensures Runs(s, steps + [step]) && After(s, steps + [step]) == Apply(After(s, steps), step)
    decreases |steps|
  {
    if steps == [] {
      assert steps + [step] == [step];
      assert [step][1..] == [];
    } else {
      assert (steps + [step])[0] == steps[0] && (steps + [step])[1..] == steps[1..] + [step];
      Extend(Apply(s, steps[0]), steps[1..], step);
    }
  }

  /**
   Caller 0 is at `pc`, on its way to mailbox 0, whose channel holds `n` jobs and whose worker
   has seen its timer fire; caller 1 has not called yet.
   */
  predicate Filling(s: State, key: Key, n: nat, pc: CallerPc) {
    && s.mu == (if pc.SubmitInRegistry? then Some(Caller(0)) else None)
    && !s.closed && s.registry == map[key := 0] && Pc(s, 0) == pc && Pc(s, 1) == Idle
    && |s.mailboxes| == 1
    && s.mailboxes[0].open && !s.mailboxes[0].closed && |s.mailboxes[0].jobs| == n <= s.capacity
    && s.mailboxes[0].mu == (if pc.SubmitInMailbox? || pc.SubmitInSelect? then Some(Caller(0)) else None)
    && s.mailboxes[0].worker == EvictWantsMailbox
  }

  lemma SendOne(buffer: int, key: Key, steps: seq<Step>, n: nat) returns (more: seq<Step>)
    requires Runs(New(buffer), steps) && n < After(New(buffer), steps).capacity
    requires Filling(After(New(buffer), steps), key, n, SubmitInSelect(key, 0, 0))
    ensures Runs(New(buffer), more) && After(New(buffer), more).capacity == After(New(buffer), steps).capacity
    ensures Filling(After(New(buffer), more), key, n + 1, SubmitWantsRegistry(key, 0))
  {
    var s := After(New(buffer), steps);
    Extend(New(buffer), steps, Send(0));
    assert Filling(SendJob(s, 0), key, n + 1, SubmitReturned(Accepted));
    more := steps + [Send(0)];
    Extend(New(buffer), more, CallSubmit(0, key, 0));
    more := more + [CallSubmit(0, key, 0)];
  }

  lemma ReachMailbox(buffer: int, key: Key, steps: seq<Step>, n: nat) returns (more: seq<Step>)
    requires Runs(New(buffer), steps)
    requires Filling(After(New(buffer), steps), key, n, SubmitWantsRegistry(key, 0))
    ensures Runs(New(buffer), more) && After(New(buffer), more).capacity == After(New(buffer), steps).capacity
    ensures Filling(After(New(buffer), more), key, n, SubmitWantsMailbox(key, 0, 0))
  {
    var s := After(New(buffer), steps);
    Extend(New(buffer), steps, LockRegistry(0));
    assert Filling(EnterRegistry(s, 0), key, n, SubmitInRegistry(key, 0));
    more := steps + [LockRegistry(0)];
    Extend(New(buffer), more, LookUp(0));
    more := more + [LookUp(0)];
  }

  lemma EnterSelect(buffer: int, key: Key, steps: seq<Step>, n: nat) returns (more: seq<Step>)
    requires Runs(New(buffer), steps)
    requires Filling(After(New(buffer), steps), key, n, SubmitWantsMailbox(key, 0, 0))
    ensures Runs(New(buffer), more) && After(New(buffer), more).capacity == After(New(buffer), steps).capacity
    ensures Filling(After(New(buffer), more), key, n, SubmitInSelect(key, 0, 0))
  {
    var s := After(New(buffer), steps);
    Extend(New(buffer), steps, LockMailbox(0));
    assert Filling(EnterMailbox(s, 0), key, n, SubmitInMailbox(key, 0, 0));
    more := steps + [LockMailbox(0)];
    Extend(New(buffer), more, CheckClosed(0));
    more := more + [CheckClosed(0)];
  }

  lemma {:induction false} FillUp(buffer: int, key: Key, steps: seq<Step>, n: nat) returns (more: seq<Step>)
    requires Runs(New(buffer), steps) && Filling(After(New(buffer), steps), key, n, SubmitInSelect(key, 0, 0))
    ensures Runs(New(buffer), more)
    ensures Filling(After(New(buffer), more), key, After(New(buffer), more).capacity, SubmitInSelect(key, 0, 0))
    decreases After(New(buffer), steps).capacity - n
  {
    if n == After(New(buffer), steps).capacity {
      more := steps;
    } else {
      more := SendOne(buffer, key, steps, n);
      more := ReachMailbox(buffer, key, more, n + 1);
      more := EnterSelect(buffer, key, more, n + 1);
      more := FillUp(buffer, key, more, n + 1);
    }
  }

  /** Caller 0 is the first to look for `key`. */
  function FirstLookUp(buffer: int, key: Key): State {
    New(buffer).(mu := Some(Caller(0)), callers := map[0 := SubmitInRegistry(key, 0)])
  }

  lemma ReachFirstLookUp(buffer: int, key: Key) returns (steps: seq<Step>)
    ensures Runs(New(buffer), steps) && After(New(buffer), steps) == FirstLookUp(buffer, key)
  {
    var s := New(buffer);
    Extend(s, [], CallSubmit(0, key, 0));
    steps := [CallSubmit(0, key, 0)];
    Extend(s, steps, LockRegistry(0));
    steps := steps + [LockRegistry(0)];
  }

  /** A dispatcher with one mailbox for `key` whose worker has just seen its timer fire. */
  lemma FirstSubmit(buffer: int, key: Key) returns (steps: seq<Step>)
    ensures Runs(New(buffer), steps)
    ensures Filling(After(New(buffer), steps), key, 0, SubmitWantsMailbox(key, 0, 0))
  {
    steps := ReachFirstLookUp(buffer, key);
    Extend(New(buffer), steps, LookUp(0));
    steps := steps + [LookUp(0)];
    Extend(New(buffer), steps, TimerFires(0));
    steps := steps + [TimerFires(0)];
  }

  /** Whatever the buffer size, some run ends in the circular wait, before caller 1 has called. */
  lemma CircleIsReachable(buffer: int, key: Key) returns (steps: seq<Step>)
    ensures Runs(New(buffer), steps) && CircularWait(After(New(buffer), steps), 0, 0)
    ensures Filling(After(New(buffer), steps), key, After(New(buffer), steps).capacity, SubmitInSelect(key, 0, 0))
  {
    steps := FirstSubmit(buffer, key);
    steps := EnterSelect(buffer, key, steps, 0);
    steps := FillUp(buffer, key, steps, 0);
  }
}
