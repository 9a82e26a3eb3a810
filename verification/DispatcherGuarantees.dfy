/** What the dispatcher promises its callers, over every run from a new dispatcher. */
module DispatcherGuarantees {
  import opened Dispatcher
  import opened DispatcherSafety

  // ---------- Order, exclusion, conservation ----------

  /** The jobs of one key now inside a worker, over all generations of its mailbox. */
  function Running(boxes: seq<Mailbox>, key: Key): seq<Job> {
    if boxes == [] then []
    else
      var last := boxes[|boxes| - 1];
      Running(boxes[..|boxes| - 1], key) + if last.key == key && last.worker.RunningJob? then [last.worker.job] else []
  }

  lemma RunningNothing(boxes: seq<Mailbox>, key: Key)
    requires forall i :: 0 <= i < |boxes| && boxes[i].key == key ==> boxes[i].OwesNothing()
    ensures Running(boxes, key) == []
  {
    if boxes != [] {
      var n := |boxes| - 1;
      assert boxes[n] in boxes;
      RunningNothing(boxes[..n], key);
    }
  }

  lemma {:induction false} RunningInOne(boxes: seq<Mailbox>, m: nat)
    requires m < |boxes|
    requires forall i :: 0 <= i < |boxes| && i != m && boxes[i].key == boxes[m].key ==> boxes[i].OwesNothing()
    ensures Running(boxes, boxes[m].key) == if boxes[m].worker.RunningJob? then [boxes[m].worker.job] else []
  {
    var n := |boxes| - 1;
    if m == n {
      RunningNothing(boxes[..n], boxes[m].key);
    } else {
      RunningInOne(boxes[..n], m);
      assert boxes[n].key == boxes[m].key ==> boxes[n].OwesNothing();
    }
  }

  lemma RunningLeadsOwed(s: State, key: Key)
    requires Structure(s)
    ensures |Running(s.mailboxes, key)| <= 1
    ensures Running(s.mailboxes, key) <= Owed(s.mailboxes, key)
  {
    if m :| 0 <= m < |s.mailboxes| && s.mailboxes[m].key == key && !s.mailboxes[m].OwesNothing() {
      OnlyOneOwes(s, m);
      OwedByOne(s.mailboxes, m);
      RunningInOne(s.mailboxes, m);
    } else {
      OwedNothing(s.mailboxes, key);
      RunningNothing(s.mailboxes, key);
    }
  }

  /**
   In every run, the jobs accepted for a key are exactly those finished, the one running and
   those buffered, over all generations of its mailbox; they start one at a time and in the
   order in which they were accepted.
   */
  lemma JobsRunInAcceptanceOrder(buffer: int, steps: seq<Step>, key: Key)
    requires Runs(New(buffer), steps)
    ensures var s := After(New(buffer), steps);
            && At(s.accepted, key) == At(s.finished, key) + Owed(s.mailboxes, key)
            && |Running(s.mailboxes, key)| <= 1
            && At(s.finished, key) + Running(s.mailboxes, key) <= At(s.accepted, key)
  {
    ReachableInv(buffer, steps);
    var s := After(New(buffer), steps);
    RunningLeadsOwed(s, key);
    assert At(s.accepted, key) == At(s.finished, key) + Owed(s.mailboxes, key);
  }

  /** A mailbox that a later one of its key has replaced never starts another job. */
  lemma OldGenerationIsSilent(buffer: int, steps: seq<Step>, i: nat, j: nat)
    requires Runs(New(buffer), steps)
    requires i < j < |After(New(buffer), steps).mailboxes|
    requires After(New(buffer), steps).mailboxes[i].key == After(New(buffer), steps).mailboxes[j].key
    ensures !After(New(buffer), steps).mailboxes[i].worker.RunningJob?
    ensures !Enabled(After(New(buffer), steps), Receive(i))
    ensures forall t :: Enabled(After(New(buffer), steps), Send(t)) ==> Pc(After(New(buffer), steps), t).box != i
  {
    ReachableInv(buffer, steps);
    var s := After(New(buffer), steps);
    assert s.mailboxes[i].closed && s.mailboxes[i].OwesNothing();
    forall t | Enabled(s, Send(t)) ensures Pc(s, t).box != i {
      assert CallerOk(s, t);
    }
  }

  // ---------- Channels ----------

  /**
   No run sends on a closed channel or closes one twice, and the eviction never finds another
   mailbox registered.
   */
  lemma NoRunPanics(buffer: int, steps: seq<Step>)
    requires Runs(New(buffer), steps)
    ensures !After(New(buffer), steps).panicked
    ensures forall m :: Enabled(After(New(buffer), steps), EvictDecide(m)) ==>
                          !EvictionFindsStranger(After(New(buffer), steps), m)
  {
    ReachableInv(buffer, steps);
    var s := After(New(buffer), steps);
    forall m | Enabled(s, EvictDecide(m)) ensures !EvictionFindsStranger(s, m) {
      assert MailboxOk(s, m);
    }
  }

  lemma StepKeepsClosed(s: State, step: Step)
    requires Structure(s) && Enabled(s, step)
    ensures |s.mailboxes| <= |Apply(s, step).mailboxes|
    ensures forall m :: 0 <= m < |s.mailboxes| && s.mailboxes[m].closed ==> Apply(s, step).mailboxes[m].closed
    ensures s.closed ==> Apply(s, step).closed
  {
    if !Widens(s, step) {
      var _, _ := StepIsLocal(s, step);
    }
  }

  lemma {:induction false} RunKeepsClosed(s: State, steps: seq<Step>)
    requires Inv(s) && Runs(s, steps)
    ensures |s.mailboxes| <= |After(s, steps).mailboxes|
    ensures forall m :: 0 <= m < |s.mailboxes| && s.mailboxes[m].closed ==> After(s, steps).mailboxes[m].closed
    ensures s.closed ==> After(s, steps).closed
    decreases |steps|
  {
    if steps == [] {
    } else {
      StepKeepsClosed(s, steps[0]);
      StepKeepsInv(s, steps[0]);
      RunKeepsClosed(Apply(s, steps[0]), steps[1..]);
    }
  }

  /** A mailbox once seen closed is never handed out by a later lookup, so a Submit retry gets another one. */
  lemma RetryNeverGetsClosedMailbox(s: State, m: nat, steps: seq<Step>, t: nat)
    requires Inv(s) && m < |s.mailboxes| && s.mailboxes[m].closed
    requires Runs(s, steps) && Enabled(After(s, steps), LookUp(t))
    ensures var s' := Apply(After(s, steps), LookUp(t));
            Pc(s', t).SubmitWantsMailbox? ==>
              Pc(s', t).box != m && Pc(s', t).box < |s'.mailboxes| && !s'.mailboxes[Pc(s', t).box].closed
  {
    RunKeepsClosed(s, steps);
    RunKeepsInv(s, steps);
    var u := After(s, steps);
    assert CallerOk(u, t);
    StepKeepsStructure(u, LookUp(t));
  }

  // ---------- Shutdown ----------

  /**
   A step of a closed dispatcher creates no mailbox, and neither the wait group nor the exited
   workers come back.
   */
  lemma ClosedStep(s: State, step: Step)
    requires Inv(s) && s.closed && Enabled(s, step)
    ensures var s' := Apply(s, step);
            && s'.closed && |s'.mailboxes| == |s.mailboxes| && s'.waitGroup <= s.waitGroup
            && (ClosedExcept(s, {}) ==> ClosedExcept(s', {}) && s'.accepted == s.accepted)
            && (AllExited(s) ==> AllExited(s'))
  {
    hide Live, Superseded, HoldsOnly;
    var _, _ := StepIsLocal(s, step);
    if step.Send? {
      hide MailboxOk;
      assert CallerOk(s, step.t);
    }
  }

  lemma {:induction false} ClosedRun(s: State, steps: seq<Step>)
    requires Inv(s) && s.closed && Runs(s, steps)
    ensures var s' := After(s, steps);
            && s'.closed && |s'.mailboxes| == |s.mailboxes| && s'.waitGroup <= s.waitGroup
            && (ClosedExcept(s, {}) ==> ClosedExcept(s', {}) && s'.accepted == s.accepted)
            && (AllExited(s) ==> AllExited(s'))
    decreases |steps|
  {
    if steps == [] {
    } else {
      ClosedStep(s, steps[0]);
      StepKeepsInv(s, steps[0]);
      ClosedRun(Apply(s, steps[0]), steps[1..]);
    }
  }

  /**
   Once a Shutdown waits for the wait group, every mailbox is closed: whatever happens next, the
   wait group never rises and no further job is accepted.
   */
  lemma WaitingShutdownFreezesAcceptance(s: State, steps: seq<Step>, t: nat)
    requires Inv(s) && Pc(s, t).ShutdownWaiting? && Runs(s, steps)
    ensures After(s, steps).accepted == s.accepted
    ensures After(s, steps).waitGroup <= s.waitGroup
  {
    assert CallerOk(s, t);
    ClosedRun(s, steps);
  }

  /**
   A Shutdown that returns through `done` leaves nothing behind: at that point and after any
   continuation, every job ever accepted has run.
   */
  lemma DrainedShutdownRanEverything(buffer: int, steps: seq<Step>, t: nat, more: seq<Step>, key: Key)
    requires Runs(New(buffer), steps)
    requires Pc(After(New(buffer), steps), t) == ShutdownReturned(Drained)
    requires Runs(After(New(buffer), steps), more)
    ensures var s' := After(After(New(buffer), steps), more);
            && At(s'.finished, key) == At(s'.accepted, key)
            && s'.accepted == After(New(buffer), steps).accepted
  {
    ReachableInv(buffer, steps);
    var s := After(New(buffer), steps);
    assert CallerOk(s, t);
    ClosedRun(s, more);
    RunKeepsInv(s, more);
    var s' := After(s, more);
    assert At(s'.accepted, key) == At(s'.finished, key) + Owed(s'.mailboxes, key);
    forall i | 0 <= i < |s'.mailboxes| && s'.mailboxes[i].key == key ensures s'.mailboxes[i].OwesNothing() {
      assert MailboxOk(s', i);
    }
    OwedNothing(s'.mailboxes, key);
  }

  ghost predicate EverythingRan(s: State) {
    forall key :: At(s.finished, key) == At(s.accepted, key)
  }

  ghost predicate NothingOwed(s: State) {
    forall m :: 0 <= m < |s.mailboxes| ==> s.mailboxes[m].OwesNothing()
  }

  /** Shutdown returns nil on two paths. */
  predicate ReturnsNil(pc: CallerPc) {
    pc == ShutdownReturned(Drained) || pc == ShutdownReturned(AlreadyClosed)
  }

  lemma {:induction false} NoneOwedNoneOwes(boxes: seq<Mailbox>, m: nat)
    requires m < |boxes| && Owed(boxes, boxes[m].key) == []
    ensures boxes[m].OwesNothing()
  {
    var n := |boxes| - 1;
    if m < n {
      NoneOwedNoneOwes(boxes[..n], m);
    }
  }

  lemma RanIffNothingOwed(s: State)
    requires Conserved(s)
    ensures EverythingRan(s) <==> NothingOwed(s)
  {
    if EverythingRan(s) {
      forall m | 0 <= m < |s.mailboxes| ensures s.mailboxes[m].OwesNothing() {
        var key := s.mailboxes[m].key;
        assert At(s.finished, key) == At(s.accepted, key) == At(s.finished, key) + Owed(s.mailboxes, key);
        NoneOwedNoneOwes(s.mailboxes, m);
      }
    }
    if NothingOwed(s) {
      forall key ensures At(s.finished, key) == At(s.accepted, key) {
        OwedNothing(s.mailboxes, key);
        assert At(s.accepted, key) == At(s.finished, key) + Owed(s.mailboxes, key);
      }
    }
  }

  /**
   A Shutdown that finds the dispatcher closed returns nil at once, and everything has run there
   exactly if no mailbox owes a job.
   */
  lemma ShutdownOfClosed(buffer: int, steps: seq<Step>, t: nat)
    requires Runs(New(buffer), steps) && Enabled(After(New(buffer), steps), BeginShutdown(t))
    requires After(New(buffer), steps).closed
    ensures var s := Apply(After(New(buffer), steps), BeginShutdown(t));
            ReturnsNil(Pc(s, t)) && (EverythingRan(s) <==> NothingOwed(s))
  {
    hide Inv, Conserved;
    ReachableInv(buffer, steps);
    StepKeepsInv(After(New(buffer), steps), BeginShutdown(t));
    InvConserves(Apply(After(New(buffer), steps), BeginShutdown(t)));
    RanIffNothingOwed(Apply(After(New(buffer), steps), BeginShutdown(t)));
  }

  lemma InvConserves(s: State)
    requires Inv(s)
    ensures Conserved(s) && Structure(s)
  {
  }

  /** Where a Shutdown that closed the dispatcher can stand until its caller calls again. */
  predicate ClosedIt(pc: CallerPc) {
    Closing(pc) || pc == ShutdownReturned(Drained) || pc == ShutdownReturned(GaveUp)
  }

  predicate CallsAgain(step: Step, t: nat) {
    (step.CallSubmit? || step.CallShutdown?) && step.t == t
  }

  lemma StepKeepsClosedIt(s: State, step: Step, t: nat)
    requires Structure(s) && Enabled(s, step) && ClosedIt(Pc(s, t)) && !CallsAgain(step, t)
    ensures ClosedIt(Pc(Apply(s, step), t))
  {
    if ByWorker(step) || step.t != t {
      OthersLeaveThePc(s, step, t);
    }
  }

  lemma OthersLeaveThePc(s: State, step: Step, t: nat)
    requires Structure(s) && Enabled(s, step) && (ByWorker(step) || step.t != t)
    ensures Pc(Apply(s, step), t) == Pc(s, t)
  {
    hide Structure, Local, Enabled, Apply;
    if ByWorker(step) {
      WorkerStepIsLocal(s, step);
      LocalLeavesThePc(s, Apply(s, step), -1, step.m, t);
    } else if BoxOf(s, step) >= 0 {
      BoxStepIsLocal(s, step);
      LocalLeavesThePc(s, Apply(s, step), step.t, BoxOf(s, step), t);
    } else if !Widens(s, step) {
      CallerStepIsLocal(s, step);
      LocalLeavesThePc(s, Apply(s, step), step.t, -1, t);
    } else {
      WideningLeavesThePc(s, step, t);
    }
  }

  lemma LocalLeavesThePc(s: State, s': State, actor: int, box: int, t: nat)
    requires Local(s, s', actor, box) && actor != t
    ensures Pc(s', t) == Pc(s, t)
  {
  }

  lemma WideningLeavesThePc(s: State, step: Step, t: nat)
    requires Enabled(s, step) && Widens(s, step) && step.t != t
    ensures Pc(Apply(s, step), t) == Pc(s, t)
  {
  }

  lemma {:induction false} RunKeepsClosedIt(s: State, steps: seq<Step>, t: nat)
    requires Inv(s) && Runs(s, steps) && ClosedIt(Pc(s, t))
    requires forall i :: 0 <= i < |steps| ==> !CallsAgain(steps[i], t)
    ensures ClosedIt(Pc(After(s, steps), t))
    decreases |steps|
  {
    if steps == [] {
    } else {
      hide Structure, Conserved, Apply, Enabled, ClosedIt, CallsAgain;
      StepKeepsClosedIt(s, steps[0], t);
      StepKeepsInv(s, steps[0]);
      RunKeepsClosedIt(Apply(s, steps[0]), steps[1..], t);
    }
  }

  /** A Shutdown that finds the dispatcher open returns nil only with everything run. */
  lemma ShutdownOfOpen(buffer: int, before: seq<Step>, t: nat, later: seq<Step>)
    requires Runs(New(buffer), before) && Enabled(After(New(buffer), before), BeginShutdown(t))
    requires !After(New(buffer), before).closed
    requires Runs(Apply(After(New(buffer), before), BeginShutdown(t)), later)
    requires forall i :: 0 <= i < |later| ==> !CallsAgain(later[i], t)
    ensures var s := After(Apply(After(New(buffer), before), BeginShutdown(t)), later);
            ReturnsNil(Pc(s, t)) ==> EverythingRan(s)
  {
    hide Inv, Conserved, Structure;
    var s1 := Apply(After(New(buffer), before), BeginShutdown(t));
    assert ClosedIt(Pc(s1, t));
    ReachableInv(buffer, before);
    StepKeepsInv(After(New(buffer), before), BeginShutdown(t));
    RunKeepsClosedIt(s1, later, t);
    RunKeepsInv(s1, later);
    var s := After(s1, later);
    if ReturnsNil(Pc(s, t)) {
      InvConserves(s);
      DrainedOwesNothing(s, t);
      RanIffNothingOwed(s);
    }
  }

  lemma DrainedOwesNothing(s: State, t: nat)
    requires Structure(s) && Pc(s, t) == ShutdownReturned(Drained)
    ensures NothingOwed(s)
  {
    assert CallerOk(s, t);
    forall m | 0 <= m < |s.mailboxes| ensures s.mailboxes[m].OwesNothing() {
      assert MailboxOk(s, m);
    }
  }
}
