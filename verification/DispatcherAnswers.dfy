/** What a call of Submit answers, and that the answers of all calls are the record of accepted jobs. */
module DispatcherAnswers {
  import Text
  import opened Dispatcher
  import opened DispatcherSafety
  import opened DispatcherGuarantees

  /** Inside a call of Submit for `job` under `key`. */
  predicate Submits(pc: CallerPc, key: Key, job: Job) {
    InSubmit(pc) && pc.key == key && pc.job == job
  }

  predicate InSubmit(pc: CallerPc) {
    pc.SubmitWantsRegistry? || pc.SubmitInRegistry? || TalksTo(pc)
  }

  /** The step appends exactly `job` to the accepted jobs of `key`. */
  ghost predicate Accepts(s: State, s': State, key: Key, job: Job) {
    forall k :: At(s'.accepted, k) == At(s.accepted, k) + if k == key then [job] else []
  }

  /** The step accepts nothing and leaves what every mailbox owes as it was; a new mailbox owes nothing. */
  predicate AcceptsNothing(s: State, s': State) {
    && s'.accepted == s.accepted && s'.finished == s.finished && |s.mailboxes| <= |s'.mailboxes|
    && (forall m :: 0 <= m < |s.mailboxes| ==> s'.mailboxes[m].Work() == s.mailboxes[m].Work())
    && (forall m :: |s.mailboxes| <= m < |s'.mailboxes| ==> s'.mailboxes[m].OwesNothing())
  }

  /**
   A step of a caller inside Submit answers nil exactly if it hands this very job over, "dispatcher
   closed" exactly if its lookup finds the dispatcher closed, and the context's error exactly if the
   caller's own context ends; without an answer it is still inside the same call.
   */
  ghost predicate AnswersRightly(s: State, step: Step, key: Key, job: Job)
    requires Enabled(s, step) && !ByWorker(step)
  {
    var s' := Apply(s, step);
    var pc := Pc(s', step.t);
    && (pc == SubmitReturned(Accepted) <==> Accepts(s, s', key, job))
    && (pc != SubmitReturned(Accepted) ==> AcceptsNothing(s, s'))
    && (pc == SubmitReturned(DispatcherClosed) <==> step == LookUp(step.t) && s.closed)
    && (pc == SubmitReturned(ContextDone) <==> step == CancelSubmit(step.t))
    && (pc.SubmitReturned? || Submits(pc, key, job))
  }

  lemma SendAnswers(s: State, t: nat, key: Key, job: Job)
    requires Structure(s) && Enabled(s, Send(t)) && Submits(Pc(s, t), key, job)
    ensures AnswersRightly(s, Send(t), key, job)
  {
    assert CallerOk(s, t) && MailboxOk(s, Pc(s, t).box);
  }

  lemma OthersAcceptNothing(s: State, step: Step)
    requires Structure(s) && Enabled(s, step) && !step.Send? && !step.FinishJob?
    ensures AcceptsNothing(s, Apply(s, step))
  {
    if Widens(s, step) {
      WideningAcceptsNothing(s, step);
    } else {
      hide Structure, Apply, Enabled, MailboxOk, CallerOk, HoldsOnly;
      var t, m := StepIsLocal(s, step);
    }
  }

  lemma WideningAcceptsNothing(s: State, step: Step)
    requires Enabled(s, step) && Widens(s, step)
    ensures AcceptsNothing(s, Apply(s, step)) && Apply(s, step).capacity == s.capacity
  {
    hide EnterMailbox, LeaveMailbox, TestClosed, SendJob, CloseNext, StartJob, EndJob, TestIdle, TryEvict;
  }

  lemma RegistryStepAnswers(s: State, step: Step, key: Key, job: Job)
    requires Enabled(s, step) && (step.LockRegistry? || step.LookUp?) && Submits(Pc(s, step.t), key, job)
    ensures var pc := Pc(Apply(s, step), step.t);
            && (pc == SubmitReturned(DispatcherClosed) <==> step == LookUp(step.t) && s.closed)
            && (pc == SubmitReturned(DispatcherClosed) || Submits(pc, key, job))
  {
    hide EnterMailbox, LeaveMailbox, TestClosed, SendJob, CloseNext, StartJob, EndJob, TestIdle, TryEvict;
  }

  lemma MailboxStepAnswers(s: State, step: Step, key: Key, job: Job)
    requires Enabled(s, step) && (step.LockMailbox? || step.CheckClosed? || step.CancelSubmit?) && Submits(Pc(s, step.t), key, job)
    ensures var pc := Pc(Apply(s, step), step.t);
            if step.CancelSubmit? then pc == SubmitReturned(ContextDone) else Submits(pc, key, job)
  {
    hide GetOrCreateMailbox, TakeSnapshot, EnterRegistry, SendJob, CloseNext, StartJob, EndJob, TestIdle, TryEvict;
  }

  lemma OthersAnswer(s: State, step: Step, key: Key, job: Job)
    requires Structure(s) && Enabled(s, step) && !ByWorker(step) && Submits(Pc(s, step.t), key, job) && !step.Send?
    ensures AnswersRightly(s, step, key, job)
  {
    hide Structure, Apply, At;
    OthersAcceptNothing(s, step);
    assert At(s.accepted, key) != At(s.accepted, key) + [job];
    if step.LockRegistry? || step.LookUp? {
      RegistryStepAnswers(s, step, key, job);
    } else {
      MailboxStepAnswers(s, step, key, job);
    }
  }

  lemma SubmitAnswers(s: State, step: Step, key: Key, job: Job)
    requires Structure(s) && Enabled(s, step) && !ByWorker(step) && Submits(Pc(s, step.t), key, job)
    ensures AnswersRightly(s, step, key, job)
  {
    if step.Send? {
      SendAnswers(s, step.t, key, job);
    } else {
      OthersAnswer(s, step, key, job);
    }
  }

  /** In every reachable state, every step of a caller inside Submit answers rightly. */
  lemma EverySubmitAnswersRightly(buffer: int, steps: seq<Step>, step: Step, key: Key, job: Job)
    requires Runs(New(buffer), steps) && Enabled(After(New(buffer), steps), step) && !ByWorker(step)
    requires Submits(Pc(After(New(buffer), steps), step.t), key, job)
    ensures AnswersRightly(After(New(buffer), steps), step, key, job)
  {
    ReachableInv(buffer, steps);
    SubmitAnswers(After(New(buffer), steps), step, key, job);
  }

  // ---------- Whole runs ----------

  /** The job whose Submit under `key` this step answers with nil, if it does. */
  function Answered(s: State, step: Step, key: Key): seq<Job>
    requires Enabled(s, step)
  {
    if ByWorker(step) then []
    else
      var pc := Pc(s, step.t);
      if InSubmit(pc) && pc.key == key && Pc(Apply(s, step), step.t) == SubmitReturned(Accepted)
      then [pc.job] else []
  }

  /** The jobs of all calls under `key` that a run answers with nil, in the order of the answers. */
  function AnsweredIn(s: State, steps: seq<Step>, key: Key): seq<Job>
    requires Runs(s, steps)
    decreases |steps|
  {
    if steps == [] then [] else Answered(s, steps[0], key) + AnsweredIn(Apply(s, steps[0]), steps[1..], key)
  }

  lemma StepRecordsAnswers(s: State, step: Step, key: Key)
    requires Structure(s) && Enabled(s, step)
    ensures At(Apply(s, step).accepted, key) == At(s.accepted, key) + Answered(s, step, key)
  {
    if step.Send? {
      var pc := Pc(s, step.t);
      SendAnswers(s, step.t, pc.key, pc.job);
      assert Accepts(s, Apply(s, step), pc.key, pc.job) by {
        assert CallerOk(s, step.t) && MailboxOk(s, pc.box);
      }
    } else {
      OnlySendsAccept(s, step, key);
    }
  }

  lemma OnlySendsAccept(s: State, step: Step, key: Key)
    requires Structure(s) && Enabled(s, step) && !step.Send?
    ensures Apply(s, step).accepted == s.accepted && Answered(s, step, key) == []
  {
    if step.FinishJob? {
    } else {
      OthersAcceptNothing(s, step);
      if !ByWorker(step) && InSubmit(Pc(s, step.t)) {
        SubmitAnswers(s, step, Pc(s, step.t).key, Pc(s, step.t).job);
      }
    }
  }

  lemma {:induction false} RunRecordsAnswers(s: State, steps: seq<Step>, key: Key)
    requires Inv(s) && Runs(s, steps)
    ensures At(After(s, steps).accepted, key) == At(s.accepted, key) + AnsweredIn(s, steps, key)
    decreases |steps|
  {
    hide Inv, Apply, Enabled, Answered, At;
    if steps == [] {
    } else {
      var s' := Apply(s, steps[0]);
      InvConserves(s);
      StepRecordsAnswers(s, steps[0], key);
      StepKeepsInv(s, steps[0]);
      RunRecordsAnswers(s', steps[1..], key);
      Text.Assoc(At(s.accepted, key), Answered(s, steps[0], key), AnsweredIn(s', steps[1..], key));
    }
  }

  /**
   In every run the record of accepted jobs is, key by key, the jobs whose Submit answered nil, in the
   order of the answers. So a job has run or is running only if its Submit answered nil, and they run
   in the order of the answers.
   */
  lemma AcceptedIsAnswered(buffer: int, steps: seq<Step>, key: Key)
    requires Runs(New(buffer), steps)
    ensures var s := After(New(buffer), steps);
            && At(s.accepted, key) == AnsweredIn(New(buffer), steps, key)
            && At(s.finished, key) + Running(s.mailboxes, key) <= AnsweredIn(New(buffer), steps, key)
  {
    hide Inv, Answered, Enabled, Apply, Running;
    ReachableInv(buffer, []);
    RunRecordsAnswers(New(buffer), steps, key);
    assert At(New(buffer).accepted, key) == [];
    JobsRunInAcceptanceOrder(buffer, steps, key);
  }

  // ---------- The buffer ----------

  lemma {:induction false} RunKeepsCapacity(s: State, steps: seq<Step>)
    requires Inv(s) && Runs(s, steps)
    ensures After(s, steps).capacity == s.capacity
    decreases |steps|
  {
    hide Inv, Apply, Enabled;
    if steps == [] {
    } else {
      StepKeepsInv(s, steps[0]);
      StepKeepsCapacity(s, steps[0]);
      RunKeepsCapacity(Apply(s, steps[0]), steps[1..]);
    }
  }

  lemma StepKeepsCapacity(s: State, step: Step)
    requires Inv(s) && Enabled(s, step)
    ensures Apply(s, step).capacity == s.capacity
  {
    if Widens(s, step) {
      WideningAcceptsNothing(s, step);
    } else {
      hide Structure, Apply, Enabled, MailboxOk, CallerOk, HoldsOnly;
      var _, _ := StepIsLocal(s, step);
    }
  }

  /**
   In every run a mailbox buffers at most as many jobs as the dispatcher was made for, at least one,
   and a Submit in its select waits exactly while that many are buffered.
   */
  lemma BufferIsAsMade(buffer: int, steps: seq<Step>, m: nat)
    requires Runs(New(buffer), steps) && m < |After(New(buffer), steps).mailboxes|
    ensures var s := After(New(buffer), steps);
            && |s.mailboxes[m].jobs| <= (if buffer < 1 then 1 else buffer)
            && forall t :: Pc(s, t).SubmitInSelect? && Pc(s, t).box == m ==>
                             (Enabled(s, Send(t)) <==> |s.mailboxes[m].jobs| != (if buffer < 1 then 1 else buffer))
  {
    ReachableInv(buffer, steps);
    ReachableInv(buffer, []);
    RunKeepsCapacity(New(buffer), steps);
    var s := After(New(buffer), steps);
    assert MailboxOk(s, m);
    forall t | Pc(s, t).SubmitInSelect? && Pc(s, t).box == m
      ensures Enabled(s, Send(t)) <==> |s.mailboxes[m].jobs| != (if buffer < 1 then 1 else buffer)
    {
      assert CallerOk(s, t);
    }
  }
}
