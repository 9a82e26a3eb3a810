/** Runs of the dispatcher that show where its guarantees end. */
module DispatcherScenarios {
  import opened Wrappers
  import opened Dispatcher
  import opened DispatcherSafety
  import opened DispatcherGuarantees
  import opened DispatcherProgress

  /** A run from a new dispatcher, one step longer. */
  lemma Do(buffer: int, steps: seq<Step>, step: Step) returns (more: seq<Step>)
    requires Runs(New(buffer), steps) && Enabled(After(New(buffer), steps), step)
    ensures Runs(New(buffer), more) && After(New(buffer), more) == Apply(After(New(buffer), steps), step)
  {
    hide Apply, Enabled;
    Extend(New(buffer), steps, step);
    more := steps + [step];
  }

  /** Caller 0 has created the mailbox of `key` and is about to lock it. */
  function Created(buffer: int, key: Key, job: Job): State {
    New(buffer).(mailboxes := [Mailbox(key, [], true, false, None, AtSelect)], registry := map[key := 0], waitGroup := 1,
                 callers := map[0 := SubmitWantsMailbox(key, job, 0)])
  }

  lemma Create(buffer: int, key: Key, job: Job) returns (steps: seq<Step>)
    ensures Runs(New(buffer), steps) && After(New(buffer), steps) == Created(buffer, key, job)
  {
    steps := Do(buffer, [], CallSubmit(0, key, job));
    steps := Do(buffer, steps, LockRegistry(0));
    steps := Do(buffer, steps, LookUp(0));
    assert After(New(buffer), steps).callers == map[0 := SubmitWantsMailbox(key, job, 0)];
  }

  /** The mailbox was evicted under the caller's hands; its worker has not left the wait group. */
  function Evicted(buffer: int, key: Key, job: Job): State {
    Created(buffer, key, job).(mailboxes := [Mailbox(key, [], false, true, None, Leaving)], registry := map[])
  }

  /** The worker is at `worker` on its way to the eviction, which holds the mailbox lock if `locked`. */
  function Evicting(buffer: int, key: Key, job: Job, worker: WorkerPc, locked: bool): State {
    Created(buffer, key, job).(
    mailboxes := [Mailbox(key, [], true, false, if locked then Some(Worker(0)) else None, worker)])
  }

  lemma TimerIsSeen(buffer: int, key: Key, job: Job)
    ensures Enabled(Created(buffer, key, job), TimerFires(0))
    ensures Apply(Created(buffer, key, job), TimerFires(0)) == Evicting(buffer, key, job, EvictWantsMailbox, false)
  {
  }

  lemma MailboxIsLocked(buffer: int, key: Key, job: Job)
    ensures Enabled(Evicting(buffer, key, job, EvictWantsMailbox, false), EvictLockMailbox(0))
    ensures Apply(Evicting(buffer, key, job, EvictWantsMailbox, false), EvictLockMailbox(0)) ==
            Evicting(buffer, key, job, EvictInMailbox, true)
  {
  }

  lemma IdleIsSeen(buffer: int, key: Key, job: Job)
    ensures Enabled(Evicting(buffer, key, job, EvictInMailbox, true), EvictCheck(0))
    ensures Apply(Evicting(buffer, key, job, EvictInMailbox, true), EvictCheck(0)) ==
            Evicting(buffer, key, job, EvictWantsRegistry, true)
  {
  }

  lemma BeginEviction(buffer: int, key: Key, job: Job) returns (steps: seq<Step>)
    ensures Runs(New(buffer), steps)
    ensures After(New(buffer), steps) == Evicting(buffer, key, job, EvictWantsRegistry, true)
  {
    hide Apply, Enabled;
    steps := Create(buffer, key, job);
    TimerIsSeen(buffer, key, job);
    steps := Do(buffer, steps, TimerFires(0));
    MailboxIsLocked(buffer, key, job);
    steps := Do(buffer, steps, EvictLockMailbox(0));
    IdleIsSeen(buffer, key, job);
    steps := Do(buffer, steps, EvictCheck(0));
  }

  lemma Evict(buffer: int, key: Key, job: Job) returns (steps: seq<Step>)
    ensures Runs(New(buffer), steps) && After(New(buffer), steps) == Evicted(buffer, key, job)
  {
    steps := BeginEviction(buffer, key, job);
    steps := Do(buffer, steps, EvictLockRegistry(0));
    assert After(New(buffer), steps) == BothLocked(buffer, key, job);
    steps := Do(buffer, steps, EvictDecide(0));
    DecideEvicts(buffer, key, job);
  }

  function BothLocked(buffer: int, key: Key, job: Job): State {
    Evicting(buffer, key, job, EvictInRegistry, true).(mu := Some(Worker(0)))
  }

  lemma DecideEvicts(buffer: int, key: Key, job: Job)
    ensures Enabled(BothLocked(buffer, key, job), EvictDecide(0))
    ensures Apply(BothLocked(buffer, key, job), EvictDecide(0)) == Evicted(buffer, key, job)
  {
    assert map[key := 0] - {key} == map[];
  }

  /** Two workers of one key live at once: the old one on its way out, the new one in its loop. */
  lemma TwoWorkersCoexist(buffer: int, key: Key, job: Job) returns (steps: seq<Step>)
    ensures Runs(New(buffer), steps)
    ensures var s := After(New(buffer), steps);
            && |s.mailboxes| == 2 && s.mailboxes[0].key == s.mailboxes[1].key == key
            && s.mailboxes[0].worker == Leaving && s.mailboxes[1].worker == AtSelect && s.waitGroup == 2
  {
    steps := Evict(buffer, key, job);
    steps := Do(buffer, steps, LockMailbox(0));
    steps := Do(buffer, steps, CheckClosed(0));
    steps := Do(buffer, steps, LockRegistry(0));
    steps := Do(buffer, steps, LookUp(0));
  }

  lemma Accept(buffer: int, key: Key, job: Job) returns (steps: seq<Step>)
    ensures Runs(New(buffer), steps)
    ensures var s := After(New(buffer), steps);
            && !s.closed && s.mu.None? && Pc(s, 1) == Idle && Pc(s, 2) == Idle
            && At(s.accepted, key) == [job] && s.finished == map[]
  {
    steps := Create(buffer, key, job);
    steps := Do(buffer, steps, LockMailbox(0));
    steps := Do(buffer, steps, CheckClosed(0));
    assert Pc(After(New(buffer), steps), 0) == SubmitInSelect(key, job, 0);
    steps := Do(buffer, steps, Send(0));
  }

  /** For every buffer size and key, a second Shutdown returns nil while the accepted job has not even started. */
  lemma ASecondShutdownDoesNotWait(buffer: int, key: Key, job: Job) returns (steps: seq<Step>)
    ensures Runs(New(buffer), steps)
    ensures var s := After(New(buffer), steps);
            ReturnsNil(Pc(s, 2)) && At(s.accepted, key) == [job] && At(s.finished, key) == []
  {
    hide GetOrCreateMailbox, SendJob, CloseNext, EnterMailbox, TestClosed, TestIdle, StartJob, EndJob, TryEvict;
    steps := Accept(buffer, key, job);
    steps := Do(buffer, steps, CallShutdown(1));
    steps := Do(buffer, steps, LockRegistry(1));
    steps := Do(buffer, steps, BeginShutdown(1));
    steps := Do(buffer, steps, CallShutdown(2));
    steps := Do(buffer, steps, LockRegistry(2));
    steps := Do(buffer, steps, BeginShutdown(2));
  }

  /** For every buffer size and key, a run in which a Shutdown has begun with a Submit in the circular wait. */
  lemma AShutdownIsHeldUp(buffer: int, key: Key) returns (steps: seq<Step>)
    ensures Runs(New(buffer), steps)
    ensures var s := After(New(buffer), steps); s.closed && Closing(Pc(s, 1)) && CircularWait(s, 0, 0)
  {
    hide GetOrCreateMailbox, SendJob, CloseNext, EnterMailbox, TestClosed, TestIdle, StartJob, EndJob, TryEvict;
    steps := CircleIsReachable(buffer, key);
    steps := Do(buffer, steps, CallShutdown(1));
    steps := Do(buffer, steps, LockRegistry(1));
    steps := Do(buffer, steps, BeginShutdown(1));
  }
}
