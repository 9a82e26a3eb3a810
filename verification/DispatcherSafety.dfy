/** What every step of the dispatcher keeps, and safety over whole runs. */
module DispatcherSafety {
  import opened Wrappers
  import opened Dispatcher

  // ---------- The invariant ----------

  ghost predicate MailboxOk(s: State, m: nat)
    requires m < |s.mailboxes|
  {
    var box := s.mailboxes[m];
    && box.closed == !box.open
    && |box.jobs| <= s.capacity
    && (!s.closed && !box.closed ==> box.key in s.registry && s.registry[box.key] == m)
    && (!s.closed && box.closed ==> box.OwesNothing())
    && (box.worker.Leaving? || box.worker.Exited? ==> box.closed && box.jobs == [])
    && ((box.worker.EvictInMailbox? || box.worker.EvictWantsRegistry? || box.worker.EvictInRegistry?)
        <==> box.mu == Some(Worker(m)))
    && (box.worker.EvictWantsRegistry? || box.worker.EvictInRegistry? ==> !box.closed && box.jobs == [])
    && (box.worker.EvictInRegistry? <==> s.mu == Some(Worker(m)))
    && (box.mu.Some? ==> box.mu.value.Caller? || box.mu.value == Worker(m))
    && (box.mu.Some? && box.mu.value.Caller? ==> HoldsMailbox(Pc(s, box.mu.value.t), m))
  }

  predicate HoldsMailbox(pc: CallerPc, m: nat) {
    (pc.SubmitInMailbox? || pc.SubmitInSelect? || pc.ShutdownInMailbox?) && pc.box == m
  }

  predicate TalksTo(pc: CallerPc) {
    pc.SubmitWantsMailbox? || pc.SubmitInMailbox? || pc.SubmitInSelect?
  }

  /** A Shutdown that has taken its snapshot and not yet returned. */
  predicate Closing(pc: CallerPc) {
    pc.ShutdownNext? || pc.ShutdownWantsMailbox? || pc.ShutdownInMailbox? || pc.ShutdownWaiting?
  }

  /** The mailboxes a closing Shutdown has still to visit. */
  function Remaining(pc: CallerPc): set<nat> {
    match pc
    case ShutdownNext(todo) => todo
    case ShutdownWantsMailbox(box, todo) => todo + {box}
    case ShutdownInMailbox(box, todo) => todo + {box}
    case _ => {}
  }

  /** Every mailbox outside `except` is closed. */
  ghost predicate ClosedExcept(s: State, except: set<nat>) {
    forall m :: 0 <= m < |s.mailboxes| && m !in except ==> s.mailboxes[m].closed
  }

  ghost predicate AllExited(s: State) {
    forall m :: 0 <= m < |s.mailboxes| ==> s.mailboxes[m].worker.Exited?
  }

  /** The number of workers that have not left the wait group. */
  function Live(boxes: seq<Mailbox>): nat {
    if boxes == [] then 0
    else Live(boxes[..|boxes| - 1]) + if boxes[|boxes| - 1].worker.Exited? then 0 else 1
  }

  predicate PastWaiting(pc: CallerPc) {
    pc == ShutdownWaiting(true) || pc == ShutdownReturned(Drained)
  }

  ghost predicate CallerOk(s: State, t: nat) {
    var pc := Pc(s, t);
    && ((pc.SubmitInRegistry? || pc.ShutdownInRegistry?) <==> s.mu == Some(Caller(t)))
    && (TalksTo(pc) ==> pc.box < |s.mailboxes| && s.mailboxes[pc.box].key == pc.key)
    && (HoldsMailbox(pc, if TalksTo(pc) || pc.ShutdownInMailbox? then pc.box else 0) ==>
          pc.box < |s.mailboxes| && s.mailboxes[pc.box].mu == Some(Caller(t)))
    && (pc.SubmitInSelect? ==> pc.box < |s.mailboxes| && !s.mailboxes[pc.box].closed)
    && (Closing(pc) || PastWaiting(pc) ==> s.closed && ClosedExcept(s, Remaining(pc)))
    && (forall m <- Remaining(pc) :: m < |s.mailboxes|)
    && (PastWaiting(pc) ==> AllExited(s))
  }

  ghost predicate RegistryOk(s: State) {
    && (s.closed ==> s.registry == map[])
    && (forall key <- s.registry ::
          && s.registry[key] < |s.mailboxes|
          && s.mailboxes[s.registry[key]].key == key
          && !s.mailboxes[s.registry[key]].closed)
    && (s.mu.Some? && s.mu.value.Worker? ==> s.mu.value.m < |s.mailboxes|)
  }

  /** Of two mailboxes with one key, the older is closed and owes nothing. */
  ghost predicate Superseded(s: State) {
    forall i, j :: 0 <= i < j < |s.mailboxes| && s.mailboxes[i].key == s.mailboxes[j].key ==>
      s.mailboxes[i].closed && s.mailboxes[i].OwesNothing()
  }

  ghost predicate Structure(s: State) {
    && s.capacity >= 1
    && !s.panicked
    && (forall m :: 0 <= m < |s.mailboxes| ==> MailboxOk(s, m))
    && (forall t: nat :: CallerOk(s, t))
    && RegistryOk(s)
    && Superseded(s)
    && s.waitGroup == Live(s.mailboxes)
  }

  lemma NewStructure(buffer: int)
    ensures Structure(New(buffer))
  {
  }

  // ---------- Frames ----------

  predicate Mine(mu: Option<Agent>, t: int, m: int) {
    mu.None? || (mu.value.Caller? && mu.value.t == t) || (mu.value.Worker? && mu.value.m == m)
  }

  /** The change of a mailbox that others cannot mistake: flags only go one way, and the lock stays with the actor. */
  predicate MailboxMoves(box: Mailbox, box': Mailbox, t: int, m: int) {
    && box'.key == box.key
    && (box.closed ==> box'.closed)
    && (box.worker.Exited? ==> box'.worker.Exited?)
    && (box'.mu == box.mu || (Mine(box.mu, t, m) && Mine(box'.mu, t, m)))
    && (box'.closed != box.closed ==> Mine(box.mu, t, m))
  }

  /** `s'` differs from `s` at caller `t` and mailbox `m` only, each lock moving to or from these two. */
  ghost predicate Touches(s: State, s': State, t: int, m: int) {
    && s'.capacity == s.capacity && s'.closed == s.closed
    && |s'.mailboxes| == |s.mailboxes|
    && (forall u: nat :: u != t ==> Pc(s', u) == Pc(s, u))
    && (forall i :: 0 <= i < |s.mailboxes| && i != m ==> s'.mailboxes[i] == s.mailboxes[i])
    && (0 <= m < |s.mailboxes| ==> MailboxMoves(s.mailboxes[m], s'.mailboxes[m], t, m))
    && (s'.mu == s.mu || (Mine(s.mu, t, m) && Mine(s'.mu, t, m)))
    && (forall key <- s'.registry :: key in s.registry && s'.registry[key] == s.registry[key])
    && (forall key <- s.registry :: s.registry[key] != m ==> key in s'.registry)
  }

  lemma FrameCaller(s: State, s': State, t: int, m: int, u: nat)
    requires Touches(s, s', t, m) && u != t
    requires CallerOk(s, u)
    ensures CallerOk(s', u)
  {
    var pc := Pc(s, u);
    if Closing(pc) || PastWaiting(pc) {
      forall i | 0 <= i < |s.mailboxes| && i !in Remaining(pc) ensures s'.mailboxes[i].closed {
        assert s.mailboxes[i].closed;
      }
    }
    if PastWaiting(pc) {
      forall i | 0 <= i < |s.mailboxes| ensures s'.mailboxes[i].worker.Exited? {
        assert s.mailboxes[i].worker.Exited?;
      }
    }
  }

  lemma FrameMailbox(s: State, s': State, t: int, m: int, i: nat)
    requires Touches(s, s', t, m) && i < |s.mailboxes| && i != m
    requires MailboxOk(s, i)
    requires s.mailboxes[i].mu.Some? && s.mailboxes[i].mu.value.Caller? && s.mailboxes[i].mu.value.t == t ==>
               HoldsMailbox(Pc(s', t), i)
    ensures MailboxOk(s', i)
  {
  }

  lemma LiveUpdate(boxes: seq<Mailbox>, m: nat, box: Mailbox)
    requires m < |boxes|
    ensures Live(boxes[m := box]) ==
            Live(boxes) - (if boxes[m].worker.Exited? then 0 else 1) + (if box.worker.Exited? then 0 else 1)
  {
    var last := |boxes| - 1;
    if m < last {
      LiveUpdate(boxes[..last], m, box);
      assert boxes[m := box][..last] == boxes[..last][m := box];
    } else {
      assert boxes[m := box][..last] == boxes[..last];
    }
  }

  lemma LiveZero(boxes: seq<Mailbox>)
    requires Live(boxes) == 0
    ensures forall m :: 0 <= m < |boxes| ==> boxes[m].worker.Exited?
  {
  }

  /**
   What one action owes: it touches caller `t` and mailbox `m` only (-1 for none), leaves both in
   order, unregisters a mailbox it closes, and takes a worker that exits off the wait group.
   */
  ghost predicate Local(s: State, s': State, t: int, m: int) {
    && -1 <= t && -1 <= m < |s.mailboxes|
    && Touches(s, s', t, m)
    && !s'.panicked
    && (t >= 0 ==> CallerOk(s', t) && HoldsOnly(s, t, Pc(s', t), m))
    && (m >= 0 ==> MailboxOk(s', m))
    && (m >= 0 && s'.mailboxes[m].closed && !s.mailboxes[m].closed && !s.closed ==>
          s.mailboxes[m].key !in s'.registry || s'.registry[s.mailboxes[m].key] != m)
    && (m >= 0 && s.mailboxes[m].closed && s.mailboxes[m].OwesNothing() ==> s'.mailboxes[m].OwesNothing())
    && s'.waitGroup == s.waitGroup -
       if m >= 0 && s'.mailboxes[m].worker.Exited? && !s.mailboxes[m].worker.Exited? then 1 else 0
  }

  /** Every mailbox other than `except` that caller `t` has locked is one that `pc` says it holds. */
  ghost predicate HoldsOnly(s: State, t: nat, pc: CallerPc, except: int) {
    forall i :: 0 <= i < |s.mailboxes| && i != except && s.mailboxes[i].mu == Some(Caller(t)) ==> HoldsMailbox(pc, i)
  }

  /** Neither accepts nor finishes a job, and leaves what mailbox `m` owes as it was. */
  predicate Silent(s: State, s': State, m: int) {
    && s'.accepted == s.accepted && s'.finished == s.finished
    && (0 <= m < |s.mailboxes| && m < |s'.mailboxes| ==> s'.mailboxes[m].Work() == s.mailboxes[m].Work())
  }

  lemma LocalKeepsStructure(s: State, s': State, t: int, m: int)
    requires Structure(s) && Local(s, s', t, m)
    ensures Structure(s')
  {
    forall u: nat ensures CallerOk(s', u) {
      if u != t {
        assert CallerOk(s, u);
        FrameCaller(s, s', t, m, u);
      }
    }
    forall i | 0 <= i < |s.mailboxes| ensures MailboxOk(s', i) {
      if i != m {
        assert MailboxOk(s, i);
        FrameMailbox(s, s', t, m, i);
      }
    }
    assert s'.mailboxes == if m >= 0 then s.mailboxes[m := s'.mailboxes[m]] else s.mailboxes;
    if m >= 0 {
      LiveUpdate(s.mailboxes, m, s'.mailboxes[m]);
    }
    LocalRegistry(s, s', t, m);
    LocalSuperseded(s, s', t, m);
  }

  lemma LocalRegistry(s: State, s': State, t: int, m: int)
    requires RegistryOk(s) && Touches(s, s', t, m) && -1 <= m < |s.mailboxes|
    requires s.closed ==> s.registry == map[]
    requires m >= 0 && s'.mailboxes[m].closed && !s.mailboxes[m].closed && !s.closed ==>
               s.mailboxes[m].key !in s'.registry || s'.registry[s.mailboxes[m].key] != m
    ensures RegistryOk(s')
  {
  }

  lemma LocalSuperseded(s: State, s': State, t: int, m: int)
    requires Superseded(s) && Touches(s, s', t, m) && -1 <= m < |s.mailboxes|
    requires m >= 0 && s.mailboxes[m].closed && s.mailboxes[m].OwesNothing() ==> s'.mailboxes[m].OwesNothing()
    ensures Superseded(s')
  {
    forall i, j | 0 <= i < j < |s'.mailboxes| && s'.mailboxes[i].key == s'.mailboxes[j].key
      ensures s'.mailboxes[i].closed && s'.mailboxes[i].OwesNothing()
    {
      assert s.mailboxes[i].key == s.mailboxes[j].key;
    }
  }

  // ---------- One lemma for each step ----------

  lemma CallSubmitLocal(s: State, t: nat, key: Key, job: Job)
    requires CallerOk(s, t) && HoldsOnly(s, t, Pc(s, t), -1) && !s.panicked
    requires Enabled(s, CallSubmit(t, key, job))
    ensures Local(s, Apply(s, CallSubmit(t, key, job)), t, -1)
    ensures Silent(s, Apply(s, CallSubmit(t, key, job)), -1)
  {
  }

  lemma CallShutdownLocal(s: State, t: nat)
    requires CallerOk(s, t) && HoldsOnly(s, t, Pc(s, t), -1) && !s.panicked
    requires Enabled(s, CallShutdown(t))
    ensures Local(s, Apply(s, CallShutdown(t)), t, -1)
    ensures Silent(s, Apply(s, CallShutdown(t)), -1)
  {
  }

  lemma LockRegistryLocal(s: State, t: nat)
    requires CallerOk(s, t) && HoldsOnly(s, t, Pc(s, t), -1) && !s.panicked
    requires Enabled(s, LockRegistry(t))
    ensures Local(s, Apply(s, LockRegistry(t)), t, -1)
    ensures Silent(s, Apply(s, LockRegistry(t)), -1)
  {
  }

  lemma LockMailboxLocal(s: State, t: nat)
    requires CallerOk(s, t) && HoldsOnly(s, t, Pc(s, t), -1) && !s.panicked
    requires Pc(s, t).SubmitWantsMailbox? || Pc(s, t).ShutdownWantsMailbox?
    requires Pc(s, t).box < |s.mailboxes| && s.mailboxes[Pc(s, t).box].mu.None? && MailboxOk(s, Pc(s, t).box)
    ensures Local(s, EnterMailbox(s, t), t, Pc(s, t).box)
    ensures Silent(s, EnterMailbox(s, t), Pc(s, t).box)
  {
    hide Live, Enabled;
    var pc := Pc(s, t);
    var s' := EnterMailbox(s, t);
    if pc.SubmitWantsMailbox? {
      assert Pc(s', t) == SubmitInMailbox(pc.key, pc.job, pc.box);
    } else {
      assert Pc(s', t) == ShutdownInMailbox(pc.box, pc.todo);
    }
  }

  /** Leaving the mailbox lock for a program counter that holds nothing. */
  lemma LeaveMailboxLocal(s: State, t: nat, next: CallerPc)
    requires CallerOk(s, t) && HoldsOnly(s, t, Pc(s, t), -1) && !s.panicked
    requires Pc(s, t).SubmitInMailbox? || Pc(s, t).SubmitInSelect? || Pc(s, t).ShutdownInMailbox?
    requires MailboxOk(s, Pc(s, t).box)
    requires next.SubmitWantsRegistry? || next == SubmitReturned(ContextDone)
             || (&& next.ShutdownNext? && Pc(s, t).ShutdownInMailbox? && next.todo == Pc(s, t).todo
                 && s.mailboxes[Pc(s, t).box].closed)
    ensures Local(s, LeaveMailbox(s, t, next), t, Pc(s, t).box)
    ensures Silent(s, LeaveMailbox(s, t, next), Pc(s, t).box)
  {
  }

  lemma CheckClosedLocal(s: State, t: nat)
    requires CallerOk(s, t) && HoldsOnly(s, t, Pc(s, t), -1) && !s.panicked
    requires Enabled(s, CheckClosed(t)) && MailboxOk(s, Pc(s, t).box)
    ensures Local(s, TestClosed(s, t), t, Pc(s, t).box)
    ensures Silent(s, TestClosed(s, t), Pc(s, t).box)
  {
    if s.mailboxes[Pc(s, t).box].closed {
      LeaveMailboxLocal(s, t, SubmitWantsRegistry(Pc(s, t).key, Pc(s, t).job));
    }
  }

  lemma SendLocal(s: State, t: nat)
    requires CallerOk(s, t) && HoldsOnly(s, t, Pc(s, t), -1) && !s.panicked
    requires Enabled(s, Send(t)) && MailboxOk(s, Pc(s, t).box)
    ensures Local(s, Apply(s, Send(t)), t, Pc(s, t).box)
  {
  }

  lemma CloseOpenLocal(s: State, t: nat)
    requires CallerOk(s, t) && HoldsOnly(s, t, Pc(s, t), -1) && !s.panicked && Pc(s, t).ShutdownInMailbox?
    requires MailboxOk(s, Pc(s, t).box) && !s.mailboxes[Pc(s, t).box].closed
    ensures Local(s, CloseNext(s, t), t, Pc(s, t).box)
    ensures Silent(s, CloseNext(s, t), Pc(s, t).box)
  {
    hide Live;
  }

  lemma CloseMailboxLocal(s: State, t: nat)
    requires CallerOk(s, t) && HoldsOnly(s, t, Pc(s, t), -1) && !s.panicked
    requires Enabled(s, CloseMailbox(t)) && MailboxOk(s, Pc(s, t).box)
    ensures Local(s, CloseNext(s, t), t, Pc(s, t).box)
    ensures Silent(s, CloseNext(s, t), Pc(s, t).box)
  {
    hide Live, Local, Silent, CallerOk, HoldsOnly, MailboxOk;
    if s.mailboxes[Pc(s, t).box].closed {
      LeaveMailboxLocal(s, t, ShutdownNext(Pc(s, t).todo));
    } else {
      CloseOpenLocal(s, t);
    }
  }

  lemma PickMailboxLocal(s: State, t: nat, box: nat)
    requires CallerOk(s, t) && HoldsOnly(s, t, Pc(s, t), -1) && !s.panicked
    requires Enabled(s, PickMailbox(t, box))
    ensures Local(s, Apply(s, PickMailbox(t, box)), t, -1)
    ensures Silent(s, Apply(s, PickMailbox(t, box)), -1)
  {
  }

  lemma StartWaitingLocal(s: State, t: nat)
    requires CallerOk(s, t) && HoldsOnly(s, t, Pc(s, t), -1) && !s.panicked
    requires Enabled(s, StartWaiting(t))
    ensures Local(s, Apply(s, StartWaiting(t)), t, -1)
    ensures Silent(s, Apply(s, StartWaiting(t)), -1)
  {
  }

  lemma SeeDrainedLocal(s: State, t: nat)
    requires CallerOk(s, t) && HoldsOnly(s, t, Pc(s, t), -1) && !s.panicked
    requires Enabled(s, SeeDrained(t)) && AllExited(s)
    ensures Local(s, Apply(s, SeeDrained(t)), t, -1)
    ensures Silent(s, Apply(s, SeeDrained(t)), -1)
  {
  }

  lemma ReturnDrainedLocal(s: State, t: nat)
    requires CallerOk(s, t) && HoldsOnly(s, t, Pc(s, t), -1) && !s.panicked
    requires Enabled(s, ReturnDrained(t))
    ensures Local(s, Apply(s, ReturnDrained(t)), t, -1)
    ensures Silent(s, Apply(s, ReturnDrained(t)), -1)
  {
  }

  lemma GiveUpLocal(s: State, t: nat)
    requires CallerOk(s, t) && HoldsOnly(s, t, Pc(s, t), -1) && !s.panicked
    requires Enabled(s, GiveUp(t))
    ensures Local(s, Apply(s, GiveUp(t)), t, -1)
    ensures Silent(s, Apply(s, GiveUp(t)), -1)
  {
  }

  lemma ReceiveLocal(s: State, m: nat)
    requires Enabled(s, Receive(m)) && MailboxOk(s, m) && !s.panicked
    ensures Local(s, Apply(s, Receive(m)), -1, m)
    ensures Silent(s, Apply(s, Receive(m)), m)
  {
  }

  lemma ReceiveClosedLocal(s: State, m: nat)
    requires Enabled(s, ReceiveClosed(m)) && MailboxOk(s, m) && !s.panicked
    ensures Local(s, Apply(s, ReceiveClosed(m)), -1, m)
    ensures Silent(s, Apply(s, ReceiveClosed(m)), m)
  {
  }

  lemma FinishJobLocal(s: State, m: nat)
    requires Enabled(s, FinishJob(m)) && MailboxOk(s, m) && !s.panicked
    ensures Local(s, Apply(s, FinishJob(m)), -1, m)
  {
  }

  lemma TimerFiresLocal(s: State, m: nat)
    requires Enabled(s, TimerFires(m)) && MailboxOk(s, m) && !s.panicked
    ensures Local(s, Apply(s, TimerFires(m)), -1, m)
    ensures Silent(s, Apply(s, TimerFires(m)), m)
  {
  }

  lemma EvictLockMailboxLocal(s: State, m: nat)
    requires Enabled(s, EvictLockMailbox(m)) && MailboxOk(s, m) && !s.panicked
    ensures Local(s, Apply(s, EvictLockMailbox(m)), -1, m)
    ensures Silent(s, Apply(s, EvictLockMailbox(m)), m)
  {
  }

  /** The worker lets go of its mailbox lock and goes back to the select, or keeps it and goes for the registry. */
  lemma EvictReturnsLocal(s: State, m: nat)
    requires Enabled(s, EvictCheck(m)) && MailboxOk(s, m) && !s.panicked
    ensures var s' := SetBox(s, m, s.mailboxes[m].(worker := AtSelect, mu := None)); Local(s, s', -1, m) && Silent(s, s', m)
  {
    hide Live, CallerOk;
  }

  lemma EvictGoesOnLocal(s: State, m: nat)
    requires Enabled(s, EvictCheck(m)) && MailboxOk(s, m) && !s.panicked
    requires !s.mailboxes[m].closed && s.mailboxes[m].jobs == []
    ensures var s' := SetBox(s, m, s.mailboxes[m].(worker := EvictWantsRegistry)); Local(s, s', -1, m) && Silent(s, s', m)
  {
    hide Live, CallerOk;
  }

  lemma EvictCheckLocal(s: State, m: nat)
    requires Enabled(s, EvictCheck(m)) && MailboxOk(s, m) && !s.panicked
    ensures Local(s, TestIdle(s, m), -1, m)
    ensures Silent(s, TestIdle(s, m), m)
  {
    hide Live, Local, Silent, MailboxOk;
    if s.mailboxes[m].closed || |s.mailboxes[m].jobs| > 0 {
      EvictReturnsLocal(s, m);
    } else {
      EvictGoesOnLocal(s, m);
    }
  }

  lemma EvictLockRegistryLocal(s: State, m: nat)
    requires Enabled(s, EvictLockRegistry(m)) && MailboxOk(s, m) && !s.panicked
    ensures Local(s, Apply(s, EvictLockRegistry(m)), -1, m)
    ensures Silent(s, Apply(s, EvictLockRegistry(m)), m)
  {
  }

  lemma EvictDecideLocal(s: State, m: nat)
    requires Enabled(s, EvictDecide(m)) && MailboxOk(s, m) && !s.panicked
    ensures Local(s, Apply(s, EvictDecide(m)), -1, m)
    ensures Silent(s, Apply(s, EvictDecide(m)), m)
  {
  }

  lemma LeaveLocal(s: State, m: nat)
    requires Enabled(s, Leave(m)) && MailboxOk(s, m) && !s.panicked
    ensures Local(s, Apply(s, Leave(m)), -1, m)
    ensures Silent(s, Apply(s, Leave(m)), m)
  {
  }

  lemma LookUpClosedLocal(s: State, t: nat)
    requires CallerOk(s, t) && HoldsOnly(s, t, Pc(s, t), -1) && !s.panicked && Pc(s, t).SubmitInRegistry?
    ensures var s' := SetPc(s, t, SubmitReturned(DispatcherClosed)).(mu := None); Local(s, s', t, -1) && Silent(s, s', -1)
  {
    hide Live, MailboxOk;
  }

  lemma LookUpFoundLocal(s: State, t: nat, key: Key, job: Job)
    requires CallerOk(s, t) && HoldsOnly(s, t, Pc(s, t), -1) && !s.panicked && RegistryOk(s)
    requires Pc(s, t) == SubmitInRegistry(key, job) && key in s.registry
    ensures var s' := SetPc(s, t, SubmitWantsMailbox(key, job, s.registry[key])).(mu := None);
            Local(s, s', t, -1) && Silent(s, s', -1)
  {
    hide Live, MailboxOk;
  }

  lemma LookUpLocal(s: State, t: nat)
    requires CallerOk(s, t) && HoldsOnly(s, t, Pc(s, t), -1) && !s.panicked && RegistryOk(s)
    requires Enabled(s, LookUp(t)) && (s.closed || Pc(s, t).key in s.registry)
    ensures Local(s, Apply(s, LookUp(t)), t, -1)
    ensures Silent(s, Apply(s, LookUp(t)), -1)
  {
    hide Local, Silent, CallerOk, HoldsOnly, RegistryOk;
    if s.closed {
      LookUpClosedLocal(s, t);
    } else {
      LookUpFoundLocal(s, t, Pc(s, t).key, Pc(s, t).job);
    }
  }

  lemma BeginShutdownAgainLocal(s: State, t: nat)
    requires CallerOk(s, t) && HoldsOnly(s, t, Pc(s, t), -1) && !s.panicked
    requires Enabled(s, BeginShutdown(t)) && s.closed
    ensures Local(s, Apply(s, BeginShutdown(t)), t, -1)
    ensures Silent(s, Apply(s, BeginShutdown(t)), -1)
  {
  }

  // ---------- The two steps with wider effects ----------

  /** While the dispatcher is open, every mailbox outside the registry is closed. */
  lemma UnregisteredIsClosed(s: State, m: nat)
    requires Structure(s) && !s.closed && m < |s.mailboxes| && m !in s.registry.Values
    ensures s.mailboxes[m].closed && s.mailboxes[m].OwesNothing()
  {
    assert MailboxOk(s, m);
  }

  lemma NoneHolds(s: State, t: nat)
    requires Structure(s)
    ensures HoldsOnly(s, t, Pc(s, t), -1)
  {
    forall i | 0 <= i < |s.mailboxes| && s.mailboxes[i].mu == Some(Caller(t)) ensures HoldsMailbox(Pc(s, t), i) {
      assert MailboxOk(s, i);
    }
  }

  lemma SnapshotKeepsStructure(s: State, t: nat)
    requires Structure(s) && Enabled(s, BeginShutdown(t)) && !s.closed
    ensures Structure(TakeSnapshot(s, t))
  {
    hide Live, MailboxOk;
    var s' := TakeSnapshot(s, t);
    assert CallerOk(s, t);
    forall m: nat | m < |s.mailboxes| && m !in s.registry.Values ensures s'.mailboxes[m].closed {
      UnregisteredIsClosed(s, m);
    }
    forall u: nat ensures CallerOk(s', u) {
      assert CallerOk(s, u);
    }
    forall m | 0 <= m < |s.mailboxes| ensures MailboxOk(s', m) {
      SnapshotKeepsMailbox(s, t, m);
    }
  }

  lemma SnapshotKeepsMailbox(s: State, t: nat, m: nat)
    requires Structure(s) && Enabled(s, BeginShutdown(t)) && !s.closed && m < |s.mailboxes|
    ensures MailboxOk(TakeSnapshot(s, t), m)
  {
    assert MailboxOk(s, m) && CallerOk(s, t);
    NoneHolds(s, t);
  }

  lemma CreateKeepsStructure(s: State, t: nat)
    requires Structure(s) && Enabled(s, LookUp(t)) && !s.closed && Pc(s, t).key !in s.registry
    ensures Structure(Apply(s, LookUp(t)))
  {
    var key := Pc(s, t).key;
    var s' := Apply(s, LookUp(t));
    CreateKeepsCallers(s, t);
    CreateKeepsMailboxes(s, t);
    hide MailboxOk, CallerOk;
    assert s'.mailboxes[..|s.mailboxes|] == s.mailboxes;
    CreateKeepsSuperseded(s, s', key);
  }

  lemma CreateKeepsCallers(s: State, t: nat)
    requires Structure(s) && Enabled(s, LookUp(t)) && !s.closed && Pc(s, t).key !in s.registry
    ensures forall u: nat :: CallerOk(Apply(s, LookUp(t)), u)
  {
    hide Live, MailboxOk, Superseded, RegistryOk;
    assert CallerOk(s, t);
    forall u: nat ensures CallerOk(Apply(s, LookUp(t)), u) {
      assert CallerOk(s, u);
    }
  }

  lemma CreateKeepsMailboxes(s: State, t: nat)
    requires Structure(s) && Enabled(s, LookUp(t)) && !s.closed && Pc(s, t).key !in s.registry
    ensures var s' := Apply(s, LookUp(t)); forall m :: 0 <= m < |s'.mailboxes| ==> MailboxOk(s', m)
  {
    hide Live, Superseded;
    var s' := Apply(s, LookUp(t));
    assert CallerOk(s, t);
    NoneHolds(s, t);
    forall m | 0 <= m < |s'.mailboxes| ensures MailboxOk(s', m) {
      if m < |s.mailboxes| {
        assert MailboxOk(s, m);
      }
    }
  }

  lemma CreateKeepsSuperseded(s: State, s': State, key: Key)
    requires Structure(s) && !s.closed && key !in s.registry
    requires s'.mailboxes == s.mailboxes + [Mailbox(key, [], true, false, None, AtSelect)]
    ensures Superseded(s')
  {
    var n := |s.mailboxes|;
    forall i, j | 0 <= i < j <= n && s'.mailboxes[i].key == s'.mailboxes[j].key
      ensures s'.mailboxes[i].closed && s'.mailboxes[i].OwesNothing()
    {
      assert s'.mailboxes[i] == s.mailboxes[i];
      if j == n {
        UnregisteredIsClosed(s, i);
      } else {
        assert s.mailboxes[i].key == s.mailboxes[j].key;
      }
    }
  }

  // ---------- Every step, every run ----------

  predicate ByWorker(step: Step) {
    || step.Receive? || step.ReceiveClosed? || step.FinishJob? || step.TimerFires?
    || step.EvictLockMailbox? || step.EvictCheck? || step.EvictLockRegistry? || step.EvictDecide?
    || step.Leave?
  }

  /** The mailbox a caller's step works on, -1 for none. */
  function BoxOf(s: State, step: Step): int
    requires Enabled(s, step) && !ByWorker(step)
  {
    if step.LockMailbox? || step.CheckClosed? || step.Send? || step.CancelSubmit? || step.CloseMailbox?
    then Pc(s, step.t).box else -1
  }

  predicate Widens(s: State, step: Step) {
    || (step.BeginShutdown? && !s.closed)
    || (step.LookUp? && Enabled(s, step) && !s.closed && Pc(s, step.t).key !in s.registry)
  }

  lemma BoxStepIsLocal(s: State, step: Step)
    requires Structure(s) && Enabled(s, step) && !ByWorker(step) && BoxOf(s, step) >= 0
    ensures Local(s, Apply(s, step), step.t, BoxOf(s, step))
    ensures !step.Send? ==> Silent(s, Apply(s, step), BoxOf(s, step))
  {
    var t := step.t;
    assert CallerOk(s, t);
    NoneHolds(s, t);
    assert MailboxOk(s, Pc(s, t).box);
    match step
    case LockMailbox(_) => LockMailboxLocal(s, t);
    case CheckClosed(_) => CheckClosedLocal(s, t);
    case Send(_) => SendLocal(s, t);
    case CancelSubmit(_) => LeaveMailboxLocal(s, t, SubmitReturned(ContextDone));
    case CloseMailbox(_) => CloseMailboxLocal(s, t);
  }

  lemma CallerStepIsLocal(s: State, step: Step)
    requires Structure(s) && Enabled(s, step) && !ByWorker(step) && BoxOf(s, step) < 0 && !Widens(s, step)
    ensures Local(s, Apply(s, step), step.t, -1) && Silent(s, Apply(s, step), -1)
  {
    var t := step.t;
    assert CallerOk(s, t);
    NoneHolds(s, t);
    match step
    case CallSubmit(_, key, job) => CallSubmitLocal(s, t, key, job);
    case CallShutdown(_) => CallShutdownLocal(s, t);
    case LockRegistry(_) => LockRegistryLocal(s, t);
    case LookUp(_) => LookUpLocal(s, t);
    case BeginShutdown(_) => BeginShutdownAgainLocal(s, t);
    case PickMailbox(_, box) => PickMailboxLocal(s, t, box);
    case StartWaiting(_) => StartWaitingLocal(s, t);
    case SeeDrained(_) => LiveZero(s.mailboxes); SeeDrainedLocal(s, t);
    case ReturnDrained(_) => ReturnDrainedLocal(s, t);
    case GiveUp(_) => GiveUpLocal(s, t);
  }

  lemma WorkerStepIsLocal(s: State, step: Step)
    requires Structure(s) && Enabled(s, step) && ByWorker(step)
    ensures Local(s, Apply(s, step), -1, step.m)
    ensures !step.FinishJob? ==> Silent(s, Apply(s, step), step.m)
  {
    assert MailboxOk(s, step.m);
    match step
    case Receive(m) => ReceiveLocal(s, m);
    case ReceiveClosed(m) => ReceiveClosedLocal(s, m);
    case FinishJob(m) => FinishJobLocal(s, m);
    case TimerFires(m) => TimerFiresLocal(s, m);
    case EvictLockMailbox(m) => EvictLockMailboxLocal(s, m);
    case EvictCheck(m) => EvictCheckLocal(s, m);
    case EvictLockRegistry(m) => EvictLockRegistryLocal(s, m);
    case EvictDecide(m) => EvictDecideLocal(s, m);
    case Leave(m) => LeaveLocal(s, m);
  }

  /** Every step but the two widening ones is the action of one caller or one worker. */
  lemma StepIsLocal(s: State, step: Step) returns (t: int, m: int)
    requires Structure(s) && Enabled(s, step) && !Widens(s, step)
    ensures Local(s, Apply(s, step), t, m)
    ensures !step.Send? && !step.FinishJob? ==> Silent(s, Apply(s, step), m)
  {
    if ByWorker(step) {
      WorkerStepIsLocal(s, step);
      t, m := -1, step.m;
    } else if BoxOf(s, step) >= 0 {
      BoxStepIsLocal(s, step);
      t, m := step.t, BoxOf(s, step);
    } else {
      CallerStepIsLocal(s, step);
      t, m := step.t, -1;
    }
  }

  lemma StepKeepsStructure(s: State, step: Step)
    requires Structure(s) && Enabled(s, step)
    ensures Structure(Apply(s, step))
  {
    if !Widens(s, step) {
      var t, m := StepIsLocal(s, step);
      LocalKeepsStructure(s, Apply(s, step), t, m);
    } else if step.BeginShutdown? {
      SnapshotKeepsStructure(s, step.t);
    } else {
      CreateKeepsStructure(s, step.t);
    }
  }

  // ---------- Conservation ----------

  /** The jobs of one key that mailboxes still owe, over all generations, oldest first. */
  function Owed(boxes: seq<Mailbox>, key: Key): seq<Job> {
    if boxes == [] then []
    else
      var last := boxes[|boxes| - 1];
      Owed(boxes[..|boxes| - 1], key) + if last.key == key then last.Work() else []
  }

  /** Each key's accepted jobs are its finished jobs followed by the jobs still owed. */
  ghost predicate Conserved(s: State) {
    forall key :: At(s.accepted, key) == At(s.finished, key) + Owed(s.mailboxes, key)
  }

  lemma OwedNothing(boxes: seq<Mailbox>, key: Key)
    requires forall i :: 0 <= i < |boxes| && boxes[i].key == key ==> boxes[i].OwesNothing()
    ensures Owed(boxes, key) == []
  {
    if boxes != [] {
      var n := |boxes| - 1;
      assert boxes[n] in boxes;
      OwedNothing(boxes[..n], key);
    }
  }

  lemma {:induction false} OwedByOne(boxes: seq<Mailbox>, m: nat)
    requires m < |boxes|
    requires forall i :: 0 <= i < |boxes| && i != m && boxes[i].key == boxes[m].key ==> boxes[i].OwesNothing()
    ensures Owed(boxes, boxes[m].key) == boxes[m].Work()
  {
    var n := |boxes| - 1;
    if m == n {
      OwedNothing(boxes[..n], boxes[m].key);
    } else {
      OwedByOne(boxes[..n], m);
      assert boxes[n].key == boxes[m].key ==> boxes[n].OwesNothing();
    }
  }

  lemma {:induction false} OwedSame(boxes: seq<Mailbox>, boxes': seq<Mailbox>, key: Key)
    requires |boxes| == |boxes'|
    requires forall i :: 0 <= i < |boxes| ==>
                           boxes'[i].key == boxes[i].key && (boxes[i].key == key ==> boxes'[i].Work() == boxes[i].Work())
    ensures Owed(boxes', key) == Owed(boxes, key)
  {
    if boxes == [] {
    } else {
      var n := |boxes| - 1;
      OwedSame(boxes[..n], boxes'[..n], key);
    }
  }

  /** A mailbox that is open, or owes something, is the only one of its key that owes anything. */
  lemma OnlyOneOwes(s: State, m: nat)
    requires Structure(s) && m < |s.mailboxes|
    requires !s.mailboxes[m].closed || !s.mailboxes[m].OwesNothing()
    ensures forall i :: 0 <= i < |s.mailboxes| && i != m && s.mailboxes[i].key == s.mailboxes[m].key ==>
                          s.mailboxes[i].OwesNothing()
  {
    forall i | 0 <= i < |s.mailboxes| && i != m && s.mailboxes[i].key == s.mailboxes[m].key
      ensures s.mailboxes[i].OwesNothing()
    {
      assert i < m;
    }
  }

  lemma SendOwes(s: State, t: nat)
    requires Structure(s) && Enabled(s, Send(t))
    ensures s.mailboxes[Pc(s, t).box].open && s.mailboxes[Pc(s, t).box].key == Pc(s, t).key
    ensures Owed(SendJob(s, t).mailboxes, Pc(s, t).key) == Owed(s.mailboxes, Pc(s, t).key) + [Pc(s, t).job]
  {
    hide Live, Owed, RegistryOk, Superseded;
    var s', pc := SendJob(s, t), Pc(s, t);
    assert CallerOk(s, t) && MailboxOk(s, pc.box);
    OnlyOneOwes(s, pc.box);
    OwedByOne(s.mailboxes, pc.box);
    OwedByOne(s'.mailboxes, pc.box);
    assert s'.mailboxes[pc.box].Work() == s.mailboxes[pc.box].Work() + [pc.job];
  }

  lemma SendConserves(s: State, t: nat)
    requires Structure(s) && Conserved(s) && Enabled(s, Send(t))
    ensures Conserved(SendJob(s, t))
  {
    hide Structure, Owed;
    var s', pc := SendJob(s, t), Pc(s, t);
    SendOwes(s, t);
    forall key ensures At(s'.accepted, key) == At(s'.finished, key) + Owed(s'.mailboxes, key) {
      assert At(s.accepted, key) == At(s.finished, key) + Owed(s.mailboxes, key);
      if key != pc.key {
        OwedSame(s.mailboxes, s'.mailboxes, key);
      }
    }
  }

  lemma FinishConserves(s: State, m: nat)
    requires Structure(s) && Conserved(s) && Enabled(s, FinishJob(m))
    ensures Conserved(EndJob(s, m))
  {
    hide Structure, Owed;
    var s', box := EndJob(s, m), s.mailboxes[m];
    OnlyOneOwes(s, m);
    OwedByOne(s.mailboxes, m);
    OwedByOne(s'.mailboxes, m);
    forall key ensures At(s'.accepted, key) == At(s'.finished, key) + Owed(s'.mailboxes, key) {
      if key == box.key {
        assert box.Work() == [box.worker.job] + s'.mailboxes[m].Work();
        assert At(s.accepted, key) == At(s.finished, key) + Owed(s.mailboxes, key);
      } else {
        OwedSame(s.mailboxes, s'.mailboxes, key);
      }
    }
  }

  lemma WideningConserves(s: State, step: Step)
    requires Conserved(s) && Enabled(s, step) && Widens(s, step)
    ensures Conserved(Apply(s, step))
  {
    var s' := Apply(s, step);
    forall key ensures At(s'.accepted, key) == At(s'.finished, key) + Owed(s'.mailboxes, key) {
      assert s'.mailboxes[..|s.mailboxes|] == s.mailboxes;
      assert At(s.accepted, key) == At(s.finished, key) + Owed(s.mailboxes, key);
    }
  }

  lemma SilentConserves(s: State, s': State, t: int, m: int)
    requires Conserved(s) && Local(s, s', t, m) && Silent(s, s', m)
    ensures Conserved(s')
  {
    forall key ensures At(s'.accepted, key) == At(s'.finished, key) + Owed(s'.mailboxes, key) {
      OwedSame(s.mailboxes, s'.mailboxes, key);
      assert At(s.accepted, key) == At(s.finished, key) + Owed(s.mailboxes, key);
    }
  }

  lemma StepConserves(s: State, step: Step)
    requires Structure(s) && Conserved(s) && Enabled(s, step)
    ensures Conserved(Apply(s, step))
  {
    if step.Send? {
      SendConserves(s, step.t);
    } else if step.FinishJob? {
      FinishConserves(s, step.m);
    } else if Widens(s, step) {
      WideningConserves(s, step);
    } else {
      var t, m := StepIsLocal(s, step);
      SilentConserves(s, Apply(s, step), t, m);
    }
  }

  // ---------- Whole runs ----------

  ghost predicate Inv(s: State) {
    Structure(s) && Conserved(s)
  }

  lemma StepKeepsInv(s: State, step: Step)
    requires Inv(s) && Enabled(s, step)
    ensures Inv(Apply(s, step))
  {
    StepKeepsStructure(s, step);
    StepConserves(s, step);
  }

  lemma {:induction false} RunKeepsInv(s: State, steps: seq<Step>)
    requires Inv(s) && Runs(s, steps)
    ensures Inv(After(s, steps))
    decreases |steps|
  {
    if steps == [] {
    } else {
      StepKeepsInv(s, steps[0]);
      RunKeepsInv(Apply(s, steps[0]), steps[1..]);
    }
  }

  /** Every state that a run from a new dispatcher reaches satisfies the invariant. */
  lemma ReachableInv(buffer: int, steps: seq<Step>)
    requires Runs(New(buffer), steps)
    ensures Inv(After(New(buffer), steps))
  {
    NewStructure(buffer);
    RunKeepsInv(New(buffer), steps);
  }
}
