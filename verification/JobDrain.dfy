/** The driver that drains the due jobs of a table which other workers use too. */
module JobDrain {
  import opened Wrappers
  import opened JobTable

  /** What other workers, and the processor of a job, do to the table in between. */
  datatype Statement =
    | Enqueues(request: Request)
    | Claims(job: nat)
    | Finishes(job: nat)
    | Retries(job: nat, runAt: int)

  /** Others claim what waits and mark what runs, but not the row `mine` that this worker holds. */
  predicate IsAdmitted(rows: seq<Job>, statement: Statement, mine: Option<nat>) {
    match statement
    case Enqueues(_) => true
    case Claims(j) => j < |rows| && IsWaiting(rows[j])
    case Finishes(j) => j < |rows| && rows[j].status == Running && mine != Some(j)
    case Retries(j, _) => j < |rows| && rows[j].status == Running && mine != Some(j)
  }

  function Perform(rows: seq<Job>, statement: Statement, mine: Option<nat>): seq<Job> {
    if !IsAdmitted(rows, statement, mine) then rows
    else
      match statement
      case Enqueues(r) => Enqueue(rows, r)
      case Claims(j) => Claim(rows, j)
      case Finishes(j) => MarkDone(rows, j)
      case Retries(j, runAt) => MarkRetry(rows, j, runAt)
  }

  /** The rows after the admitted ones of the statements, last one last. */
  function Others(rows: seq<Job>, statements: seq<Statement>, mine: Option<nat>): seq<Job> {
    if statements == [] then rows
    else Perform(Others(rows, statements[..|statements| - 1], mine), statements[|statements| - 1], mine)
  }

  /** What one round of a driver meets outside itself. */
  datatype Round = Round(
    before: seq<Statement>,   // what others do to the table before it
    now: Option<int>,         // the clock reading, if it succeeds
    claimFails: bool,         // the claim statement fails
    locked: set<nat>,         // the rows that claims of others have locked
    works: bool,              // the processor returns without an error
    during: seq<Statement>,   // what the processor and others do to the table meanwhile
    marked: bool)             // the statement that records the outcome succeeds

  /** A round in which nobody else touches the table; the processor may enqueue. */
  predicate IsCalm(round: Round) {
    round.before == [] && round.locked == {} && forall i :: 0 <= i < |round.during| ==> round.during[i].Enqueues?
  }

  /** What others cannot undo: rows stay, done ones stay done, and the row `mine` stays as it is. */
  predicate Survives(rows: seq<Job>, rows': seq<Job>, mine: Option<nat>) {
    && |rows| <= |rows'|
    && (forall i :: 0 <= i < |rows| && rows[i].status == Done ==> rows'[i].status == Done)
    && (mine.Some? && mine.value < |rows| && rows[mine.value].status == Running ==> rows'[mine.value] == rows[mine.value])
  }

  lemma {:induction false} OthersSurvive(rows: seq<Job>, statements: seq<Statement>, mine: Option<nat>)
    ensures Survives(rows, Others(rows, statements, mine), mine)
  {
    if statements == [] {
    } else {
      OthersSurvive(rows, statements[..|statements| - 1], mine);
    }
  }

  lemma {:induction false} CalmOthersGrow(rows: seq<Job>, statements: seq<Statement>, mine: Option<nat>)
    requires forall i :: 0 <= i < |statements| ==> statements[i].Enqueues?
    ensures Grows(rows, Others(rows, statements, mine))
  {
    if statements == [] {
    } else {
      CalmOthersGrow(rows, statements[..|statements| - 1], mine);
    }
  }

  method ActAside(table: Table, statements: seq<Statement>, mine: Option<nat>)
    modifies table
    ensures table.rows == Others(old(table.rows), statements, mine) && Survives(old(table.rows), table.rows, mine)
  {
    for n := 0 to |statements|
      invariant table.rows == Others(old(table.rows), statements[..n], mine)
    {
      assert statements[..n + 1][..n] == statements[..n];
      if IsAdmitted(table.rows, statements[n], mine) {
        match statements[n] {
          case Enqueues(r) => table.EnqueueJob(r);
          case Claims(j) => table.rows := Claim(table.rows, j);
          case Finishes(j) => table.MarkJobDone(j);
          case Retries(j, runAt) => table.MarkJobRetry(j, runAt);
        }
      }
    }
    assert statements[..|statements|] == statements;
    OthersSurvive(old(table.rows), statements, mine);
  }

  /** What processJob records for row `j`. */
  function Recorded(rows: seq<Job>, j: nat, round: Round, retryAt: int): seq<Job>
    requires j < |rows|
  {
    if !round.marked then rows else if round.works then MarkDone(rows, j) else MarkRetry(rows, j, retryAt)
  }

  /**
   What a failed round leaves of its row: failed for good after the last attempt, waiting for
   `retryAt` before; running if the outcome could not be recorded.
   */
  predicate IsNotDone(rows: seq<Job>, j: nat, round: Round, retryAt: int) {
    && j < |rows| && !(round.works && round.marked)
    && (!round.marked ==> rows[j].status == Running)
    && (round.marked ==>
          rows[j].runAt == retryAt && rows[j].status == if rows[j].attempts >= rows[j].maxAttempts then Failed else Retry)
  }

  /** processJob: the processor runs, and its outcome is recorded. */
  method ProcessJob(table: Table, j: nat, round: Round, retryAt: int) returns (ok: bool)
    requires j < |table.rows| && table.rows[j].status == Running
    modifies table
    ensures ok <==> round.works && round.marked
    ensures var between := Others(old(table.rows), round.during, Some(j));
            && Survives(old(table.rows), between, Some(j))
            && table.rows == Recorded(between, j, round, retryAt)
            && |table.rows| == |between| && forall i :: 0 <= i < |between| && i != j ==> table.rows[i] == between[i]
    ensures table.rows[j] == old(table.rows)[j].(status := table.rows[j].status, runAt := table.rows[j].runAt)
    ensures ok ==> table.rows[j].status == Done && table.rows[j].runAt == old(table.rows)[j].runAt
    ensures !ok ==> IsNotDone(table.rows, j, round, retryAt)
  {
    ActAside(table, round.during, Some(j));
    if !round.works {
      if round.marked {
        table.MarkJobRetry(j, retryAt);
      }
      return false;
    }
    if !round.marked {
      return false;
    }
    table.MarkJobDone(j);
    return true;
  }

  // ---------- DrainDue ----------

  function Limit(limit: int): nat {
    if limit <= 0 then 100 else limit
  }

  predicate Claimed(log: seq<Taken>, i: nat) {
    exists k :: 0 <= k < |log| && log[k].job == i
  }

  ghost predicate NoneTwice(log: seq<Taken>) {
    forall a, b :: 0 <= a < b < |log| ==> log[a].job != log[b].job
  }

  /** The claims of rows that were there at the start are in the order of the table. */
  ghost predicate InOrder(log: seq<Taken>, was: nat) {
    forall a, b :: 0 <= a < b < |log| && log[b].job < was ==>
                     Before(log[a].runAt, log[a].job, log[b].runAt, log[b].job)
  }

  /** Every claim so far is before every row that was there at the start and still waits. */
  ghost predicate AheadOfWaiting(log: seq<Taken>, rows: seq<Job>, allowed: set<string>, was: nat) {
    forall a, i :: 0 <= a < |log| && 0 <= i < was <= |rows| && IsWaiting(rows[i]) && rows[i].kind in allowed ==>
                     Before(log[a].runAt, log[a].job, rows[i].runAt, i)
  }

  predicate AllDone(rows: seq<Job>, log: seq<Taken>) {
    forall k :: 0 <= k < |log| ==> log[k].job < |rows| && rows[log[k].job].status == Done
  }

  /**
   The rows after `log` was worked off: those waited and are done, the other old ones are as they
   were, the added ones queued.
   */
  ghost predicate WorkedOff(was: seq<Job>, rows: seq<Job>, log: seq<Taken>) {
    && |was| <= |rows|
    && AllDone(rows, log)
    && (forall k :: 0 <= k < |log| && log[k].job < |was| ==> IsWaiting(was[log[k].job]))
    && (forall i :: 0 <= i < |was| && !Claimed(log, i) ==> rows[i] == was[i])
    && (forall i :: |was| <= i < |rows| && !Claimed(log, i) ==> rows[i].status == Queued)
  }

  lemma ClaimedOneMore(log: seq<Taken>, taken: Taken, i: nat)
    ensures Claimed(log + [taken], i) <==> Claimed(log, i) || taken.job == i
  {
    var log' := log + [taken];
    if Claimed(log, i) {
      var k :| 0 <= k < |log| && log[k].job == i;
      assert log'[k].job == i;
    }
    assert log'[|log|] == taken;
  }

  lemma NextIsInOrder(was: seq<Job>, rows: seq<Job>, log: seq<Taken>, allowed: set<string>, now: int, j: nat)
    requires WorkedOff(was, rows, log) && InOrder(log, |was|) && AheadOfWaiting(log, rows, allowed, |was|)
    requires IsNext(rows, allowed, now, {}, j)
    ensures InOrder(log + [Taken(j, rows[j].runAt)], |was|)
    ensures AheadOfWaiting(log + [Taken(j, rows[j].runAt)], rows[j := rows[j].(status := Done)], allowed, |was|)
  {
  }

  /** A round that succeeds works its row off. */
  lemma RoundWorksOff(was: seq<Job>, rows: seq<Job>, log: seq<Taken>, taken: Taken, between: seq<Job>)
    requires WorkedOff(was, rows, log) && taken.job < |rows| && IsWaiting(rows[taken.job])
    requires Grows(Claim(rows, taken.job), between)
    ensures WorkedOff(was, MarkDone(between, taken.job), log + [taken])
  {
    var log', rows' := log + [taken], MarkDone(between, taken.job);
    forall k | 0 <= k < |log'|
      ensures log'[k].job < |rows'| && rows'[log'[k].job].status == Done
      ensures log'[k].job < |was| ==> IsWaiting(was[log'[k].job])
    {
      assert k < |log| ==> log'[k] == log[k];
      assert !Claimed(log, taken.job);
    }
    forall i | 0 <= i < |rows'| && !Claimed(log', i)
      ensures (i < |was| ==> rows'[i] == was[i]) && (i >= |was| ==> rows'[i].status == Queued)
    {
      ClaimedOneMore(log, taken, i);
      assert i < |rows| ==> rows'[i] == rows[i];
    }
  }

  /** What holds whatever others do: no row is claimed twice, and what the drain has finished stays done. */
  ghost predicate Sound(log: seq<Taken>, rows: seq<Job>) {
    NoneTwice(log) && AllDone(rows, log)
  }

  lemma AsideIsSound(rows: seq<Job>, rows': seq<Job>, log: seq<Taken>)
    requires Sound(log, rows) && Survives(rows, rows', None)
    ensures Sound(log, rows')
  {
  }

  /** One round, seen from the claim on. */
  lemma RoundIsSound(rows: seq<Job>, log: seq<Taken>, allowed: set<string>, now: int, j: nat, round: Round)
    requires Sound(log, rows) && IsNext(rows, allowed, now, round.locked, j)
    ensures |Claim(rows, j)| == |rows| && Claim(rows, j)[j].status == Running
    ensures var taken, between := Taken(j, rows[j].runAt), Others(Claim(rows, j), round.during, Some(j));
            && j < |between|
            && var rows' := Recorded(between, j, round, now + 1);
               && NoneTwice(log + [taken]) && AllDone(rows', log)
               && (round.works && round.marked ==> Sound(log + [taken], rows'))
  {
    hide Others, Before;
    OthersSurvive(Claim(rows, j), round.during, Some(j));
    assert forall k :: 0 <= k < |log| ==> log[k].job != j;
  }

  lemma StillAhead(log: seq<Taken>, rows: seq<Job>, allowed: set<string>, was: nat, rows': seq<Job>)
    requires AheadOfWaiting(log, rows, allowed, was) && |rows| <= |rows'|
    requires forall i :: 0 <= i < was <= |rows| ==>
                           && rows'[i].status == rows[i].status && rows'[i].runAt == rows[i].runAt
                           && rows'[i].kind == rows[i].kind
    ensures was <= |rows| ==> AheadOfWaiting(log, rows', allowed, was)
  {
  }

  /** One calm round more: the order goes on, and a round that succeeds works its row off. */
  lemma CalmRound(was: seq<Job>, rows: seq<Job>, log: seq<Taken>, allowed: set<string>, now: int, j: nat, round: Round)
    requires IsCalm(round) && IsNext(rows, allowed, now, {}, j)
    requires WorkedOff(was, rows, log) && InOrder(log, |was|) && AheadOfWaiting(log, rows, allowed, |was|)
    ensures var taken, between := Taken(j, rows[j].runAt), Others(Claim(rows, j), round.during, Some(j));
            && InOrder(log + [taken], |was|)
            && j < |between| && WorkedOff(was, MarkDone(between, j), log + [taken])
            && AheadOfWaiting(log + [taken], MarkDone(between, j), allowed, |was|)
  {
    NextIsInOrder(was, rows, log, allowed, now, j);
    CalmOthersGrow(Claim(rows, j), round.during, Some(j));
    var between := Others(Claim(rows, j), round.during, Some(j));
    RoundWorksOff(was, rows, log, Taken(j, rows[j].runAt), between);
    StillAhead(log + [Taken(j, rows[j].runAt)], rows[j := rows[j].(status := Done)], allowed, |was|, MarkDone(between, j));
  }

  /** What holds if nobody else touches the table. */
  ghost predicate Orderly(was: seq<Job>, rows: seq<Job>, log: seq<Taken>, allowed: set<string>) {
    InOrder(log, |was|) && WorkedOff(was, rows, log) && AheadOfWaiting(log, rows, allowed, |was|)
  }

  lemma RoundIsOrderly(was: seq<Job>, rows: seq<Job>, log: seq<Taken>, allowed: set<string>, now: int, j: nat, round: Round)
    requires IsCalm(round) && IsNext(rows, allowed, now, round.locked, j) && Orderly(was, rows, log, allowed)
    ensures var taken, between := Taken(j, rows[j].runAt), Others(Claim(rows, j), round.during, Some(j));
            && j < |between| && InOrder(log + [taken], |was|)
            && (round.works && round.marked ==>
                  Orderly(was, Recorded(between, j, round, now + 1), log + [taken], allowed))
  {
    hide InOrder, WorkedOff, AheadOfWaiting;
    CalmRound(was, rows, log, allowed, now, j, round);
  }

  lemma StartIsOrderly(rows: seq<Job>, allowed: set<string>)
    ensures Sound([], rows) && Orderly(rows, rows, [], allowed)
  {
  }

  lemma Conclude(was: seq<Job>, rows: seq<Job>, log: seq<Taken>, allowed: set<string>, calm: bool)
    requires Sound(log, rows) && (calm ==> Orderly(was, rows, log, allowed))
    ensures NoneTwice(log) && AllDone(rows, log[..|log|])
    ensures calm ==> InOrder(log, |was|) && WorkedOff(was, rows, log)
  {
    assert log[..|log|] == log;
  }

  /** Nothing is due but what others have locked. */
  predicate NothingDue(rows: seq<Job>, allowed: set<string>, round: Round) {
    && round.now.Some?
    && forall i :: 0 <= i < |rows| && i !in round.locked ==> !IsDue(rows[i], allowed, round.now.value)
  }

  /** One pass of the loop: without a claim the drain is over, and `ok` says that it is without an error. */
  method DrainRound(table: Table, allowed: set<string>, round: Round,
                    ghost was: seq<Job>, ghost log: seq<Taken>, ghost calm: bool)
    returns (taken: Option<Taken>, ok: bool)
    requires Sound(log, table.rows) && (calm ==> IsCalm(round) && Orderly(was, table.rows, log, allowed))
    modifies table
    ensures taken.None? ==> Sound(log, table.rows) && (calm ==> Orderly(was, table.rows, log, allowed))
    ensures taken.None? && ok ==> NothingDue(table.rows, allowed, round)
    ensures taken.Some? ==>
              && NoneTwice(log + [taken.value]) && AllDone(table.rows, log)
              && (calm ==> InOrder(log + [taken.value], |was|))
              && (!ok ==> round.now.Some? && IsNotDone(table.rows, taken.value.job, round, round.now.value + 1))
              && (ok ==> Sound(log + [taken.value], table.rows)
                         && (calm ==> Orderly(was, table.rows, log + [taken.value], allowed)))
  {
    hide Sound, Orderly, InOrder, AllDone, NoneTwice, Survives, IsNext, Recorded, Claim;
    ghost var earlier := table.rows;
    ActAside(table, round.before, None);
    AsideIsSound(earlier, table.rows, log);
    assert calm ==> table.rows == earlier;
    if round.now.None? || round.claimFails {
      return None, false;
    }
    ghost var rows := table.rows;
    taken := table.ClaimJob(allowed, round.now.value, round.locked);
    if taken.None? {
      return None, true;
    }
    RoundIsSound(rows, log, allowed, round.now.value, taken.value.job, round);
    if calm {
      RoundIsOrderly(was, rows, log, allowed, round.now.value, taken.value.job, round);
    }
    ok := ProcessJob(table, taken.value.job, round, round.now.value + 1);
  }

  /**
   Whatever other workers do between and during the rounds: at most `limit` claims are made, no row is
   claimed twice, the rows of all successful rounds are done, and a drain that stops below the limit
   without an error saw nothing due at its last clock reading but rows that others had locked. A job
   that fails ends the drain, and waits for a second or has failed for good.

   If nobody else touches the table, a drain without an error has worked off exactly the claimed rows,
   and rows that were in the table at the start are taken in the order of run time and id, whatever the
   clock does and the processor enqueues.
   */
  method DrainDue(table: Table, allowed: set<string>, limit: int, world: nat -> Round)
    returns (processed: nat, limitReached: bool, failed: bool, log: seq<Taken>)
    modifies table
    ensures |log| <= (if limit <= 0 then 100 else limit)
    ensures limitReached <==> !failed && processed == if limit <= 0 then 100 else limit
    ensures processed == |log| || (failed && processed + 1 == |log|)
    ensures NoneTwice(log) && AllDone(table.rows, log[..processed])
    ensures failed && |log| > processed ==>
              world(processed).now.Some?
              && IsNotDone(table.rows, log[processed].job, world(processed), world(processed).now.value + 1)
    ensures !failed && !limitReached ==>
              NothingDue(table.rows, allowed, world(processed))
    ensures (forall k :: IsCalm(world(k))) ==>
              InOrder(log, |old(table.rows)|) && (!failed ==> WorkedOff(old(table.rows), table.rows, log))
  {
    hide Sound, Orderly, InOrder, WorkedOff, AllDone, NoneTwice, IsCalm, NothingDue, IsNotDone;
    var limit := Limit(limit);
    processed, log := 0, [];
    ghost var was := table.rows;
    ghost var calm := forall k :: IsCalm(world(k));
    StartIsOrderly(was, allowed);
    while processed < limit
      invariant processed == |log| <= limit
      invariant Sound(log, table.rows) && (calm ==> Orderly(was, table.rows, log, allowed))
    {
      var taken, ok := DrainRound(table, allowed, world(processed), was, log, calm);
      if taken.None? {
        Conclude(was, table.rows, log, allowed, calm);
        return processed, false, !ok, log;
      }
      assert (log + [taken.value])[..processed] == log;
      log := log + [taken.value];
      if !ok {
        return processed, false, true, log;
      }
      processed := processed + 1;
    }
    Conclude(was, table.rows, log, allowed, calm);
    return processed, true, false, log;
  }
}
