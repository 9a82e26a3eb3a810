/** Any number of workers on one job table, each statement one atomic step. */
module JobQueue {
  import opened JobTable

  /** `held` gives the row each busy worker works on; `claims` records the rows claimed, in order. */
  datatype State = State(rows: seq<Job>, held: map<nat, nat>, claims: seq<nat>)

  const EMPTY := State([], map[], [])

  datatype Step =
    | Add(request: Request)
    | Take(worker: nat, job: nat, allowed: set<string>, now: int, locked: set<nat>)
    | Succeed(worker: nat)
    | Fail(worker: nat, retryAt: int)
    | Lose(worker: nat)   // the outcome cannot be recorded, or the worker ends

  predicate Enabled(s: State, step: Step) {
    match step
    case Add(_) => true
    case Take(w, j, allowed, now, locked) => w !in s.held && IsNext(s.rows, allowed, now, locked, j)
    case Succeed(w) => w in s.held && s.held[w] < |s.rows|
    case Fail(w, _) => w in s.held && s.held[w] < |s.rows|
    case Lose(w) => w in s.held
  }

  function Apply(s: State, step: Step): State
    requires Enabled(s, step)
  {
    match step
    case Add(r) => s.(rows := Enqueue(s.rows, r))
    case Take(w, j, _, _, _) => s.(rows := Claim(s.rows, j), held := s.held[w := j], claims := s.claims + [j])
    case Succeed(w) => s.(rows := MarkDone(s.rows, s.held[w]), held := s.held - {w})
    case Fail(w, retryAt) => s.(rows := MarkRetry(s.rows, s.held[w], retryAt), held := s.held - {w})
    case Lose(w) => s.(held := s.held - {w})
  }

  predicate Runs(s: State, steps: seq<Step>)
    decreases |steps|
  {
    steps == [] || (Enabled(s, steps[0]) && Runs(Apply(s, steps[0]), steps[1..]))
  }

  function After(s: State, steps: seq<Step>): State
    requires Runs(s, steps)
    decreases |steps|
  {
    if steps == [] then s else After(Apply(s, steps[0]), steps[1..])
  }

  lemma {:induction false} Append(s: State, steps: seq<Step>, step: Step)
    requires Runs(s, steps) && Enabled(After(s, steps), step)
    ensures Runs(s, steps + [step]) && After(s, steps + [step]) == Apply(After(s, steps), step)
    decreases |steps|
  {
    hide Apply, Enabled;
    if steps == [] {
      assert [step][1..] == [];
    } else {
      assert (steps + [step])[1..] == steps[1..] + [step];
      Append(Apply(s, steps[0]), steps[1..], step);
    }
  }

  // ---------- The invariant ----------

  function ClaimCount(s: State, j: nat): nat {
    multiset(s.claims)[j]
  }

  predicate RowOk(s: State, j: nat)
    requires j < |s.rows|
  {
    var row := s.rows[j];
    && 1 <= row.maxAttempts
    && row.attempts <= row.maxAttempts
    && (IsWaiting(row) ==> row.attempts < row.maxAttempts)
    && ClaimCount(s, j) == row.attempts
  }

  ghost predicate Inv(s: State) {
    && (forall w <- s.held :: s.held[w] < |s.rows| && s.rows[s.held[w]].status == Running)
    && (forall w, v :: w in s.held && v in s.held && w != v ==> s.held[w] != s.held[v])
    && (forall j :: 0 <= j < |s.rows| ==> RowOk(s, j))
    && (forall k :: 0 <= k < |s.claims| ==> s.claims[k] < |s.rows|)
    && (forall i, j :: 0 <= i < j < |s.rows| && s.rows[i].key.Some? ==> s.rows[i].key != s.rows[j].key)
  }

  lemma AddKeepsInv(s: State, r: Request)
    requires Inv(s)
    ensures Inv(Apply(s, Add(r)))
  {
    var s' := Apply(s, Add(r));
    assert |s.rows| !in s.claims;
    forall j | 0 <= j < |s'.rows| ensures RowOk(s', j) {
      assert j < |s.rows| ==> RowOk(s, j) && s'.rows[j] == s.rows[j];
    }
  }

  lemma TakeKeepsInv(s: State, step: Step)
    requires Inv(s) && step.Take? && Enabled(s, step)
    ensures Inv(Apply(s, step))
  {
    var s' := Apply(s, step);
    forall j | 0 <= j < |s'.rows| ensures RowOk(s', j) {
      assert RowOk(s, j);
    }
  }

  lemma EndKeepsInv(s: State, step: Step)
    requires Inv(s) && (step.Succeed? || step.Fail? || step.Lose?) && Enabled(s, step)
    ensures Inv(Apply(s, step))
  {
    var s' := Apply(s, step);
    forall j | 0 <= j < |s'.rows| ensures RowOk(s', j) {
      assert RowOk(s, j);
    }
  }

  lemma StepKeepsInv(s: State, step: Step)
    requires Inv(s) && Enabled(s, step)
    ensures Inv(Apply(s, step))
  {
    hide Inv, IsNext;
    match step
    case Add(r) => AddKeepsInv(s, r);
    case Take(_, _, _, _, _) => TakeKeepsInv(s, step);
    case _ => EndKeepsInv(s, step);
  }

  lemma {:induction false} RunKeepsInv(s: State, steps: seq<Step>)
    requires Inv(s) && Runs(s, steps)
    ensures Inv(After(s, steps))
    decreases |steps|
  {
    hide Inv, Apply, Enabled;
    if steps == [] {
    } else {
      StepKeepsInv(s, steps[0]);
      RunKeepsInv(Apply(s, steps[0]), steps[1..]);
    }
  }

  // ---------- Guarantees ----------

  /**
   In every run with any number of workers: a running row is held by at most one worker, a waiting
   row has an attempt left, and a row has been claimed exactly `attempts` times, at most
   `max_attempts` of them.
   */
  lemma QueueInvariant(steps: seq<Step>, j: nat)
    requires Runs(EMPTY, steps) && j < |After(EMPTY, steps).rows|
    ensures var s := After(EMPTY, steps);
            && (forall w, v :: w in s.held && v in s.held && s.held[w] == j && s.held[v] == j ==> w == v)
            && (j in s.held.Values ==> s.rows[j].status == Running)
            && (IsWaiting(s.rows[j]) ==> s.rows[j].attempts < s.rows[j].maxAttempts)
            && ClaimCount(s, j) == s.rows[j].attempts <= s.rows[j].maxAttempts == 5
  {
    RunKeepsInv(EMPTY, steps);
    RunKeepsMax(EMPTY, steps);
    assert RowOk(After(EMPTY, steps), j);
  }

  lemma {:induction false} RunKeepsMax(s: State, steps: seq<Step>)
    requires Runs(s, steps) && forall row <- s.rows :: row.maxAttempts == DEFAULT_MAX_ATTEMPTS
    ensures forall row <- After(s, steps).rows :: row.maxAttempts == DEFAULT_MAX_ATTEMPTS
    decreases |steps|
  {
    if steps == [] {
    } else {
      RunKeepsMax(Apply(s, steps[0]), steps[1..]);
    }
  }

  predicate IsFinal(job: Job) {
    job.status == Done || job.status == Failed
  }

  /** Rows are never removed, keep their kind and key, and a row that is done or failed never changes again. */
  lemma {:induction false} FinalRowsNeverChange(s: State, steps: seq<Step>, j: nat)
    requires Inv(s) && Runs(s, steps) && j < |s.rows|
    ensures j < |After(s, steps).rows|
    ensures After(s, steps).rows[j].key == s.rows[j].key && After(s, steps).rows[j].kind == s.rows[j].kind
    ensures IsFinal(s.rows[j]) ==> After(s, steps).rows[j] == s.rows[j]
    decreases |steps|
  {
    if steps == [] {
    } else {
      StepKeepsFinal(s, steps[0], j);
      StepKeepsInv(s, steps[0]);
      hide Inv, Apply, Enabled;
      FinalRowsNeverChange(Apply(s, steps[0]), steps[1..], j);
    }
  }

  lemma StepKeepsFinal(s: State, step: Step, j: nat)
    requires Inv(s) && Enabled(s, step) && j < |s.rows|
    ensures var rows' := Apply(s, step).rows;
            && j < |rows'| && rows'[j].key == s.rows[j].key && rows'[j].kind == s.rows[j].kind
            && (IsFinal(s.rows[j]) ==> rows'[j] == s.rows[j])
  {
  }

  // ---------- How a row ends ----------

  /** Some Succeed of the run was taken by a worker that held the row. */
  ghost predicate Succeeds(s: State, steps: seq<Step>, j: nat)
    requires Runs(s, steps)
    decreases |steps|
  {
    steps != [] && (EndsWell(s, steps[0], j) || Succeeds(Apply(s, steps[0]), steps[1..], j))
  }

  predicate EndsWell(s: State, step: Step, j: nat) {
    step.Succeed? && step.worker in s.held && s.held[step.worker] == j
  }

  /** Some Fail of the run was taken by a worker that held the row, on its last allowed claim. */
  ghost predicate FailsLast(s: State, steps: seq<Step>, j: nat)
    requires Runs(s, steps)
    decreases |steps|
  {
    steps != [] && (EndsBadly(s, steps[0], j) || FailsLast(Apply(s, steps[0]), steps[1..], j))
  }

  predicate EndsBadly(s: State, step: Step, j: nat) {
    && step.Fail? && step.worker in s.held && s.held[step.worker] == j
    && j < |s.rows| && ClaimCount(s, j) == s.rows[j].maxAttempts
  }

  lemma StepEndsRow(s: State, step: Step, j: nat)
    requires Inv(s) && Enabled(s, step)
    ensures var rows' := Apply(s, step).rows;
            && |s.rows| <= |rows'|
            && (j < |s.rows| ==>
                  && (rows'[j].status == Done <==> s.rows[j].status == Done || EndsWell(s, step, j))
                  && (rows'[j].status == Failed <==> s.rows[j].status == Failed || EndsBadly(s, step, j)))
            && (|s.rows| <= j < |rows'| ==> rows'[j].status == Queued)
            && (j >= |s.rows| ==> !EndsWell(s, step, j) && !EndsBadly(s, step, j))
  {
    if j < |s.rows| {
      assert RowOk(s, j);
    }
  }

  lemma {:induction false} RunEndsRow(s: State, steps: seq<Step>, j: nat)
    requires Inv(s) && Runs(s, steps) && j < |After(s, steps).rows|
    ensures After(s, steps).rows[j].status == Done <==>
            (j < |s.rows| && s.rows[j].status == Done) || Succeeds(s, steps, j)
    ensures After(s, steps).rows[j].status == Failed <==>
            (j < |s.rows| && s.rows[j].status == Failed) || FailsLast(s, steps, j)
    decreases |steps|
  {
    if steps == [] {
    } else {
      hide Inv, Apply, Enabled, EndsWell, EndsBadly;
      StepEndsRow(s, steps[0], j);
      StepKeepsInv(s, steps[0]);
      RunEndsRow(Apply(s, steps[0]), steps[1..], j);
    }
  }

  /**
   In every run, a row is done exactly if a worker that held it took it to success, and failed exactly
   if a worker that held it failed on the last of its five claims; a failed row has used up all
   its attempts.
   */
  lemma RowsEndByTheirOutcome(steps: seq<Step>, j: nat)
    requires Runs(EMPTY, steps) && j < |After(EMPTY, steps).rows|
    ensures var row := After(EMPTY, steps).rows[j];
            && (row.status == Done <==> Succeeds(EMPTY, steps, j))
            && (row.status == Failed <==> FailsLast(EMPTY, steps, j))
            && (row.status == Failed ==> row.attempts == row.maxAttempts == 5)
  {
    RunEndsRow(EMPTY, steps, j);
    RunKeepsSpent(EMPTY, steps);
    RunKeepsMax(EMPTY, steps);
  }

  ghost predicate FailedAreSpent(s: State) {
    forall j :: 0 <= j < |s.rows| && s.rows[j].status == Failed ==> s.rows[j].attempts == s.rows[j].maxAttempts
  }

  lemma {:induction false} RunKeepsSpent(s: State, steps: seq<Step>)
    requires Inv(s) && FailedAreSpent(s) && Runs(s, steps)
    ensures FailedAreSpent(After(s, steps))
    decreases |steps|
  {
    if steps == [] {
    } else {
      StepKeepsSpent(s, steps[0]);
      StepKeepsInv(s, steps[0]);
      RunKeepsSpent(Apply(s, steps[0]), steps[1..]);
    }
  }

  lemma StepKeepsSpent(s: State, step: Step)
    requires Inv(s) && FailedAreSpent(s) && Enabled(s, step)
    ensures FailedAreSpent(Apply(s, step))
  {
    var s' := Apply(s, step);
    forall j | 0 <= j < |s'.rows| && s'.rows[j].status == Failed ensures s'.rows[j].attempts == s'.rows[j].maxAttempts {
      if j < |s.rows| {
        assert RowOk(s, j);
      }
    }
  }

  // ---------- Conservation and termination ----------

  function Allowance(rows: seq<Job>): nat {
    if rows == [] then 0 else Allowance(rows[..|rows| - 1]) + rows[|rows| - 1].maxAttempts
  }

  function Left(job: Job): int {
    job.maxAttempts - job.attempts
  }

  /** The attempts that all rows together have left. */
  function Remaining(rows: seq<Job>): int {
    if rows == [] then 0 else Remaining(rows[..|rows| - 1]) + Left(rows[|rows| - 1])
  }

  lemma {:induction false} OneRowChanges(rows: seq<Job>, j: nat, row: Job)
    requires j < |rows| && row.maxAttempts == rows[j].maxAttempts
    ensures Remaining(rows[j := row]) == Remaining(rows) - Left(rows[j]) + Left(row)
    ensures Allowance(rows[j := row]) == Allowance(rows)
  {
    var n := |rows| - 1;
    if j < n {
      OneRowChanges(rows[..n], j, row);
      assert rows[j := row][..n] == rows[..n][j := row];
    } else {
      assert rows[j := row][..n] == rows[..n];
    }
  }

  lemma OneRowMore(rows: seq<Job>, row: Job)
    ensures Remaining(rows + [row]) == Remaining(rows) + Left(row)
    ensures Allowance(rows + [row]) == Allowance(rows) + row.maxAttempts
  {
    assert (rows + [row])[..|rows|] == rows;
  }

  lemma {:induction false} RemainingIsNatural(rows: seq<Job>)
    requires forall j :: 0 <= j < |rows| ==> rows[j].attempts <= rows[j].maxAttempts
    ensures 0 <= Remaining(rows) <= Allowance(rows)
  {
    if rows == [] {
    } else {
      RemainingIsNatural(rows[..|rows| - 1]);
    }
  }

  /** A step without an enqueue lowers this: it takes an attempt, or ends a piece of work. */
  function Measure(s: State): int {
    2 * Remaining(s.rows) + |s.held|
  }

  lemma StepBalances(s: State, step: Step)
    requires Inv(s) && Enabled(s, step)
    ensures |Apply(s, step).claims| + Remaining(Apply(s, step).rows) - Allowance(Apply(s, step).rows) ==
            |s.claims| + Remaining(s.rows) - Allowance(s.rows)
    ensures !step.Add? ==> Measure(Apply(s, step)) < Measure(s)
  {
    hide Remaining, Allowance;
    match step
    case Add(r) => OneRowMore(s.rows, Job(r.kind, Queued, r.key, r.runAt, 0, DEFAULT_MAX_ATTEMPTS));
    case Take(w, j, _, _, _) =>
      OneRowChanges(s.rows, j, Apply(s, step).rows[j]);
    case Succeed(w) => OneRowChanges(s.rows, s.held[w], Apply(s, step).rows[s.held[w]]);
    case Fail(w, _) => OneRowChanges(s.rows, s.held[w], Apply(s, step).rows[s.held[w]]);
    case Lose(w) =>
  }

  /**
   Conservation: the claims made and the attempts left always add up to the attempts allowed. So
   there are never more claims than that.
   */
  lemma {:induction false} ClaimsAreConserved(s: State, steps: seq<Step>)
    requires Inv(s) && Runs(s, steps) && |s.claims| + Remaining(s.rows) == Allowance(s.rows)
    ensures var s' := After(s, steps);
            |s'.claims| + Remaining(s'.rows) == Allowance(s'.rows) && |s'.claims| <= Allowance(s'.rows)
    decreases |steps|
  {
    hide Inv, Apply, Enabled, Remaining, Allowance;
    if steps != [] {
      StepBalances(s, steps[0]);
      StepKeepsInv(s, steps[0]);
      ClaimsAreConserved(Apply(s, steps[0]), steps[1..]);
    } else {
      AttemptsAreBounded(s);
      RemainingIsNatural(s.rows);
    }
  }

  lemma AttemptsAreBounded(s: State)
    requires Inv(s)
    ensures forall j :: 0 <= j < |s.rows| ==> s.rows[j].attempts <= s.rows[j].maxAttempts
  {
    forall j | 0 <= j < |s.rows| ensures s.rows[j].attempts <= s.rows[j].maxAttempts {
      assert RowOk(s, j);
    }
  }

  /** Without new jobs the workers come to rest: a run has no more steps than the measure it starts from. */
  lemma {:induction false} WorkersComeToRest(s: State, steps: seq<Step>)
    requires Inv(s) && Runs(s, steps) && forall i :: 0 <= i < |steps| ==> !steps[i].Add?
    ensures |steps| <= Measure(s)
    decreases |steps|
  {
    hide Inv, Apply, Enabled, Measure;
    if steps != [] {
      StepBalances(s, steps[0]);
      StepKeepsInv(s, steps[0]);
      WorkersComeToRest(Apply(s, steps[0]), steps[1..]);
    } else {
      MeasureIsNatural(s);
    }
  }

  lemma MeasureIsNatural(s: State)
    requires Inv(s)
    ensures Measure(s) >= 0
  {
    AttemptsAreBounded(s);
    RemainingIsNatural(s.rows);
  }
}
