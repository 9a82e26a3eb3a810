/**
 The driver's rounds and the tick's statements are steps of the job queue, so the theorems over runs of
 the queue hold of the tables they leave.
 */
module JobRefinement {
  import opened Wrappers
  import opened JobTable
  import opened JobDrain
  import Q = JobQueue

  function Requested(statements: seq<Statement>): seq<Q.Step>
    requires forall i :: 0 <= i < |statements| ==> statements[i].Enqueues?
  {
    if statements == [] then []
    else Requested(statements[..|statements| - 1]) + [Q.Add(statements[|statements| - 1].request)]
  }

  /** What the processor enqueues meanwhile, after the step that took the row. */
  lemma {:induction false} EnqueuesAreRuns(s: Q.State, first: Q.Step, statements: seq<Statement>, mine: Option<nat>)
    requires Q.Enabled(s, first) && forall i :: 0 <= i < |statements| ==> statements[i].Enqueues?
    ensures Q.Runs(s, [first] + Requested(statements))
    ensures var s', s'' := Q.Apply(s, first), Q.After(s, [first] + Requested(statements));
            s'' == s'.(rows := Others(s'.rows, statements, mine))
  {
    hide Q.Enabled, Q.Apply, Enqueue;
    if statements == [] {
      assert [first] + Requested([]) == [first];
      assert [first][1..] == [];
    } else {
      var n := |statements| - 1;
      EnqueuesAreRuns(s, first, statements[..n], mine);
      AddOne(s, [first] + Requested(statements[..n]), statements[n].request);
      assert [first] + Requested(statements) == [first] + Requested(statements[..n]) + [Q.Add(statements[n].request)];
    }
  }

  lemma AddOne(s: Q.State, steps: seq<Q.Step>, r: Request)
    requires Q.Runs(s, steps)
    ensures Q.Runs(s, steps + [Q.Add(r)])
    ensures Q.After(s, steps + [Q.Add(r)]) == Q.After(s, steps).(rows := Enqueue(Q.After(s, steps).rows, r))
  {
    Q.Append(s, steps, Q.Add(r));
  }

  /** The step that ends a round: recorded as done, recorded for a retry, or not recorded. */
  function End(w: nat, round: Round, retryAt: int): Q.Step {
    if !round.marked then Q.Lose(w) else if round.works then Q.Succeed(w) else Q.Fail(w, retryAt)
  }

  /** A round of DrainDue in which nobody else touches the table is a claim, the processor's enqueues and an end. */
  lemma RoundIsARun(s: Q.State, w: nat, j: nat, allowed: set<string>, now: int, round: Round)
    requires w !in s.held && IsNext(s.rows, allowed, now, round.locked, j) && IsCalm(round)
    ensures var steps := [Q.Take(w, j, allowed, now, round.locked)] + Requested(round.during) + [End(w, round, now + 1)];
            && Q.Runs(s, steps)
            && j < |Others(Claim(s.rows, j), round.during, Some(j))|
            && Q.After(s, steps).rows == Recorded(Others(Claim(s.rows, j), round.during, Some(j)), j, round, now + 1)
            && w !in Q.After(s, steps).held && Q.After(s, steps).claims == s.claims + [j]
  {
    hide Others, IsNext;
    var take := Q.Take(w, j, allowed, now, round.locked);
    NextIsThere(s.rows, allowed, now, round.locked, j);
    EnqueuesAreRuns(s, take, round.during, Some(j));
    CalmOthersGrow(Claim(s.rows, j), round.during, Some(j));
    Q.Append(s, [take] + Requested(round.during), End(w, round, now + 1));
  }

  lemma NextIsThere(rows: seq<Job>, allowed: set<string>, now: int, locked: set<nat>, j: nat)
    requires IsNext(rows, allowed, now, locked, j)
    ensures j < |rows|
  {
  }
}
