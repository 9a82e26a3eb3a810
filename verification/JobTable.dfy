/** The job table and its statements. Ids are positions in creation order. */
module JobTable {
  import opened Wrappers

  datatype JobStatus = Queued | Running | Retry | Done | Failed

  datatype Job = Job(kind: string, status: JobStatus, key: Option<string>, runAt: int, attempts: nat, maxAttempts: nat)

  /** The column defaults of a new row. */
  const DEFAULT_MAX_ATTEMPTS: nat := 5

  predicate HasKey(rows: seq<Job>, key: string) {
    exists i :: 0 <= i < |rows| && rows[i].key == Some(key)
  }

  predicate UniqueKeys(rows: seq<Job>) {
    forall i, j :: 0 <= i < j < |rows| && rows[i].key.Some? ==> rows[i].key != rows[j].key
  }

  datatype Request = Request(kind: string, key: Option<string>, runAt: int)

  /** INSERT … ON CONFLICT DO NOTHING on the partial unique index over the keys. */
  function Enqueue(rows: seq<Job>, r: Request): seq<Job> {
    if r.key.Some? && HasKey(rows, r.key.value) then rows
    else rows + [Job(r.kind, Queued, r.key, r.runAt, 0, DEFAULT_MAX_ATTEMPTS)]
  }

  predicate IsWaiting(job: Job) {
    job.status == Queued || job.status == Retry
  }

  predicate IsDue(job: Job, allowed: set<string>, now: int) {
    IsWaiting(job) && job.runAt <= now && job.kind in allowed
  }

  /** The order in which a claim chooses: by run time, then by id. */
  predicate Before(runAt: int, id: nat, runAt': int, id': nat) {
    runAt < runAt' || (runAt == runAt' && id < id')
  }

  /** Row `j` is what a claim returns when the rows of `locked` are held by other transactions. */
  predicate IsNext(rows: seq<Job>, allowed: set<string>, now: int, locked: set<nat>, j: nat) {
    && j < |rows| && j !in locked && IsDue(rows[j], allowed, now)
    && forall i :: 0 <= i < |rows| && i !in locked && i != j && IsDue(rows[i], allowed, now) ==>
                     Before(rows[j].runAt, j, rows[i].runAt, i)
  }

  function Claim(rows: seq<Job>, j: nat): seq<Job>
    requires j < |rows|
  {
    rows[j := rows[j].(status := Running, attempts := rows[j].attempts + 1)]
  }

  function MarkDone(rows: seq<Job>, j: nat): seq<Job>
    requires j < |rows|
  {
    rows[j := rows[j].(status := Done)]
  }

  function MarkRetry(rows: seq<Job>, j: nat, runAt: int): seq<Job>
    requires j < |rows|
  {
    rows[j := rows[j].(status := if rows[j].attempts >= rows[j].maxAttempts then Failed else Retry, runAt := runAt)]
  }

  /** A claim finds a row exactly if one is due and not locked. */
  lemma {:induction false} NextExists(rows: seq<Job>, allowed: set<string>, now: int, locked: set<nat>, i: nat)
    returns (j: nat)
    requires i < |rows| && i !in locked && IsDue(rows[i], allowed, now)
    ensures IsNext(rows, allowed, now, locked, j)
    decreases |rows|
  {
    var n := |rows| - 1;
    if k :| 0 <= k < n && k !in locked && IsDue(rows[..n][k], allowed, now) {
      var front := rows[..n];
      j := NextExists(front, allowed, now, locked, k);
      if n !in locked && IsDue(rows[n], allowed, now) && Before(rows[n].runAt, n, rows[j].runAt, j) {
        j := n;
      }
      assert forall x :: 0 <= x < n ==> rows[x] == front[x];
    } else {
      j := i;
      assert forall x :: 0 <= x < n ==> rows[x] == rows[..n][x];
    }
  }

  /** A claim that was answered: the row, and its run time as returned. */
  datatype Taken = Taken(job: nat, runAt: int)

  class Table {
    var rows: seq<Job>

    constructor ()
      ensures rows == []
    {
      rows := [];
    }

    method EnqueueJob(r: Request)
      modifies this
      ensures old(rows) <= rows && |rows| <= |old(rows)| + 1
      ensures |rows| == |old(rows)| <==> r.key.Some? && HasKey(old(rows), r.key.value)
      ensures r.key.Some? ==> HasKey(rows, r.key.value)
      ensures UniqueKeys(old(rows)) ==> UniqueKeys(rows)
      ensures |rows| > |old(rows)| ==> rows[|old(rows)|] == Job(r.kind, Queued, r.key, r.runAt, 0, 5)
      ensures rows == Enqueue(old(rows), r)
    {
      if r.key.None? || !HasKey(rows, r.key.value) {
        rows := rows + [Job(r.kind, Queued, r.key, r.runAt, 0, DEFAULT_MAX_ATTEMPTS)];
        assert r.key.Some? ==> rows[|rows| - 1].key == Some(r.key.value);
      }
    }

    /** `locked` are the rows that claims of other workers have locked at this moment. */
    method ClaimJob(allowed: set<string>, now: int, locked: set<nat>) returns (taken: Option<Taken>)
      modifies this
      ensures taken.None? ==>
                && rows == old(rows)
                && forall i :: 0 <= i < |rows| && i !in locked && rows[i].status in {Queued, Retry} && rows[i].kind in allowed ==>
                                 rows[i].runAt > now
      ensures taken.Some? ==>
                var j := taken.value.job;
                && IsNext(old(rows), allowed, now, locked, j)
                && j !in locked && old(rows)[j].status in {Queued, Retry} && old(rows)[j].kind in allowed
                && old(rows)[j].runAt <= now
                && (forall i :: 0 <= i < |old(rows)| && i !in locked && old(rows)[i].status in {Queued, Retry}
                                && old(rows)[i].kind in allowed && old(rows)[i].runAt <= old(rows)[j].runAt ==>
                                  i == j || (old(rows)[i].runAt == old(rows)[j].runAt && i > j))
                && taken.value.runAt == old(rows)[j].runAt && rows == Claim(old(rows), j)
                && rows[j] == old(rows)[j].(status := Running, attempts := old(rows)[j].attempts + 1)
                && forall i :: 0 <= i < |rows| && i != j ==> rows[i] == old(rows)[i]
    {
      if i :| 0 <= i < |rows| && i !in locked && IsDue(rows[i], allowed, now) {
        ghost var _ := NextExists(rows, allowed, now, locked, i);
        var j: nat :| j < |rows| && IsNext(rows, allowed, now, locked, j);
        taken := Some(Taken(j, rows[j].runAt));
        rows := Claim(rows, j);
      } else {
        taken := None;
      }
    }

    method MarkJobDone(j: nat)
      requires j < |rows|
      modifies this
      ensures |rows| == |old(rows)| && rows[j] == old(rows)[j].(status := Done)
      ensures forall i :: 0 <= i < |rows| && i != j ==> rows[i] == old(rows)[i]
      ensures rows == MarkDone(old(rows), j)
    {
      rows := rows[j := rows[j].(status := Done)];
    }

    method MarkJobRetry(j: nat, runAt: int)
      requires j < |rows|
      modifies this
      ensures |rows| == |old(rows)| && rows[j] == old(rows)[j].(status := rows[j].status, runAt := runAt)
      ensures rows[j].status == Failed <==> old(rows)[j].attempts >= old(rows)[j].maxAttempts
      ensures rows[j].status == Retry <==> old(rows)[j].attempts < old(rows)[j].maxAttempts
      ensures forall i :: 0 <= i < |rows| && i != j ==> rows[i] == old(rows)[i]
      ensures rows == MarkRetry(old(rows), j, runAt)
    {
      var status := if rows[j].attempts >= rows[j].maxAttempts then Failed else Retry;
      rows := rows[j := rows[j].(status := status, runAt := runAt)];
    }
  }

  /** The table after a row of enqueued requests, last one last. */
  function EnqueueEach(rows: seq<Job>, requests: seq<Request>): seq<Job> {
    if requests == [] then rows
    else Enqueue(EnqueueEach(rows, requests[..|requests| - 1]), requests[|requests| - 1])
  }

  /** Rows are only added, and the added ones are queued. */
  predicate Grows(rows: seq<Job>, rows': seq<Job>) {
    rows <= rows' && forall i :: |rows| <= i < |rows'| ==> rows'[i].status == Queued
  }
}
