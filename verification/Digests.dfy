/** The morning digest jobs: their idempotency keys, and the scheduler's tick that enqueues them. */
module Digests {
  import opened Wrappers
  import opened Decimal
  import Text
  import C = Calendar
  import opened JobTable
  import Q = JobQueue

  // ---------- Keys ----------

  /** The layout 2006-01-02. */
  function PrintDate(d: C.Date): string {
    Padded(d.Year(), 4) + "-" + Padded(d.MonthOfYear(), 2) + "-" + Padded(d.day, 2)
  }

  function DigestKey(user: int, d: C.Date): string {
    "digest:" + Print(user) + ":" + PrintDate(d)
  }

  function DraftCleanupKey(draft: int): string {
    "draft-cleanup:" + Print(draft)
  }

  function CleanerKey(trace: string): string {
    trace + ":cleaner"
  }

  lemma TwoDigits(n: nat)
    requires n < 100
    ensures |Padded(n, 2)| == 2
  {
    assert PaddedDigits(n / 10, 1) == [Digit(n / 10)];
  }

  lemma PaddedIsInjective(a: int, b: int, width: nat)
    requires Padded(a, width) == Padded(b, width)
    ensures a == b
  {
    PaddedDenotes(a, width);
    PaddedDenotes(b, width);
  }

  lemma SuffixesAgree(a: string, b: string, x: string, y: string)
    requires a + x == b + y && |x| == |y|
    ensures a == b && x == y
  {
    assert |a| == |b|;
    assert (a + x)[..|a|] == a && (b + y)[..|b|] == b;
    assert (a + x)[|a|..] == x && (b + y)[|b|..] == y;
  }

  lemma PrintDateIsInjective(d: C.Date, e: C.Date)
    requires d.Valid() && e.Valid() && PrintDate(d) == PrintDate(e)
    ensures d == e
  {
    hide Padded, PaddedDigits;
    TwoDigits(d.day);
    TwoDigits(e.day);
    TwoDigits(d.MonthOfYear());
    TwoDigits(e.MonthOfYear());
    var y, y' := Padded(d.Year(), 4), Padded(e.Year(), 4);
    var m, m' := Padded(d.MonthOfYear(), 2), Padded(e.MonthOfYear(), 2);
    SuffixesAgree(y + "-" + m + "-", y' + "-" + m' + "-", Padded(d.day, 2), Padded(e.day, 2));
    SuffixesAgree(y + "-" + m, y' + "-" + m', "-", "-");
    SuffixesAgree(y + "-", y' + "-", m, m');
    SuffixesAgree(y, y', "-", "-");
    PaddedIsInjective(d.Year(), e.Year(), 4);
    PaddedIsInjective(d.MonthOfYear(), e.MonthOfYear(), 2);
    PaddedIsInjective(d.day, e.day, 2);
  }

  lemma PrintDateIsColonFree(d: C.Date)
    ensures ColonFree(PrintDate(d)) && PrintDate(d) != "" && IsDigit(PrintDate(d)[|PrintDate(d)| - 1])
  {
    hide Padded;
    PaddedIsColonFree(d.Year(), 4);
    PaddedIsColonFree(d.MonthOfYear(), 2);
    PaddedIsColonFree(d.day, 2);
  }

  lemma KeyIsNested(user: string, date: string)
    ensures "digest:" + user + ":" + date == "digest" + ":" + (user + ":" + date)
  {
    assert "digest:" == "digest" + ":";
    Text.Assoc("digest:" + user, ":", date);
    Text.Assoc("digest:", user, ":" + date);
    Text.Assoc(user, ":", date);
  }

  /** Three parts without colons, joined by colons, split into these parts. */
  lemma ThreePartsSplit(a: string, b: string, c: string)
    requires ColonFree(a) && ColonFree(b) && ColonFree(c)
    ensures Split(a + ":" + (b + ":" + c)) == [a, b, c]
  {
    SplitWithoutColon(c);
    SplitAtColon(b, c);
    SplitAtColon(a, b + ":" + c);
  }

  lemma DigestKeySplits(user: int, d: C.Date)
    ensures Split(DigestKey(user, d)) == ["digest", Print(user), PrintDate(d)]
  {
    hide Padded, Print, PrintDate, Split;
    PaddedIsColonFree(user, 0);
    PrintIsPadded(user);
    PrintDateIsColonFree(d);
    ThreePartsSplit("digest", Print(user), PrintDate(d));
    KeyIsNested(Print(user), PrintDate(d));
  }

  lemma PrintIsPadded(n: int)
    ensures Print(n) == Padded(n, 0)
  {
  }

  /** Different users or different local dates have different digest keys. */
  lemma DigestKeyIsInjective(user: int, d: C.Date, user': int, d': C.Date)
    requires d.Valid() && d'.Valid() && DigestKey(user, d) == DigestKey(user', d')
    ensures user == user' && d == d'
  {
    hide Padded, DigestKey, PrintDate;
    DigestKeySplits(user, d);
    DigestKeySplits(user', d');
    assert Split(DigestKey(user, d))[1] == Print(user) && Split(DigestKey(user, d))[2] == PrintDate(d);
    PaddedIsInjective(user, user', 0);
    PrintDateIsInjective(d, d');
  }

  /** The three families of keys have no key in common, and each names its subject. */
  lemma KeyFamiliesAreApart(user: int, d: C.Date, draft: int, trace: string)
    ensures DigestKey(user, d) != DraftCleanupKey(draft)
    ensures DigestKey(user, d) != CleanerKey(trace)
    ensures DraftCleanupKey(draft) != CleanerKey(trace)
  {
    hide Padded, PrintDate;
    PrintDateIsColonFree(d);
    PaddedIsColonFree(draft, 0);
    PrintIsPadded(draft);
    var digest, cleanup, cleaner := DigestKey(user, d), DraftCleanupKey(draft), CleanerKey(trace);
    assert digest[1] == 'i' && cleanup[1] == 'r';
    assert cleaner[|cleaner| - 1] == 'r';
    assert digest[|digest| - 1] == PrintDate(d)[|PrintDate(d)| - 1];
    assert cleanup[|cleanup| - 1] == Print(draft)[|Print(draft)| - 1];
  }

  lemma OtherKeysAreInjective(draft: int, draft': int, trace: string, trace': string)
    ensures DraftCleanupKey(draft) == DraftCleanupKey(draft') ==> draft == draft'
    ensures CleanerKey(trace) == CleanerKey(trace') ==> trace == trace'
  {
    if DraftCleanupKey(draft) == DraftCleanupKey(draft') {
      assert DraftCleanupKey(draft)[14..] == Print(draft) && DraftCleanupKey(draft')[14..] == Print(draft');
      PaddedIsInjective(draft, draft', 0);
    }
    if CleanerKey(trace) == CleanerKey(trace') {
      SuffixesAgree(trace, trace', ":cleaner", ":cleaner");
    }
  }

  /** The layout of the keys. */
  lemma KeysOfSubjects()
    ensures DigestKey(42, C.Date(C.MonthCount(2024, 3), 7)) == "digest:42:2024-03-07"
    ensures DraftCleanupKey(105) == "draft-cleanup:105" && CleanerKey("t1") == "t1:cleaner"
  {
    hide Print, Padded;
    PaddedAsPrinted();
  }

  // ---------- The tick ----------

  datatype User = User(id: int, timezone: string, digestLocalTime: string)

  /** An instant as a user's clock shows it: the date, and the time in the layout 15:04. */
  datatype LocalTime = LocalTime(date: C.Date, clock: string)

  /** How instants look in a time zone; any such reading will do. */
  type Zones = (int, string) -> LocalTime

  predicate IsDigestTime(user: User, now: int, zones: Zones) {
    zones(now, user.timezone).clock == user.digestLocalTime
  }

  function DigestRequest(user: User, now: int, zones: Zones): Request {
    Request("send_morning_digest", Some(DigestKey(user.id, zones(now, user.timezone).date)), now)
  }

  function DueDigests(users: seq<User>, now: int, zones: Zones): seq<Request> {
    if users == [] then []
    else
      var last := users[|users| - 1];
      var before := DueDigests(users[..|users| - 1], now, zones);
      if IsDigestTime(last, now, zones) then before + [DigestRequest(last, now, zones)] else before
  }

  lemma DueSnoc(users: seq<User>, i: nat, now: int, zones: Zones)
    requires i < |users|
    ensures var before := DueDigests(users[..i], now, zones);
            DueDigests(users[..i + 1], now, zones) ==
            if IsDigestTime(users[i], now, zones) then before + [DigestRequest(users[i], now, zones)] else before
  {
    assert users[..i + 1][..i] == users[..i];
  }

  /** enqueueDueDigests; `broken(i)` says that the statement for user number `i` fails, which ends the tick. */
  method EnqueueDueDigests(table: Table, users: seq<User>, now: int, zones: Zones, broken: nat -> bool)
    returns (ok: bool, handled: nat)
    modifies table
    ensures handled <= |users| && (ok <==> handled == |users|)
    ensures table.rows == EnqueueEach(old(table.rows), DueDigests(users[..handled], now, zones))
    ensures !ok ==> broken(handled) && IsDigestTime(users[handled], now, zones)
    ensures old(table.rows) <= table.rows && (UniqueKeys(old(table.rows)) ==> UniqueKeys(table.rows))
    ensures forall k :: 0 <= k < handled && zones(now, users[k].timezone).clock == users[k].digestLocalTime ==>
                          HasKey(table.rows, DigestKey(users[k].id, zones(now, users[k].timezone).date))
    ensures forall i :: |old(table.rows)| <= i < |table.rows| ==> IsDigestOfSome(users[..handled], now, zones, table.rows[i])
  {
    hide DueDigests, EnqueueEach, DigestKey, HasKey, UniqueKeys, IsDigestOf;
    assert EnqueueEach(table.rows, DueDigests(users[..0], now, zones)) == table.rows by {
      NothingDue(table.rows, users, now, zones);
    }
    for i := 0 to |users|
      invariant table.rows == EnqueueEach(old(table.rows), DueDigests(users[..i], now, zones))
    {
      DueSnoc(users, i, now, zones);
      var localNow := zones(now, users[i].timezone);
      if localNow.clock != users[i].digestLocalTime {
        continue;
      }
      var key := DigestKey(users[i].id, localNow.date);
      if broken(i) {
        TickRows(old(table.rows), users[..i], now, zones);
        return false, i;
      }
      EnqueueSnoc(old(table.rows), DueDigests(users[..i], now, zones), DigestRequest(users[i], now, zones));
      table.EnqueueJob(Request("send_morning_digest", Some(key), now));
    }
    assert users[..|users|] == users;
    TickRows(old(table.rows), users, now, zones);
    return true, |users|;
  }

  lemma NothingDue(rows: seq<Job>, users: seq<User>, now: int, zones: Zones)
    ensures EnqueueEach(rows, DueDigests(users[..0], now, zones)) == rows
  {
  }

  lemma EnqueueSnoc(rows: seq<Job>, requests: seq<Request>, r: Request)
    ensures EnqueueEach(rows, requests + [r]) == Enqueue(EnqueueEach(rows, requests), r)
  {
    assert (requests + [r])[..|requests|] == requests;
  }

  /** The row of a digest for a user whose clock shows the digest time. */
  predicate IsDigestOf(u: User, now: int, zones: Zones, row: Job) {
    var localNow := zones(now, u.timezone);
    && localNow.clock == u.digestLocalTime
    && row == Job("send_morning_digest", Queued, Some(DigestKey(u.id, localNow.date)), now, 0, 5)
  }

  ghost predicate IsDigestOfSome(users: seq<User>, now: int, zones: Zones, row: Job) {
    exists k :: 0 <= k < |users| && IsDigestOf(users[k], now, zones, row)
  }

  /** A tick adds rows of due users only, and in the end every due user has one with its key. */
  lemma {:induction false} TickRows(rows: seq<Job>, users: seq<User>, now: int, zones: Zones)
    ensures var rows' := EnqueueEach(rows, DueDigests(users, now, zones));
            && rows <= rows' && (UniqueKeys(rows) ==> UniqueKeys(rows'))
            && (forall k :: 0 <= k < |users| && zones(now, users[k].timezone).clock == users[k].digestLocalTime ==>
                              HasKey(rows', DigestKey(users[k].id, zones(now, users[k].timezone).date)))
            && (forall i :: |rows| <= i < |rows'| ==> IsDigestOfSome(users, now, zones, rows'[i]))
  {
    hide DigestKey;
    if users == [] {
    } else {
      var n := |users| - 1;
      var last := users[n];
      var before := EnqueueEach(rows, DueDigests(users[..n], now, zones));
      TickRows(rows, users[..n], now, zones);
      var rows' := EnqueueEach(rows, DueDigests(users, now, zones));
      if IsDigestTime(last, now, zones) {
        EnqueueSnoc(rows, DueDigests(users[..n], now, zones), DigestRequest(last, now, zones));
        EnqueueAdds(before, DigestRequest(last, now, zones));
      }
      TickRowsSnoc(rows, before, rows', users, now, zones);
    }
  }

  lemma EnqueueAdds(rows: seq<Job>, r: Request)
    ensures var rows' := Enqueue(rows, r);
            && rows <= rows' && |rows'| <= |rows| + 1 && (UniqueKeys(rows) ==> UniqueKeys(rows'))
            && (r.key.Some? ==> HasKey(rows', r.key.value))
            && (|rows'| > |rows| ==> rows'[|rows|] == Job(r.kind, Queued, r.key, r.runAt, 0, 5))
  {
    if r.key.Some? && !HasKey(rows, r.key.value) {
      assert Enqueue(rows, r)[|rows|].key == Some(r.key.value);
    }
  }

  lemma TickRowsSnoc(rows: seq<Job>, before: seq<Job>, rows': seq<Job>, users: seq<User>, now: int, zones: Zones)
    requires users != [] && rows <= before <= rows'
    requires var n := |users| - 1;
             && (forall k :: 0 <= k < n && zones(now, users[..n][k].timezone).clock == users[..n][k].digestLocalTime ==>
                               HasKey(before, DigestKey(users[..n][k].id, zones(now, users[..n][k].timezone).date)))
             && (forall i :: |rows| <= i < |before| ==> IsDigestOfSome(users[..n], now, zones, before[i]))
             && (if zones(now, users[n].timezone).clock == users[n].digestLocalTime then
                   && HasKey(rows', DigestKey(users[n].id, zones(now, users[n].timezone).date))
                   && (|rows'| == |before| || (|rows'| == |before| + 1 && IsDigestOf(users[n], now, zones, rows'[|before|])))
                 else rows' == before)
    ensures forall k :: 0 <= k < |users| && zones(now, users[k].timezone).clock == users[k].digestLocalTime ==>
                          HasKey(rows', DigestKey(users[k].id, zones(now, users[k].timezone).date))
    ensures forall i :: |rows| <= i < |rows'| ==> IsDigestOfSome(users, now, zones, rows'[i])
  {
    hide DigestKey, IsDigestOf;
    var n := |users| - 1;
    forall k | 0 <= k < |users| && zones(now, users[k].timezone).clock == users[k].digestLocalTime
      ensures HasKey(rows', DigestKey(users[k].id, zones(now, users[k].timezone).date))
    {
      if k < n {
        assert users[..n][k] == users[k];
        var i :| 0 <= i < |before| && before[i].key == Some(DigestKey(users[k].id, zones(now, users[k].timezone).date));
        assert rows'[i] == before[i];
      }
    }
    forall i | |rows| <= i < |rows'| ensures IsDigestOfSome(users, now, zones, rows'[i]) {
      if i < |before| {
        var k :| 0 <= k < n && IsDigestOf(users[..n][k], now, zones, before[i]);
        assert users[k] == users[..n][k];
      } else {
        assert IsDigestOf(users[n], now, zones, rows'[i]);
      }
    }
  }

  // ---------- One digest a day ----------

  predicate Requests(step: Q.Step, key: string) {
    step.Add? && step.request.key == Some(key)
  }

  ghost predicate Asks(steps: seq<Q.Step>, key: string) {
    exists i :: 0 <= i < |steps| && Requests(steps[i], key)
  }

  lemma AsksConcat(a: seq<Q.Step>, b: seq<Q.Step>, key: string)
    ensures Asks(a + b, key) <==> Asks(a, key) || Asks(b, key)
  {
    hide Requests;
    if i :| 0 <= i < |a| && Requests(a[i], key) {
      assert (a + b)[i] == a[i];
    }
    if i :| 0 <= i < |b| && Requests(b[i], key) {
      assert (a + b)[|a| + i] == b[i];
    }
  }

  /** In every run of the queue there is a row with a key exactly if one was requested, and never a second. */
  lemma {:induction false} KeyIsThereOnceRequested(s: Q.State, steps: seq<Q.Step>, key: string)
    requires Q.Inv(s) && Q.Runs(s, steps)
    ensures HasKey(Q.After(s, steps).rows, key) <==> HasKey(s.rows, key) || Asks(steps, key)
    decreases |steps|
  {
    if steps == [] {
    } else {
      StepAddsOnlyItsKey(s, steps[0], key);
      Q.StepKeepsInv(s, steps[0]);
      hide Q.Inv, Q.Apply, Q.Enabled, HasKey, Requests;
      KeyIsThereOnceRequested(Q.Apply(s, steps[0]), steps[1..], key);
      assert steps == [steps[0]] + steps[1..];
      AsksConcat([steps[0]], steps[1..], key);
      assert [steps[0]][0] == steps[0];
    }
  }

  lemma StepAddsOnlyItsKey(s: Q.State, step: Q.Step, key: string)
    requires Q.Enabled(s, step)
    ensures HasKey(Q.Apply(s, step).rows, key) <==> HasKey(s.rows, key) || Requests(step, key)
  {
    var rows, rows' := s.rows, Q.Apply(s, step).rows;
    if step.Add? {
      assert |rows'| > |rows| ==> rows'[|rows|].key == step.request.key;
    }
    forall i | 0 <= i < |rows| ensures rows'[i].key == rows[i].key {
    }
  }

  /**
   The life of the job table: ticks, each complete or cut short to the users it reached, and the
   steps of everyone else.
   */
  datatype Event = Tick(users: seq<User>, now: int, zones: Zones) | Other(step: Q.Step)

  /** Everyone else enqueues without a key, or with a key of the other two families. */
  ghost predicate IsFaithful(e: Event) {
    match e
    case Tick(users, now, zones) => forall k :: 0 <= k < |users| ==> zones(now, users[k].timezone).date.Valid()
    case Other(step) =>
      step.Add? && step.request.key.Some? ==>
        || (exists draft :: step.request.key.value == DraftCleanupKey(draft))
        || (exists trace :: step.request.key.value == CleanerKey(trace))
  }

  function Adds(requests: seq<Request>): seq<Q.Step> {
    if requests == [] then [] else Adds(requests[..|requests| - 1]) + [Q.Add(requests[|requests| - 1])]
  }

  /** The tick's statements, as steps of the queue, leave the rows that EnqueueDueDigests leaves. */
  lemma {:induction false} TickRuns(s: Q.State, requests: seq<Request>)
    ensures Q.Runs(s, Adds(requests)) && Q.After(s, Adds(requests)).rows == EnqueueEach(s.rows, requests)
  {
    hide Enqueue;
    if requests == [] {
    } else {
      var n := |requests| - 1;
      TickRuns(s, requests[..n]);
      Q.Append(s, Adds(requests[..n]), Q.Add(requests[n]));
    }
  }

  function StepsOf(e: Event): seq<Q.Step> {
    match e
    case Tick(users, now, zones) => Adds(DueDigests(users, now, zones))
    case Other(step) => [step]
  }

  function AllSteps(events: seq<Event>): seq<Q.Step> {
    if events == [] then [] else AllSteps(events[..|events| - 1]) + StepsOf(events[|events| - 1])
  }

  /** The tick is due for the user on that local date. */
  ghost predicate DueFor(e: Event, user: int, d: C.Date) {
    e.Tick? && SomeDue(e.users, e.now, e.zones, user, d)
  }

  ghost predicate SomeDue(users: seq<User>, now: int, zones: Zones, user: int, d: C.Date) {
    exists k :: 0 <= k < |users| && IsDueOn(users[k], now, zones, user, d)
  }

  predicate IsDueOn(u: User, now: int, zones: Zones, user: int, d: C.Date) {
    u.id == user && zones(now, u.timezone) == LocalTime(d, u.digestLocalTime)
  }

  lemma {:induction false} TickAsks(users: seq<User>, now: int, zones: Zones, user: int, d: C.Date)
    requires d.Valid() && forall k :: 0 <= k < |users| ==> zones(now, users[k].timezone).date.Valid()
    ensures Asks(Adds(DueDigests(users, now, zones)), DigestKey(user, d)) <==> SomeDue(users, now, zones, user, d)
  {
    hide DigestKey;
    if users == [] {
    } else {
      var n := |users| - 1;
      var last, before := users[n], DueDigests(users[..n], now, zones);
      TickAsks(users[..n], now, zones, user, d);
      SomeDueSnoc(users, now, zones, user, d);
      if IsDigestTime(last, now, zones) {
        var r := DigestRequest(last, now, zones);
        assert (before + [r])[..|before|] == before;
        AsksConcat(Adds(before), [Q.Add(r)], DigestKey(user, d));
        assert [Q.Add(r)][0] == Q.Add(r);
        if DigestKey(user, d) == DigestKey(last.id, zones(now, last.timezone).date) {
          DigestKeyIsInjective(user, d, last.id, zones(now, last.timezone).date);
        }
      }
    }
  }

  lemma SomeDueSnoc(users: seq<User>, now: int, zones: Zones, user: int, d: C.Date)
    requires users != []
    ensures var n := |users| - 1;
            SomeDue(users, now, zones, user, d) <==>
            SomeDue(users[..n], now, zones, user, d) || IsDueOn(users[n], now, zones, user, d)
  {
    hide IsDueOn;
    var n := |users| - 1;
    if k :| 0 <= k < n && IsDueOn(users[..n][k], now, zones, user, d) {
      assert users[k] == users[..n][k];
    }
  }

  lemma OtherAsksNothing(step: Q.Step, user: int, d: C.Date)
    requires IsFaithful(Other(step))
    ensures !Asks([step], DigestKey(user, d))
  {
    hide DigestKey, DraftCleanupKey, CleanerKey;
    if step.Add? && step.request.key.Some? {
      if draft :| step.request.key.value == DraftCleanupKey(draft) {
        KeyFamiliesAreApart(user, d, draft, "");
      } else {
        var trace :| step.request.key.value == CleanerKey(trace);
        KeyFamiliesAreApart(user, d, 0, trace);
      }
    }
  }

  lemma EventAsks(e: Event, user: int, d: C.Date)
    requires d.Valid() && IsFaithful(e)
    ensures Asks(StepsOf(e), DigestKey(user, d)) <==> DueFor(e, user, d)
  {
    hide DigestKey, Asks;
    match e
    case Tick(users, now, zones) => TickAsks(users, now, zones, user, d);
    case Other(step) => OtherAsksNothing(step, user, d);
  }

  lemma {:induction false} EventsAsk(events: seq<Event>, user: int, d: C.Date)
    requires d.Valid() && forall e <- events :: IsFaithful(e)
    ensures Asks(AllSteps(events), DigestKey(user, d)) <==> exists e <- events :: DueFor(e, user, d)
  {
    hide DigestKey, DueFor, IsFaithful;
    if events == [] {
    } else {
      var n := |events| - 1;
      EventsAsk(events[..n], user, d);
      EventAsks(events[n], user, d);
      hide Asks;
      AsksConcat(AllSteps(events[..n]), StepsOf(events[n]), DigestKey(user, d));
      assert events == events[..n] + [events[n]];
    }
  }

  /**
   Whatever the clocks, time zones and digest times were, and whatever the workers did: for a user
   and a local date there is a digest row exactly if some tick was due for that user on that local
   date, and never a second one.
   */
  lemma OneDigestPerUserAndDate(events: seq<Event>, user: int, d: C.Date)
    requires d.Valid() && (forall e <- events :: IsFaithful(e)) && Q.Runs(Q.EMPTY, AllSteps(events))
    ensures var rows := Q.After(Q.EMPTY, AllSteps(events)).rows;
            && (HasKey(rows, DigestKey(user, d)) <==> exists e <- events :: DueFor(e, user, d))
            && (forall i, j :: 0 <= i < j < |rows| ==> !(rows[i].key == rows[j].key == Some(DigestKey(user, d))))
  {
    hide DigestKey, DueFor, IsFaithful, Asks;
    Q.RunKeepsInv(Q.EMPTY, AllSteps(events));
    KeyIsThereOnceRequested(Q.EMPTY, AllSteps(events), DigestKey(user, d));
    EventsAsk(events, user, d);
  }
}
