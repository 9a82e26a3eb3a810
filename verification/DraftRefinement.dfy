/**
 What the store's handlers do without a disturbance is what runs of the lifecycle do: each handler
 ends in the tables of a run of the steps that its reads and writes stand for. So every theorem over
 runs holds of the handlers.
 */
module DraftRefinement {
  import opened Wrappers
  import opened DraftStore
  import opened DraftLifecycle

  lemma RunOne(s: State, step: Step)
    requires Enabled(s, step)
    ensures Runs(s, [step]) && After(s, [step]) == Apply(s, step)
  {
    hide Apply, Enabled;
    assert [step][1..] == [];
  }

  /** The bot's pending write, if any, and the prompt behind it. */
  lemma FinishWriting(s: State, user: nat, message: int) returns (steps: seq<Step>)
    requires !Pending(s, user).ToPrompt?
    ensures Runs(s, steps) && (forall i :: 0 <= i < |steps| ==> steps[i] == BotWrites(user, message))
    ensures var s' := After(s, steps);
            && Pending(s', user) == Nothing
            && s'.db == Commit(Commit(s.db, Pending(s, user), message), Next(Pending(s, user)), message)
  {
    hide Commit;
    steps := [];
    NothingCommitted(s.db, message);
    NothingCommitted(Commit(s.db, Pending(s, user), message), message);
    if !Pending(s, user).Nothing? {
      RunOne(s, BotWrites(user, message));
      steps := [BotWrites(user, message)];
      if Pending(s, user).ToEdit? {
        Append(s, steps, BotWrites(user, message));
        steps := steps + [BotWrites(user, message)];
      }
    }
  }

  lemma NothingCommitted(db: Tables, message: int)
    ensures Commit(db, Nothing, message) == db
  {
  }

  /** HandleDraftCallback is the read and the writes of a callback. */
  lemma CallbackIsARun(s: State, user: nat, d: nat, action: CallbackAction, message: int) returns (writes: seq<Step>)
    requires Enabled(s, Callback(user, d, action))
    ensures forall i :: 0 <= i < |writes| ==> writes[i] == BotWrites(user, message)
    ensures Runs(s, [Callback(user, d, action)] + writes)
    ensures After(s, [Callback(user, d, action)] + writes).db == AfterCallback(s.db, d, action, message)
  {
    var s' := Apply(s, Callback(user, d, action));
    writes := FinishWriting(s', user, message);
    assert ([Callback(user, d, action)] + writes)[1..] == writes;
  }

  /** HandleDraftEditMessage is the read and the write of an edit. */
  lemma MessageIsARun(s: State, user: nat, d: nat, text: string, resolved: Option<int>) returns (writes: seq<Step>)
    requires Enabled(s, EditText(user, d, text, resolved))
    ensures forall i :: 0 <= i < |writes| ==> writes[i] == BotWrites(user, 0)
    ensures Runs(s, [EditText(user, d, text, resolved)] + writes)
    ensures After(s, [EditText(user, d, text, resolved)] + writes).db == AfterMessage(s.db, d, text, resolved)
  {
    hide Commit;
    var s' := Apply(s, EditText(user, d, text, resolved));
    writes := FinishWriting(s', user, 0);
    NothingCommitted(Commit(s.db, Pending(s', user), 0), 0);
    assert ([EditText(user, d, text, resolved)] + writes)[1..] == writes;
  }

  function FailEach(db: Tables, ids: seq<nat>): Tables
    decreases |ids|
  {
    if ids == [] then db else FailEach(UpdateStatus(db, ids[0], Failed), ids[1..])
  }

  /** A sweep that works its whole list off. */
  lemma {:induction false} SweepRuns(s: State, w: nat) returns (steps: seq<Step>)
    requires w in s.sweeps
    ensures Runs(s, steps) && (forall i :: 0 <= i < |steps| ==> steps[i] == SweepFails(w))
    ensures After(s, steps).db == FailEach(s.db, s.sweeps[w])
    decreases |s.sweeps[w]|
  {
    hide UpdateStatus;
    if s.sweeps[w] == [] {
      steps := [];
    } else {
      var rest := SweepRuns(Apply(s, SweepFails(w)), w);
      steps := [SweepFails(w)] + rest;
      assert steps[1..] == rest;
    }
  }

  lemma {:induction false} FailEachFails(db: Tables, ids: seq<nat>)
    ensures FailEach(db, ids).products == db.products && |FailEach(db, ids).drafts| == |db.drafts|
    ensures forall d :: 0 <= d < |db.drafts| ==>
                          FailEach(db, ids).drafts[d] == if d in ids then AsFailed(db.drafts[d]) else db.drafts[d]
    decreases |ids|
  {
    if ids == [] {
    } else {
      FailEachFails(UpdateStatus(db, ids[0], Failed), ids[1..]);
      assert ids == [ids[0]] + ids[1..];
    }
  }

  /** CleanupStaleDrafts is a listing and the failing of each listed draft. */
  lemma SweepIsARun(s: State, w: nat, now: int) returns (writes: seq<Step>)
    requires Enabled(s, SweepLists(w, now))
    ensures forall i :: 0 <= i < |writes| ==> writes[i] == SweepFails(w)
    ensures Runs(s, [SweepLists(w, now)] + writes)
    ensures After(s, [SweepLists(w, now)] + writes).db == AfterSweep(s.db, now)
  {
    var s' := Apply(s, SweepLists(w, now));
    writes := SweepRuns(s', w);
    FailEachFails(s.db, StaleDrafts(s.db.drafts, now));
    assert ([SweepLists(w, now)] + writes)[1..] == writes;
    assert After(s', writes).db.drafts == AfterSweep(s.db, now).drafts;
  }

  /** The cleaner's job is the read and the guarded write, or the read and nothing. */
  lemma CleaningIsARun(s: State, c: nat, d: nat, name: string, expiresOn: Option<int>, phrase: string)
    requires Enabled(s, CleanerReads(c, d))
    ensures var steps := [CleanerReads(c, d), CleanerWrites(c, name, expiresOn, phrase)];
            Runs(s, steps) && After(s, steps).db == CleanIfReady(s.db, d, name, expiresOn, phrase)
  {
    hide CleanIfReady;
    RunOne(s, CleanerReads(c, d));
    Append(s, [CleanerReads(c, d)], CleanerWrites(c, name, expiresOn, phrase));
    assert [CleanerReads(c, d)] + [CleanerWrites(c, name, expiresOn, phrase)] ==
           [CleanerReads(c, d), CleanerWrites(c, name, expiresOn, phrase)];
  }
}
