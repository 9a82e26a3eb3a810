/** Every step of the draft lifecycle keeps the invariant. */
module DraftSafety {
  import Text
  import opened DraftStore
  import opened DraftLifecycle

  lemma EmptyToNullIsClean(text: string)
    ensures IsClean(EmptyToNull(text))
  {
    hide Text.Trim;
    Text.TrimStays(text);
  }

  /** Statements that change at most one row, and neither products nor the logs. */
  lemma RowStepKeepsInv(s: State, s': State, d: nat, row: Draft)
    requires Inv(s) && d < |s.db.drafts|
    requires s' == s.(db := WithDraft(s.db, d, row), bots := s'.bots, cleaners := s'.cleaners, sweeps := s'.sweeps)
    requires row.user == s.db.drafts[d].user && row.product == s.db.drafts[d].product
    requires IsClean(row.name) && IsClean(row.phrase)
    requires row.status == Confirmed ==> s.db.drafts[d].status == Confirmed
    requires row.status != PendingInput
    requires forall user :: IntentOk(s', user)
    requires forall c <- s'.cleaners :: c in s.cleaners && s'.cleaners[c] == s.cleaners[c]
    requires Open(s', d) ==> Open(s, d)
    requires forall x :: 0 <= x < |s.db.drafts| && x != d ==> (Open(s', x) ==> Open(s, x))
    ensures Inv(s')
  {
    hide Open, IntentOk, IsClean;
    forall x | 0 <= x < |s'.db.drafts| ensures RowOk(s', x) {
      assert RowOk(s, x) && RowOk(s, d);
      assert ProductCount(s', x) == ProductCount(s, x) && RerunCount(s', x) == RerunCount(s, x);
      assert x == d || s'.db.drafts[x] == s.db.drafts[x];
    }
  }

  lemma IngestKeepsInv(s: State, step: Step)
    requires Inv(s) && Enabled(s, step) && step.Ingest?
    ensures Inv(Apply(s, step))
  {
    hide Text.Trim;
    EmptyToNullIsClean(step.name);
    EmptyToNullIsClean(step.phrase);
    var s' := Apply(s, step);
    var n := |s.db.drafts|;
    forall user ensures IntentOk(s', user) {
      assert IntentOk(s, user);
    }
    assert n !in s.madeFrom;
    forall x | 0 <= x < |s'.db.drafts| ensures RowOk(s', x) {
      assert x < n ==> RowOk(s, x) && s'.db.drafts[x] == s.db.drafts[x];
      assert x < n ==> Open(s', x) == Open(s, x);
    }
  }

  /** Steps that write nothing to the tables. */
  lemma QuietStepKeepsInv(s: State, s': State)
    requires Inv(s)
    requires s' == s.(bots := s'.bots, cleaners := s'.cleaners, sweeps := s'.sweeps)
    requires forall user :: IntentOk(s', user)
    requires forall c <- s'.cleaners :: c in s.cleaners && s'.cleaners[c] == s.cleaners[c]
    requires forall x :: 0 <= x < |s.db.drafts| ==> (Open(s', x) ==> Open(s, x))
    ensures Inv(s')
  {
    hide Open, IntentOk, IsClean;
    forall x | 0 <= x < |s'.db.drafts| ensures RowOk(s', x) {
      assert RowOk(s, x);
    }
  }

  /** The read of a bot action: it opens no draft that is not open already. */
  lemma ReadKeepsInv(s: State, user: nat, d: nat, intent: Intent)
    requires Inv(s) && d < |s.db.drafts| && s.db.drafts[d].user == user
    requires !intent.Nothing? ==> intent.draft == d
    requires intent.ToClose? ==> intent.target == Canceled || intent.target == Deleted
    requires intent.ToEdit? ==> intent.target == EditingName || intent.target == EditingDate
    requires intent.ToEdit? || intent.ToApply? ==> IsLive(s.db.drafts[d].status)
    ensures Inv(Intend(s, user, intent))
  {
    var s' := Intend(s, user, intent);
    forall u ensures IntentOk(s', u) {
      assert IntentOk(s, u);
    }
    QuietStepKeepsInv(s, s');
  }

  lemma CallbackKeepsInv(s: State, step: Step)
    requires Inv(s) && Enabled(s, step) && step.Callback?
    ensures Inv(Apply(s, step))
  {
    hide Inv;
    ReadKeepsInv(s, step.user, step.draft, DecideCallback(s.db.drafts[step.draft], step.draft, step.action));
  }

  lemma EditTextKeepsInv(s: State, step: Step)
    requires Inv(s) && Enabled(s, step) && step.EditText?
    ensures Inv(Apply(s, step))
  {
    hide Inv;
    ReadKeepsInv(s, step.user, step.draft, DecideMessage(s.db.drafts[step.draft], step.draft, step.text, step.resolved));
  }

  lemma GiveUpKeepsInv(s: State, step: Step)
    requires Inv(s) && Enabled(s, step) && step.BotGivesUp?
    ensures Inv(Apply(s, step))
  {
    var s' := Apply(s, step);
    forall u ensures IntentOk(s', u) {
      assert IntentOk(s, u);
    }
    QuietStepKeepsInv(s, s');
  }

  /** A bot write to one row, once the write is no longer pending. */
  lemma WriteKeepsInv(s: State, user: nat, d: nat, row: Draft)
    requires Inv(s) && d < |s.db.drafts| && For(Pending(s, user), d)
    requires row.user == s.db.drafts[d].user && row.product == s.db.drafts[d].product
    requires IsClean(row.name) && IsClean(row.phrase)
    requires row.status == Confirmed ==> s.db.drafts[d].status == Confirmed
    requires row.status != PendingInput
    requires IsLive(row.status) ==> IsLive(s.db.drafts[d].status) || Revives(Pending(s, user), d)
    ensures Inv(Intend(s, user, Next(Pending(s, user))).(db := WithDraft(s.db, d, row)))
  {
    var s' := Intend(s, user, Next(Pending(s, user))).(db := WithDraft(s.db, d, row));
    assert IntentOk(s, user);
    forall u ensures IntentOk(s', u) {
      assert IntentOk(s, u);
    }
    RowStepKeepsInv(s, s', d, row);
  }

  lemma BotWritesKeepsInv(s: State, user: nat, message: int)
    requires Inv(s) && !Pending(s, user).Nothing? && !Pending(s, user).ToConfirm?
    ensures Inv(Write(s, user, message))
  {
    hide Text.Trim, RowOk;
    var intent := Pending(s, user);
    assert IntentOk(s, user) && RowOk(s, intent.draft);
    var row := Commit(s.db, intent, message).drafts[intent.draft];
    RowIsClean(s, intent.draft);
    if intent.ToApply? {
      EmptyToNullIsClean(intent.name);
      EmptyToNullIsClean(intent.phrase);
    }
    assert Write(s, user, message) == Intend(s, user, Next(intent)).(db := WithDraft(s.db, intent.draft, row));
    WriteKeepsInv(s, user, intent.draft, row);
  }

  lemma RowIsClean(s: State, d: nat)
    requires d < |s.db.drafts| && RowOk(s, d)
    ensures IsClean(s.db.drafts[d].name) && IsClean(s.db.drafts[d].phrase)
    ensures s.db.drafts[d].status != PendingInput
  {
  }

  lemma ProductNameIsClean(s: State, d: nat)
    requires d < |s.db.drafts| && RowOk(s, d) && s.db.drafts[d].Complete()
    ensures var name := ProductOf(s.db.drafts[d]).name; name != "" && Text.Trim(name) == name
  {
  }

  /** The confirmation: the draft's one opening is spent on the product. */
  lemma ConfirmKeepsInv(s: State, user: nat, message: int)
    requires Inv(s) && Pending(s, user).ToConfirm? && Creates(s.db, Pending(s, user).draft)
    ensures Inv(Write(s, user, message))
  {
    hide Text.Trim, DecideCallback, UpdateStatus, UpdateFields, StaleDrafts;
    var d := Pending(s, user).draft;
    var s' := Write(s, user, message);
    assert IntentOk(s, user) && RowOk(s, d);
    ProductNameIsClean(s, d);
    ConfirmKeepsItsRow(s, user, message);
    forall u ensures IntentOk(s', u) {
      assert IntentOk(s, u);
    }
    hide RowOk;
    forall x | 0 <= x < |s'.db.drafts| ensures RowOk(s', x) {
      if x != d {
        ConfirmKeepsOtherRow(s, user, message, x);
      }
    }
  }

  lemma ConfirmKeepsItsRow(s: State, user: nat, message: int)
    requires Inv(s) && Pending(s, user).ToConfirm? && Creates(s.db, Pending(s, user).draft)
    ensures RowOk(Write(s, user, message), Pending(s, user).draft)
  {
    hide Text.Trim, DecideCallback, UpdateStatus, UpdateFields, StaleDrafts, IsClean;
    assert IntentOk(s, user) && RowOk(s, Pending(s, user).draft);
  }

  lemma ConfirmKeepsOtherRow(s: State, user: nat, message: int, x: nat)
    requires Inv(s) && Pending(s, user).ToConfirm? && Creates(s.db, Pending(s, user).draft)
    requires x < |s.db.drafts| && x != Pending(s, user).draft
    ensures RowOk(Write(s, user, message), x)
  {
    hide Text.Trim, DecideCallback, UpdateStatus, UpdateFields, StaleDrafts, IsClean;
    var s' := Write(s, user, message);
    assert IntentOk(s, user) && RowOk(s, x);
    assert s'.db.drafts[x] == s.db.drafts[x];
    assert Open(s', x) == Open(s, x);
  }

  lemma RefusalKeepsInv(s: State, user: nat, message: int)
    requires Inv(s) && Pending(s, user).ToConfirm? && !Creates(s.db, Pending(s, user).draft)
    ensures Inv(Write(s, user, message))
  {
    var s' := Write(s, user, message);
    forall u ensures IntentOk(s', u) {
      assert IntentOk(s, u);
    }
    QuietStepKeepsInv(s, s');
  }

  lemma RerunKeepsInv(s: State, step: Step)
    requires Inv(s) && Enabled(s, step) && step.Rerun?
    ensures Inv(Apply(s, step))
  {
    hide Text.Trim;
    var d := step.draft;
    EmptyToNullIsClean(step.name);
    EmptyToNullIsClean(step.phrase);
    var s' := Apply(s, step);
    forall u ensures IntentOk(s', u) {
      assert IntentOk(s, u);
    }
    forall x | 0 <= x < |s'.db.drafts| ensures RowOk(s', x) {
      assert RowOk(s, x);
      assert x != d ==> s'.db.drafts[x] == s.db.drafts[x];
      assert x != d ==> Open(s', x) == Open(s, x);
    }
  }

  /** The writes of the cleaner and of the sweep. */
  lemma BackgroundKeepsInv(s: State, step: Step)
    requires Inv(s) && Enabled(s, step) && (step.CleanerWrites? || step.SweepFails?)
    ensures Inv(Apply(s, step))
  {
    hide Text.Trim;
    var s' := Apply(s, step);
    forall u ensures IntentOk(s', u) {
      assert IntentOk(s, u);
    }
    var d := if step.CleanerWrites? then s.cleaners[step.cleaner].draft else s.sweeps[step.sweep][0];
    if s'.db == s.db {
      QuietStepKeepsInv(s, s');
    } else {
      assert RowOk(s, d);
      if step.CleanerWrites? {
        EmptyToNullIsClean(step.name);
        EmptyToNullIsClean(step.phrase);
      }
      RowStepKeepsInv(s, s', d, s'.db.drafts[d]);
    }
  }

  lemma OtherKeepsInv(s: State, step: Step)
    requires Inv(s) && Enabled(s, step)
    requires step.CleanerReads? || step.CleanerStops? || step.SweepLists? || step.SweepStops? || step.MarkProduct?
    ensures Inv(Apply(s, step))
  {
    hide Text.Trim, StaleDrafts, DecideCallback, DecideMessage, Commit, UpdateStatus, CleanIfReady, CreateDraft, IsClean;
    var s' := Apply(s, step);
    forall u ensures IntentOk(s', u) {
      assert IntentOk(s, u);
    }
    forall x | 0 <= x < |s'.db.drafts| ensures RowOk(s', x) {
      assert RowOk(s, x);
    }
  }

  lemma StepKeepsInv(s: State, step: Step)
    requires Inv(s) && Enabled(s, step)
    ensures Inv(Apply(s, step))
  {
    hide Inv, Commit, CreateDraft, UpdateFields, UpdateStatus, CleanIfReady, SetProductStatus, StaleDrafts;
    hide DecideCallback, DecideMessage;
    match step
    case Ingest(_, _, _, _, _, _) => IngestKeepsInv(s, step);
    case Rerun(_, _, _, _) => RerunKeepsInv(s, step);
    case Callback(_, _, _) => CallbackKeepsInv(s, step);
    case EditText(_, _, _, _) => EditTextKeepsInv(s, step);
    case BotWrites(user, message) =>
      if !Pending(s, user).ToConfirm? {
        BotWritesKeepsInv(s, user, message);
      } else if Creates(s.db, Pending(s, user).draft) {
        ConfirmKeepsInv(s, user, message);
      } else {
        RefusalKeepsInv(s, user, message);
      }
    case BotGivesUp(_) => GiveUpKeepsInv(s, step);
    case CleanerWrites(_, _, _, _) => BackgroundKeepsInv(s, step);
    case SweepFails(_) => BackgroundKeepsInv(s, step);
    case _ => OtherKeepsInv(s, step);
  }

  lemma {:induction false} RunKeepsInv(s: State, steps: seq<Step>)
    requires Inv(s) && Runs(s, steps)
    ensures Inv(After(s, steps))
    decreases |steps|
  {
    hide Inv, Apply, Enabled;
    if steps == [] {
    } else {
      StepKeepsInv(s, steps[0]);
      RunKeepsInv(Apply(s, steps[0]), steps[1..]);
    }
  }

  lemma ReachableInv(steps: seq<Step>)
    requires Runs(EMPTY, steps)
    ensures Inv(After(EMPTY, steps))
  {
    RunKeepsInv(EMPTY, steps);
  }
}
