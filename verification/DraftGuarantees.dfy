/** What the draft lifecycle guarantees over every run. */
module DraftGuarantees {
  import opened Wrappers
  import Text
  import opened DraftStore
  import opened DraftLifecycle
  import opened DraftSafety

  // ---------- Products ----------

  /**
   A draft yields at most one product more than its ingest job was run again; a confirmed one refers
   to a product made from it.
   */
  lemma AtMostOneProduct(steps: seq<Step>, d: nat)
    requires Runs(EMPTY, steps) && d < |After(EMPTY, steps).db.drafts|
    ensures var s := After(EMPTY, steps);
            && ProductCount(s, d) <= 1 + RerunCount(s, d)
            && (s.db.drafts[d].status == Confirmed ==>
                  && s.db.drafts[d].product.Some? && s.db.drafts[d].product.value < |s.db.products| == |s.madeFrom|
                  && s.madeFrom[s.db.drafts[d].product.value] == d && ProductCount(s, d) >= 1)
  {
    ReachableInv(steps);
    var s := After(EMPTY, steps);
    assert RowOk(s, d);
  }

  /** The part of a product that no later step changes. */
  function Data(p: Product): Product {
    p.(status := Active)
  }

  ghost predicate Extends(s: State, s': State) {
    && |s.db.products| <= |s'.db.products|
    && (forall p :: 0 <= p < |s.db.products| ==> Data(s'.db.products[p]) == Data(s.db.products[p]))
    && |s.db.drafts| <= |s'.db.drafts|
    && (forall d :: 0 <= d < |s.db.drafts| ==> s'.db.drafts[d].user == s.db.drafts[d].user)
    && s.madeFrom <= s'.madeFrom
  }

  lemma StepExtends(s: State, step: Step)
    requires Inv(s) && Enabled(s, step)
    ensures Extends(s, Apply(s, step))
  {
    hide Inv, Text.Trim, DecideCallback, DecideMessage, StaleDrafts;
  }

  lemma {:induction false} RunExtends(s: State, steps: seq<Step>)
    requires Inv(s) && Runs(s, steps)
    ensures Extends(s, After(s, steps))
    decreases |steps|
  {
    hide Inv, Apply, Enabled;
    if steps == [] {
    } else {
      StepExtends(s, steps[0]);
      StepKeepsInv(s, steps[0]);
      RunExtends(Apply(s, steps[0]), steps[1..]);
    }
  }

  /** The row is live and complete, and the product carries its owner, name, date, phrase and source. */
  predicate CopiedFrom(row: Draft, p: Product) {
    && row.status in {Ready, EditingName, EditingDate}
    && p.user == row.user && row.expiresOn == Some(p.expiresOn)
    && row.name == Some(p.name) && Text.Trim(p.name) != ""
    && p.phrase == row.phrase && p.source == row.source
  }

  lemma CopiesLast(row: Draft, p: Product, p': Product)
    requires CopiedFrom(row, p) && Data(p') == Data(p)
    ensures CopiedFrom(row, p')
  {
  }

  /** A step that adds a product is the confirmation of a live, complete draft, and the product is that row's copy. */
  lemma StepMakesACopy(s: State, step: Step)
    requires Inv(s) && Enabled(s, step) && |Apply(s, step).db.products| > |s.db.products|
    ensures step.BotWrites? && Pending(s, step.user).ToConfirm?
    ensures var d := Pending(s, step.user).draft;
            && d < |s.db.drafts| && |Apply(s, step).db.products| == |s.db.products| + 1
            && CopiedFrom(s.db.drafts[d], Apply(s, step).db.products[|s.db.products|])
            && Apply(s, step).db.products[|s.db.products|].status == Active
            && Apply(s, step).madeFrom == s.madeFrom + [d]
  {
    hide Text.Trim, DecideCallback, DecideMessage, StaleDrafts;
    var d := Pending(s, step.user).draft;
    assert IntentOk(s, step.user) && RowOk(s, d);
    CleanPhraseStays(s.db.drafts[d]);
  }

  /**
   Every product of every run copies the row that its confirmation locked: owner, name, expiry,
   phrase and source as they stood in the state right before the commit, where the draft was live,
   had a date and a name that is not blank.
   */
  lemma {:induction false} ProductCopiesItsLockedRow(s: State, steps: seq<Step>, p: nat) returns (k: nat)
    requires Inv(s) && Runs(s, steps) && |s.db.products| <= p < |After(s, steps).db.products|
    ensures k < |steps| && Runs(s, steps[..k]) && steps[k].BotWrites?
    ensures var before, end := After(s, steps[..k]), After(s, steps);
            && p < |end.madeFrom| && Pending(before, steps[k].user) == ToConfirm(end.madeFrom[p])
            && end.madeFrom[p] < |before.db.drafts|
            && |before.db.products| == p && CopiedFrom(before.db.drafts[end.madeFrom[p]], end.db.products[p])
    ensures Runs(s, steps[..k + 1])
    ensures var now := After(s, steps[..k + 1]);
            |now.db.products| == p + 1 && now.db.products[p].status == Active
    decreases |steps|
  {
    hide Inv, Apply, Enabled, CopiedFrom;
    assert steps != [];
    var s' := Apply(s, steps[0]);
    StepKeepsInv(s, steps[0]);
    if p < |s'.db.products| {
      StepMakesACopy(s, steps[0]);
      RunExtends(s', steps[1..]);
      SameLengths(s);
      k := 0;
      assert steps[..1] == [steps[0]] && [steps[0]][1..] == [];
      CopiesLast(s.db.drafts[Pending(s, steps[0].user).draft], s'.db.products[p], After(s, steps).db.products[p]);
    } else {
      k := ProductCopiesItsLockedRow(s', steps[1..], p);
      assert steps[..k + 1][1..] == steps[1..][..k];
      assert steps[..k + 2][1..] == steps[1..][..k + 1];
      k := k + 1;
    }
  }

  lemma SameLengths(s: State)
    requires Inv(s)
    ensures |s.madeFrom| == |s.db.products|
  {
  }

  /** In every run, a draft that is confirmed is answered with the product it refers to, without a write. */
  lemma ConfirmedDraftGivesItsProduct(steps: seq<Step>, d: nat)
    requires Runs(EMPTY, steps) && d < |After(EMPTY, steps).db.drafts| && After(EMPTY, steps).db.drafts[d].status == Confirmed
    ensures var db := After(EMPTY, steps).db;
            && Confirm(db, d) == db && db.drafts[d].product.Some? && db.drafts[d].product.value < |db.products|
            && Answer(db, d) == Made(db.drafts[d].product.value, db.products[db.drafts[d].product.value])
  {
    hide Text.Trim;
    AtMostOneProduct(steps, d);
  }

  // ---------- Closed drafts ----------

  /** Closed, and no write of the owner's bot to it is on its way. */
  predicate Settled(s: State, d: nat) {
    && d < |s.db.drafts|
    && IsTerminal(s.db.drafts[d].status)
    && !For(Pending(s, s.db.drafts[d].user), d)
  }

  /**
   The bot's own closing writes settle the draft: a confirmation that finds it live and complete, a
   cancellation, a deletion.
   */
  lemma ClosingSettles(s: State, user: nat, message: int)
    requires Inv(s) && Enabled(s, BotWrites(user, message))
    requires Pending(s, user).ToClose? || (Pending(s, user).ToConfirm? && Creates(s.db, Pending(s, user).draft))
    ensures var s', d := Apply(s, BotWrites(user, message)), Pending(s, user).draft;
            && Settled(s', d)
            && s'.db.drafts[d].status == (if Pending(s, user).ToConfirm? then Confirmed else Pending(s, user).target)
            && s'.db.drafts[d].prompt.None?
  {
    hide Text.Trim;
    assert IntentOk(s, user);
  }

  predicate Reruns(step: Step, d: nat) {
    step.Rerun? && step.draft == d
  }

  /** The draft as it was, or marked failed. */
  predicate SameOrFailed(row: Draft, row': Draft) {
    row' == row || row' == AsFailed(row)
  }

  lemma StepKeepsSettled(s: State, step: Step, d: nat)
    requires Inv(s) && Settled(s, d) && Enabled(s, step) && !Reruns(step, d)
    ensures var s' := Apply(s, step);
            Settled(s', d) && ProductCount(s', d) == ProductCount(s, d) && SameOrFailed(s.db.drafts[d], s'.db.drafts[d])
  {
    hide Text.Trim, RowOk, StaleDrafts, IntentOk;
    if step.BotWrites? {
      WriteKeepsSettled(s, step.user, step.message, d);
    } else {
      hide DecideCallback, DecideMessage, Commit;
      if step.Callback? || step.EditText? {
        ReadKeepsSettled(s, step, d);
      }
    }
  }

  lemma WriteKeepsSettled(s: State, user: nat, message: int, d: nat)
    requires Inv(s) && Settled(s, d)
    ensures var s' := Write(s, user, message);
            Settled(s', d) && ProductCount(s', d) == ProductCount(s, d) && s'.db.drafts[d] == s.db.drafts[d]
  {
    hide Text.Trim, RowOk, DecideCallback, DecideMessage, StaleDrafts;
    assert IntentOk(s, user);
    assert Pending(s, user).Nothing? || Pending(s, user).draft != d;
  }

  /** A read decides on a write only for a draft that is not closed. */
  lemma ReadKeepsSettled(s: State, step: Step, d: nat)
    requires Settled(s, d) && Enabled(s, step) && (step.Callback? || step.EditText?)
    ensures Settled(Apply(s, step), d) && Apply(s, step).db == s.db && Apply(s, step).madeFrom == s.madeFrom
  {
    hide Text.Trim, Commit, StaleDrafts;
  }

  /** What the bot closed stays closed, in every run in which the ingest job is not run again. */
  lemma ClosedStaysClosed(before: seq<Step>, user: nat, message: int, later: seq<Step>)
    requires Runs(EMPTY, before)
    requires var s := After(EMPTY, before);
             && Enabled(s, BotWrites(user, message))
             && (Pending(s, user).ToClose? || (Pending(s, user).ToConfirm? && Creates(s.db, Pending(s, user).draft)))
             && Runs(Apply(s, BotWrites(user, message)), later)
    requires forall i :: 0 <= i < |later| ==> !Reruns(later[i], Pending(After(EMPTY, before), user).draft)
    ensures var s := After(EMPTY, before);
            var d := Pending(s, user).draft;
            var s' := After(Apply(s, BotWrites(user, message)), later);
            && d < |s'.db.drafts|
            && s'.db.drafts[d].status in {if Pending(s, user).ToConfirm? then Confirmed else Pending(s, user).target, Failed}
            && s'.db.drafts[d].prompt.None?
  {
    hide Inv, Apply, Enabled, Creates;
    var s := After(EMPTY, before);
    ReachableInv(before);
    ClosingSettles(s, user, message);
    StepKeepsInv(s, BotWrites(user, message));
    SettledForEver(Apply(s, BotWrites(user, message)), later, Pending(s, user).draft);
  }

  /**
   A closed draft comes back to life, short of a re-run, exactly by an edit that its owner's bot had
   decided on before it was closed.
   */
  lemma OnlyAnEditUnderWayReopens(s: State, step: Step, d: nat)
    requires Inv(s) && Enabled(s, step) && !Reruns(step, d)
    requires d < |s.db.drafts| && IsTerminal(s.db.drafts[d].status)
    ensures IsLive(Apply(s, step).db.drafts[d].status) <==>
            step.BotWrites? && step.user == s.db.drafts[d].user && Revives(Pending(s, step.user), d)
  {
    hide Text.Trim, RowOk;
    if step.BotWrites? {
      assert IntentOk(s, step.user);
    }
  }

  // ---------- The sweep's mark ----------

  /** Some sweep has the draft still on its list. */
  ghost predicate Listed(s: State, d: nat) {
    exists w :: ListedBy(s, w, d)
  }

  predicate ListedBy(s: State, w: nat, d: nat) {
    w in s.sweeps && d in s.sweeps[w]
  }

  predicate NoRerun(steps: seq<Step>, d: nat) {
    forall i :: 0 <= i < |steps| ==> !Reruns(steps[i], d)
  }

  /** A settled draft is not stale, so no new list takes it in. */
  lemma StepKeepsUnlisted(s: State, step: Step, d: nat)
    requires Settled(s, d) && !Listed(s, d) && Enabled(s, step)
    ensures !Listed(Apply(s, step), d)
  {
    hide Text.Trim, DecideCallback, DecideMessage, Commit, Next;
    var s' := Apply(s, step);
    forall w ensures !ListedBy(s', w, d) {
      assert !ListedBy(s, w, d);
    }
  }

  lemma UnlistedStepKeepsRow(s: State, step: Step, d: nat)
    requires Inv(s) && Settled(s, d) && !Listed(s, d) && Enabled(s, step) && !Reruns(step, d)
    ensures Settled(Apply(s, step), d) && Apply(s, step).db.drafts[d] == s.db.drafts[d]
  {
    StepKeepsSettled(s, step, d);
    if step.SweepFails? {
      assert !ListedBy(s, step.sweep, d);
    } else {
      OnlySweepsFail(s, step, d);
    }
  }

  /** No step but a sweep's turns a closed draft that no write is under way to into a failed one. */
  lemma OnlySweepsFail(s: State, step: Step, d: nat)
    requires Inv(s) && Settled(s, d) && Enabled(s, step) && !Reruns(step, d) && !step.SweepFails?
    ensures Apply(s, step).db.drafts[d] == s.db.drafts[d]
  {
    hide Text.Trim, RowOk, StaleDrafts, IntentOk;
    if step.BotWrites? {
      WriteKeepsSettled(s, step.user, step.message, d);
    } else {
      hide DecideCallback, DecideMessage, Commit;
    }
  }

  /**
   A settled draft stays closed for ever unless its ingest job is run again: no later step changes it,
   save that a sweep which has it on its list may mark it failed.
   */
  lemma {:induction false} SettledForEver(s: State, steps: seq<Step>, d: nat)
    requires Inv(s) && Settled(s, d) && Runs(s, steps) && NoRerun(steps, d)
    ensures var s' := After(s, steps);
            Settled(s', d) && ProductCount(s', d) == ProductCount(s, d) && SameOrFailed(s.db.drafts[d], s'.db.drafts[d])
    ensures !Listed(s, d) ==> After(s, steps).db.drafts[d] == s.db.drafts[d]
    decreases |steps|
  {
    hide Inv, Apply, Enabled, Settled, Reruns, Listed;
    if steps == [] {
    } else {
      StepKeepsSettled(s, steps[0], d);
      if !Listed(s, d) {
        UnlistedStepKeepsRow(s, steps[0], d);
        StepKeepsUnlisted(s, steps[0], d);
      }
      StepKeepsInv(s, steps[0]);
      SettledForEver(Apply(s, steps[0]), steps[1..], d);
    }
  }

  lemma SettledExists(s: State, d: nat)
    requires Settled(s, d)
    ensures d < |s.db.drafts|
  {
  }

  /** The sweep that has the draft on its list works the list off up to it. */
  lemma {:induction false} SweepReaches(s: State, w: nat, i: nat) returns (steps: seq<Step>)
    requires w in s.sweeps && i < |s.sweeps[w]| && s.sweeps[w][i] < |s.db.drafts|
    ensures Runs(s, steps) && forall k :: 0 <= k < |steps| ==> steps[k] == SweepFails(w)
    ensures |After(s, steps).db.drafts| == |s.db.drafts| && After(s, steps).db.drafts[s.sweeps[w][i]].status == Failed
    decreases i
  {
    var s' := Apply(s, SweepFails(w));
    if i == 0 {
      steps := [SweepFails(w)];
      assert Runs(s, steps) && After(s, steps) == s' by {
        assert steps[1..] == [];
      }
    } else {
      assert s'.sweeps[w] == s.sweeps[w][1..];
      var rest := SweepReaches(s', w, i - 1);
      steps := [SweepFails(w)] + rest;
      assert steps[1..] == rest;
    }
  }

  /** Some continuation without a re-run marks the draft failed. */
  ghost predicate CanBeFailed(s: State, d: nat) {
    exists steps :: Runs(s, steps) && NoRerun(steps, d) &&
                    d < |After(s, steps).db.drafts| && After(s, steps).db.drafts[d].status == Failed
  }

  /**
   A draft that the bot closed can still be marked failed exactly if some sweep has it on its list;
   otherwise nothing but a re-run ever changes it.
   */
  lemma SweepMarksExactlyListed(s: State, d: nat)
    requires Inv(s) && Settled(s, d) && s.db.drafts[d].status != Failed
    ensures CanBeFailed(s, d) <==> Listed(s, d)
    ensures !Listed(s, d) ==>
              forall steps :: Runs(s, steps) && NoRerun(steps, d) ==>
                                d < |After(s, steps).db.drafts| && After(s, steps).db.drafts[d] == s.db.drafts[d]
  {
    hide Inv, Settled, Reruns;
    SettledExists(s, d);
    if Listed(s, d) {
      var w :| ListedBy(s, w, d);
      var i :| 0 <= i < |s.sweeps[w]| && s.sweeps[w][i] == d;
      var steps := SweepReaches(s, w, i);
      SweepsAreNoReruns(steps, w, d);
    } else {
      forall steps | Runs(s, steps) && NoRerun(steps, d)
        ensures d < |After(s, steps).db.drafts| && After(s, steps).db.drafts[d] == s.db.drafts[d]
      {
        SettledForEver(s, steps, d);
        SettledExists(After(s, steps), d);
      }
    }
  }

  lemma SweepsAreNoReruns(steps: seq<Step>, w: nat, d: nat)
    requires forall k :: 0 <= k < |steps| ==> steps[k] == SweepFails(w)
    ensures NoRerun(steps, d)
  {
  }

  /**
   Confirming again, however much later: without a re-run, a draft that was settled as confirmed is
   answered with the same product, or refused as failed once a sweep has marked it; nothing is written.
   */
  lemma ConfirmingAgainLater(s: State, steps: seq<Step>, d: nat)
    requires Inv(s) && Settled(s, d) && s.db.drafts[d].status == Confirmed
    requires Runs(s, steps) && NoRerun(steps, d)
    ensures var db, db' := s.db, After(s, steps).db;
            && Confirm(db', d) == db' && d < |db'.drafts|
            && db.drafts[d].product.Some? && db.drafts[d].product.value < |db.products| <= |db'.products|
            && (Answer(db', d) ==
                if db'.drafts[d].status == Failed then Refused(NotConfirmable)
                else Made(db.drafts[d].product.value, db'.products[db.drafts[d].product.value]))
            && Data(db'.products[db.drafts[d].product.value]) == Data(db.products[db.drafts[d].product.value])
  {
    hide Text.Trim;
    assert RowOk(s, d);
    SameLengths(s);
    SettledForEver(s, steps, d);
    hide Inv;
    RunExtends(s, steps);
  }

  // ---------- Edits ----------

  /** A name edit that nobody disturbs changes the name and nothing else of the card, and makes the draft ready. */
  lemma NameEditChangesTheName(s: State, user: nat, d: nat, text: string, resolved: Option<int>, message: int)
    requires Inv(s) && Enabled(s, EditText(user, d, text, resolved))
    requires s.db.drafts[d].status == EditingName && Text.Trim(text) != ""
    ensures Write(Apply(s, EditText(user, d, text, resolved)), user, message).db ==
            WithDraft(s.db, d, s.db.drafts[d].(name := Some(Text.Trim(text)), status := Ready, prompt := None))
  {
    hide Text.Trim;
    assert RowOk(s, d);
    Text.TrimStays(text);
    CleanPhraseStays(s.db.drafts[d]);
  }

  /** A date edit that nobody disturbs changes the date and its phrase and nothing else of the card. */
  lemma DateEditChangesTheDate(s: State, user: nat, d: nat, text: string, resolved: Option<int>, message: int)
    requires Inv(s) && Enabled(s, EditText(user, d, text, resolved))
    requires s.db.drafts[d].status == EditingDate && resolved.Some?
    ensures Write(Apply(s, EditText(user, d, text, resolved)), user, message).db ==
            WithDraft(s.db, d, s.db.drafts[d].(expiresOn := resolved, phrase := EmptyToNull(text),
                                               status := Ready, prompt := None))
  {
    hide Text.Trim;
    assert RowOk(s, d);
    CleanPhraseStays(s.db.drafts[d]);
  }

  lemma CleanPhraseStays(row: Draft)
    requires IsClean(row.name) && IsClean(row.phrase)
    ensures EmptyToNull(row.Name()) == row.name && EmptyToNull(row.Phrase()) == row.phrase
  {
  }

  // ---------- The cleaner ----------

  /**
   The cleaner's write leaves everything but name, date and phrase alone, and leaves a draft that is
   not ready alone altogether.
   */
  lemma CleanerWritesOnlyTheCard(s: State, step: Step, d: nat)
    requires Enabled(s, step) && step.CleanerWrites? && d < |s.db.drafts|
    ensures var row, row' := s.db.drafts[d], Apply(s, step).db.drafts[d];
            && row' == row.(name := row'.name, expiresOn := row'.expiresOn, phrase := row'.phrase)
            && (row.status != Ready || d != s.cleaners[step.cleaner].draft ==> row' == row)
    ensures Apply(s, step).db.products == s.db.products
  {
    hide Text.Trim;
  }

  predicate ByCleaner(step: Step) {
    step.CleanerReads? || step.CleanerWrites? || step.CleanerStops?
  }

  /** Everything but name, date and phrase. */
  function WithoutCard(row: Draft): Draft {
    row.(name := None, expiresOn := None, phrase := None)
  }

  /**
   However many cleaners work on however many drafts: statuses, prompts, product references and
   products stay, and a draft that is not ready stays as it is.
   */
  lemma {:induction false} CleanersWriteOnlyCards(s: State, steps: seq<Step>, d: nat)
    requires Runs(s, steps) && d < |s.db.drafts| && forall i :: 0 <= i < |steps| ==> ByCleaner(steps[i])
    ensures var db, db' := s.db, After(s, steps).db;
            && db'.products == db.products && |db'.drafts| == |db.drafts|
            && WithoutCard(db'.drafts[d]) == WithoutCard(db.drafts[d])
            && (db.drafts[d].status != Ready ==> db'.drafts[d] == db.drafts[d])
    decreases |steps|
  {
    hide Text.Trim;
    if steps == [] {
    } else {
      if steps[0].CleanerWrites? {
        CleanerWritesOnlyTheCard(s, steps[0], d);
      }
      CleanersWriteOnlyCards(Apply(s, steps[0]), steps[1..], d);
    }
  }
}
