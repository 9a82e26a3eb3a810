/** Runs of the draft lifecycle that show where its guarantees end. */
module DraftScenarios {
  import opened Wrappers
  import Text
  import C = Cleaner
  import opened DraftStore
  import opened DraftCleaning
  import opened DraftLifecycle

  /** A draft as ingestion leaves it, alone in the tables. */
  function Fresh(name: string, expiresOn: Option<int>): Draft {
    Draft(1, "", Ready, Some(name), expiresOn, None, None, None, 0)
  }

  lemma IngestFirst(name: string, expiresOn: Option<int>) returns (steps: seq<Step>)
    requires IsClean(Some(name))
    ensures Runs(EMPTY, steps) && RerunCount(After(EMPTY, steps), 0) == 0
    ensures After(EMPTY, steps) == EMPTY.(db := Tables([Fresh(name, expiresOn)], []))
  {
    steps := [Ingest(1, "", name, expiresOn, "", 0)];
    Append(EMPTY, [], steps[0]);
  }

  /** Reads and writes one action of user 1 to draft 0. */
  lemma Act(before: seq<Step>, read: Step, message: int) returns (steps: seq<Step>)
    requires Runs(EMPTY, before) && Enabled(After(EMPTY, before), read)
    requires (read.Callback? || read.EditText?) && read.user == 1 && !Pending(Apply(After(EMPTY, before), read), 1).Nothing?
    ensures Runs(EMPTY, steps)
    ensures After(EMPTY, steps) == Write(Apply(After(EMPTY, before), read), 1, message)
  {
    hide Apply, Write;
    Append(EMPTY, before, read);
    steps := before + [read];
    Append(EMPTY, steps, BotWrites(1, message));
    steps := steps + [BotWrites(1, message)];
    WriteIsApplied(After(EMPTY, before + [read]), 1, message);
  }

  lemma WriteIsApplied(s: State, user: nat, message: int)
    requires Enabled(s, BotWrites(user, message))
    ensures Apply(s, BotWrites(user, message)) == Write(s, user, message)
  {
  }

  /** Draft 0 of user 1, complete and confirmed after `n` re-runs, each with a product of its own. */
  predicate HasProducts(s: State, n: nat) {
    && |s.db.drafts| == 1 && s.db.drafts[0].user == 1 && s.db.drafts[0].status == Confirmed
    && Pending(s, 1) == Nothing
    && |s.madeFrom| == n + 1 && ProductCount(s, 0) == n + 1 && RerunCount(s, 0) == n
  }

  /** One confirmation of the draft while it is ready and complete. */
  lemma ConfirmReady(before: seq<Step>, name: string, expiresOn: int, n: nat) returns (steps: seq<Step>)
    requires IsClean(Some(name)) && Runs(EMPTY, before)
    requires var s := After(EMPTY, before);
             && |s.db.drafts| == 1 && s.db.drafts[0].user == 1 && s.db.drafts[0].status == Ready
             && s.db.drafts[0].name == Some(name) && s.db.drafts[0].expiresOn == Some(expiresOn)
             && Pending(s, 1) == Nothing && |s.madeFrom| == n && ProductCount(s, 0) == n && RerunCount(s, 0) == n
    ensures Runs(EMPTY, steps) && HasProducts(After(EMPTY, steps), n)
  {
    hide Text.Trim;
    steps := Act(before, Callback(1, 0, DoConfirm), 0);
    assert After(EMPTY, steps).madeFrom == After(EMPTY, before).madeFrom + [0];
  }

  /** The bound of AtMostOneProduct is met for every number of re-runs: `n` of them can give n + 1 products. */
  lemma {:induction false} RerunsMakeProducts(name: string, expiresOn: int, n: nat) returns (steps: seq<Step>)
    requires IsClean(Some(name))
    ensures Runs(EMPTY, steps) && HasProducts(After(EMPTY, steps), n)
  {
    hide Text.Trim;
    if n == 0 {
      steps := IngestFirst(name, Some(expiresOn));
      hide HasProducts;
      steps := ConfirmReady(steps, name, expiresOn, 0);
    } else {
      steps := RerunsMakeProducts(name, expiresOn, n - 1);
      steps := RunAgain(steps, name, expiresOn, n);
      hide HasProducts;
      steps := ConfirmReady(steps, name, expiresOn, n);
    }
  }

  lemma RunAgain(before: seq<Step>, name: string, expiresOn: int, n: nat) returns (steps: seq<Step>)
    requires IsClean(Some(name)) && n > 0 && Runs(EMPTY, before) && HasProducts(After(EMPTY, before), n - 1)
    ensures Runs(EMPTY, steps)
    ensures var s := After(EMPTY, steps);
            && |s.db.drafts| == 1 && s.db.drafts[0].user == 1 && s.db.drafts[0].status == Ready
            && s.db.drafts[0].name == Some(name) && s.db.drafts[0].expiresOn == Some(expiresOn)
            && Pending(s, 1) == Nothing && |s.madeFrom| == n && ProductCount(s, 0) == n && RerunCount(s, 0) == n
  {
    hide Text.Trim;
    var s := After(EMPTY, before);
    Append(EMPTY, before, Rerun(0, name, Some(expiresOn), ""));
    steps := before + [Rerun(0, name, Some(expiresOn), "")];
    assert multiset(s.reruns + [0]) == multiset(s.reruns) + multiset{0};
  }

  function EditStatus(action: CallbackAction): DraftStatus {
    if action == DoEditName then EditingName else EditingDate
  }

  lemma EditIsDecided(s: State, row: Draft, action: CallbackAction)
    requires (action == DoEditName || action == DoEditDate) && Pending(s, 1) == Nothing
    requires s.db == Tables([row], []) && row.user == 1 && row.status == Ready
    ensures Enabled(s, Callback(1, 0, action))
    ensures Apply(s, Callback(1, 0, action)) == Intend(s, 1, ToEdit(0, EditStatus(action)))
  {
  }

  lemma EditIsEntered(s: State, row: Draft, target: DraftStatus, message: int)
    requires s.db == Tables([row], []) && row.prompt.None? && (target == EditingName || target == EditingDate)
    ensures Write(Intend(s, 1, ToEdit(0, target)), 1, message) ==
            Intend(s, 1, ToPrompt(0)).(db := Tables([row.(status := target)], []))
  {
    assert [row][0 := row.(status := target)] == [row.(status := target)];
  }

  lemma PromptIsStored(s: State, row: Draft, message: int)
    requires s.db == Tables([row], []) && Pending(s, 1) == ToPrompt(0)
    ensures Enabled(s, BotWrites(1, message))
    ensures Apply(s, BotWrites(1, message)) == Intend(s, 1, Nothing).(db := Tables([row.(prompt := Some(message))], []))
  {
    assert [row][0 := row.(prompt := Some(message))] == [row.(prompt := Some(message))];
  }

  /** A ready draft, brought into editing, its prompt sent. */
  lemma BeginEdit(before: seq<Step>, row: Draft, action: CallbackAction, message: int) returns (steps: seq<Step>)
    requires action == DoEditName || action == DoEditDate
    requires Runs(EMPTY, before) && Pending(After(EMPTY, before), 1) == Nothing
    requires After(EMPTY, before).db == Tables([row], []) && row.user == 1 && row.status == Ready && row.prompt.None?
    ensures Runs(EMPTY, steps)
    ensures var s, s' := After(EMPTY, before), After(EMPTY, steps);
            s' == Intend(s, 1, Nothing).(db := Tables([row.(status := EditStatus(action), prompt := Some(message))], []))
  {
    hide Apply, Enabled, Write;
    var s, target := After(EMPTY, before), EditStatus(action);
    EditIsDecided(s, row, action);
    steps := Act(before, Callback(1, 0, action), message);
    EditIsEntered(s, row, target, message);
    PromptIsStored(After(EMPTY, steps), row.(status := target), message);
    Append(EMPTY, steps, BotWrites(1, message));
    steps := steps + [BotWrites(1, message)];
  }

  lemma OneStaleDraft(row: Draft)
    requires IsLive(row.status) && row.createdAt == 0
    ensures StaleDrafts([row], 12 * 3600) == [0]
  {
    assert [row][..0] == [];
    assert IsStale([row][0], 12 * 3600);
  }

  /** A sweep fails a draft while an edit of it is under way; the edit makes it ready again, without a re-run. */
  lemma AnEditRevivesAFailedDraft(name: string, edited: string, message: int) returns (failed: seq<Step>)
    requires IsClean(Some(name)) && IsClean(Some(edited))
    ensures Runs(EMPTY, failed)
    ensures var s := After(EMPTY, failed);
            && RerunCount(s, 0) == 0 && Enabled(s, BotWrites(1, message))
            && |s.db.drafts| == 1 && s.db.drafts[0].status == Failed
            && var s' := Write(s, 1, message); |s'.db.drafts| == 1 && s'.db.drafts[0].status == Ready
  {
    hide Text.Trim, StaleDrafts, DecideCallback, CreateDraft, CleanIfReady, ReusesPrompt, Creates, Confirm;
    failed := IngestFirst(name, None);
    failed := BeginEdit(failed, Fresh(name, None), DoEditName, message);
    Append(EMPTY, failed, EditText(1, 0, edited, None));
    failed := failed + [EditText(1, 0, edited, None)];
    Append(EMPTY, failed, SweepLists(0, 12 * 3600));
    failed := failed + [SweepLists(0, 12 * 3600)];
    OneStaleDraft(Fresh(name, None).(status := EditingName, prompt := Some(message)));
    Append(EMPTY, failed, SweepFails(0));
    failed := failed + [SweepFails(0)];
  }

  /** A date is always an improvement of an undated draft, even without a name. */
  lemma ADateIsAccepted(lex: C.Lexicon, row: Draft)
    requires row.status == Ready && row.name.Some? && IsClean(row.name) && row.expiresOn.None?
    ensures Accepted(lex, row, Candidate("", Some(0), ""))
  {
    hide Text.Trim, C.JudgeNames;
    NothingToTrim();
  }

  lemma SnapshotIsTaken(s: State, row: Draft)
    requires s.db == Tables([row], []) && row.status == Ready && s.cleaners == map[]
    ensures Enabled(s, CleanerReads(0, 0))
    ensures Apply(s, CleanerReads(0, 0)) == s.(cleaners := map[0 := Snapshot(0, row)])
  {
  }

  /** The row of the fresh draft after a date edit. */
  function Dated(name: string, text: string, day: int): Draft {
    Fresh(name, Some(day)).(phrase := EmptyToNull(text))
  }

  lemma DateIsEdited(s: State, row: Draft, text: string, day: int, message: int)
    requires s.db == Tables([row], []) && Pending(s, 1) == Nothing && row.user == 1 && text != ""
    requires row.status == EditingDate && row.name.Some? && IsClean(row.name)
    ensures Enabled(s, EditText(1, 0, text, Some(day)))
    ensures !Pending(Apply(s, EditText(1, 0, text, Some(day))), 1).Nothing?
    ensures var s' := Write(Apply(s, EditText(1, 0, text, Some(day))), 1, message);
            && s'.cleaners == s.cleaners && s'.reruns == s.reruns
            && s'.db == Tables([row.(expiresOn := Some(day), phrase := EmptyToNull(text), status := Ready, prompt := None)], [])
  {
    hide Text.Trim;
    var row' := row.(expiresOn := Some(day), phrase := EmptyToNull(text), status := Ready, prompt := None);
    assert [row][0 := row'] == [row'];
  }

  lemma WriteUndoes(s: State, row: Draft)
    requires s.db == Tables([row], []) && row.Complete() && row.status == Ready
    requires 0 in s.cleaners && s.cleaners[0].draft == 0
    ensures Enabled(s, CleanerWrites(0, "", Some(0), ""))
    ensures var db := Apply(s, CleanerWrites(0, "", Some(0), "")).db; |db.drafts| == 1 && !db.drafts[0].Complete()
  {
    hide Text.Trim;
    NothingToTrim();
  }

  /**
   A cleaner that read the draft before the user dated it brings a date of its own and no name. Under
   every lexicon the rule accepts that against what was read, and the write makes the draft, complete
   by then, incomplete again.
   */
  lemma TheCleanerUndoesAnEdit(lex: C.Lexicon, name: string, text: string, day: int, message: int) returns (edited: seq<Step>)
    requires IsClean(Some(name)) && text != ""
    ensures Runs(EMPTY, edited) && RerunCount(After(EMPTY, edited), 0) == 0
    ensures var s := After(EMPTY, edited);
            && |s.db.drafts| == 1 && s.db.drafts[0].expiresOn == Some(day) && s.db.drafts[0].Complete()
            && 0 in s.cleaners && Accepted(lex, s.cleaners[0].row, Candidate("", Some(0), ""))
            && Enabled(s, CleanerWrites(0, "", Some(0), ""))
            && !Apply(s, CleanerWrites(0, "", Some(0), "")).db.drafts[0].Complete()
  {
    hide Apply, Enabled, Accepted, Write, Text.Trim;
    ADateIsAccepted(lex, Fresh(name, None));
    edited := IngestFirst(name, None);
    SnapshotIsTaken(After(EMPTY, edited), Fresh(name, None));
    Append(EMPTY, edited, CleanerReads(0, 0));
    edited := edited + [CleanerReads(0, 0)];
    edited := BeginEdit(edited, Fresh(name, None), DoEditDate, message);
    DateIsEdited(After(EMPTY, edited), Fresh(name, None).(status := EditingDate, prompt := Some(message)), text, day, message);
    edited := Act(edited, EditText(1, 0, text, Some(day)), message);
    WriteUndoes(After(EMPTY, edited), Dated(name, text, day));
  }

  /** A sweep that listed the draft before its confirmation marks it failed, although its product exists. */
  lemma ASweepFailsAConfirmedDraft(name: string, expiresOn: int) returns (steps: seq<Step>)
    requires IsClean(Some(name))
    ensures Runs(EMPTY, steps) && RerunCount(After(EMPTY, steps), 0) == 0
    ensures var s := After(EMPTY, steps);
            && |s.db.drafts| == 1 && s.db.drafts[0].status == Failed && s.db.drafts[0].product == Some(0)
            && ProductCount(s, 0) == 1
  {
    hide Text.Trim;
    steps := IngestFirst(name, Some(expiresOn));
    Append(EMPTY, steps, SweepLists(0, 12 * 3600));
    steps := steps + [SweepLists(0, 12 * 3600)];
    OneStaleDraft(Fresh(name, Some(expiresOn)));
    steps := Act(steps, Callback(1, 0, DoConfirm), 0);
    Append(EMPTY, steps, SweepFails(0));
    steps := steps + [SweepFails(0)];
  }
}
