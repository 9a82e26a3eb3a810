/** The background cleaner's job on a draft: read, judge the candidate, write under the ready guard. */
module DraftCleaning {
  import opened Wrappers
  import Text
  import C = Cleaner
  import opened DraftStore

  datatype Candidate = Candidate(name: string, expiresOn: Option<int>, phrase: string)
  {
    function Fields(): C.Fieldset {
      C.Fieldset(name, expiresOn)
    }
  }

  function FieldsOf(row: Draft): C.Fieldset {
    C.Fieldset(row.Name(), row.expiresOn)
  }

  ghost predicate Accepted(lex: C.Lexicon, row: Draft, candidate: Candidate) {
    C.Accepts(C.Judge(lex, row.status == Ready, FieldsOf(row), candidate.Fields()))
  }

  /** The row that the write leaves. */
  function Cleaned(row: Draft, candidate: Candidate): Draft {
    row.(name := EmptyToNull(candidate.name), expiresOn := candidate.expiresOn, phrase := EmptyToNull(candidate.phrase))
  }

  lemma CleanedFields(row: Draft, candidate: Candidate)
    ensures FieldsOf(Cleaned(row, candidate)) == C.Stored(candidate.Fields())
  {
  }

  /** handleCleanDraft, undisturbed; `candidate` is what the cleaner proposes for the row as read. */
  method HandleCleanDraft(store: Store, d: nat, lex: C.Lexicon, candidate: Candidate) returns (updated: bool)
    requires lex.Valid()
    modifies store
    ensures updated <==> d < |old(store.drafts)| && Accepted(lex, old(store.drafts)[d], candidate)
    ensures store.Db() ==
            if updated then WithDraft(old(store.Db()), d, Cleaned(old(store.drafts)[d], candidate)) else old(store.Db())
    ensures updated ==> C.Below(C.RankOf(lex, FieldsOf(store.drafts[d])), C.RankOf(lex, FieldsOf(old(store.drafts)[d])))
  {
    hide C.Below, C.RankOf, C.Judge, Text.Trim;
    var read := store.GetDraftSession(d);
    if read.None? {
      return false;
    }
    var draft := read.value;
    var apply, _ := C.ShouldApplyBackgroundCleaner(lex, draft.status == Ready, FieldsOf(draft), candidate.Fields());
    if draft.status != Ready {
      NotReadyIsNotAccepted(lex, draft, candidate);
      return false;
    }
    if !apply {
      return false;
    }
    updated := store.ApplyCleanerUpdateIfReady(d, candidate.name, candidate.expiresOn, candidate.phrase);
    C.AcceptedCandidateImproves(lex, FieldsOf(draft), candidate.Fields());
    C.StoringKeepsRank(lex, candidate.Fields());
    CleanedFields(draft, candidate);
  }

  lemma NotReadyIsNotAccepted(lex: C.Lexicon, row: Draft, candidate: Candidate)
    requires row.status != Ready
    ensures !Accepted(lex, row, candidate)
  {
  }

  lemma NothingToTrim()
    ensures Text.Trim("") == "" && Text.Trim("x") == "x" && Text.Trim("y") == "y"
  {
  }

  /**
   A candidate accepted against a snapshot with a date leaves a complete draft with that date, whatever
   was written between the read and the write.
   */
  lemma AcceptedOnDatedIsComplete(lex: C.Lexicon, snapshot: Draft, candidate: Candidate, db: Tables, d: nat)
    requires lex.Valid() && snapshot.expiresOn.Some? && Accepted(lex, snapshot, candidate)
    requires d < |db.drafts| && db.drafts[d].status == Ready
    ensures var row := CleanIfReady(db, d, candidate.name, candidate.expiresOn, candidate.phrase).drafts[d];
            row.Complete() && row.expiresOn == snapshot.expiresOn
  {
    C.AcceptedCandidateImproves(lex, FieldsOf(snapshot), candidate.Fields());
    Text.TrimStays(candidate.name);
  }

  /** Some accepted candidate, written over the row, leaves it incomplete. */
  ghost predicate CanUndo(lex: C.Lexicon, snapshot: Draft, db: Tables, d: nat) {
    exists candidate :: Undoes(lex, snapshot, db, d, candidate)
  }

  ghost predicate Undoes(lex: C.Lexicon, snapshot: Draft, db: Tables, d: nat, candidate: Candidate) {
    var db' := CleanIfReady(db, d, candidate.name, candidate.expiresOn, candidate.phrase);
    Accepted(lex, snapshot, candidate) && d < |db'.drafts| && !db'.drafts[d].Complete()
  }

  /**
   Whatever the row holds by now, complete or not: a cleaner can leave it incomplete exactly if the
   draft had no date when the cleaner read it.
   */
  lemma CleanerUndoesExactlyUndated(lex: C.Lexicon, snapshot: Draft, db: Tables, d: nat)
    requires lex.Valid() && snapshot.status == Ready && d < |db.drafts| && db.drafts[d].status == Ready
    ensures CanUndo(lex, snapshot, db, d) <==> snapshot.expiresOn.None?
  {
    hide Text.Trim, C.JudgeNames;
    NothingToTrim();
    if snapshot.expiresOn.Some? {
      forall candidate ensures !Undoes(lex, snapshot, db, d, candidate) {
        if Accepted(lex, snapshot, candidate) {
          AcceptedOnDatedIsComplete(lex, snapshot, candidate, db, d);
        }
      }
    } else if Text.Trim(snapshot.Name()) == "" {
      assert Undoes(lex, snapshot, db, d, Candidate("x", None, ""));
    } else {
      assert Undoes(lex, snapshot, db, d, Candidate("", Some(0), ""));
    }
  }

  // ---------- What happens to an edit made after the cleaner's read ----------

  /** The row that a cleaner's write leaves, whatever is there when it runs. */
  function Overwritten(db: Tables, d: nat, candidate: Candidate): Draft
    requires d < |db.drafts|
  {
    CleanIfReady(db, d, candidate.name, candidate.expiresOn, candidate.phrase).drafts[d]
  }

  ghost predicate ReplacesDate(lex: C.Lexicon, snapshot: Draft, db: Tables, d: nat, candidate: Candidate)
    requires d < |db.drafts|
  {
    Accepted(lex, snapshot, candidate) && Overwritten(db, d, candidate).expiresOn != db.drafts[d].expiresOn
  }

  ghost predicate ReplacesName(lex: C.Lexicon, snapshot: Draft, db: Tables, d: nat, candidate: Candidate)
    requires d < |db.drafts|
  {
    Accepted(lex, snapshot, candidate) && Overwritten(db, d, candidate).name != db.drafts[d].name
  }

  /**
   The date that the row holds by now can be lost to a cleaner that read no date. To one that did
   read a date it is lost under every accepted candidate, or under none: exactly if it is another date.
   */
  lemma EditedDateIsLost(lex: C.Lexicon, snapshot: Draft, db: Tables, d: nat)
    requires lex.Valid() && snapshot.status == Ready && d < |db.drafts| && db.drafts[d].status == Ready
    ensures snapshot.expiresOn.None? ==> exists candidate :: ReplacesDate(lex, snapshot, db, d, candidate)
    ensures snapshot.expiresOn.Some? ==>
              forall candidate | Accepted(lex, snapshot, candidate) ::
                ReplacesDate(lex, snapshot, db, d, candidate) <==> db.drafts[d].expiresOn != snapshot.expiresOn
  {
    hide Text.Trim, C.JudgeNames;
    if snapshot.expiresOn.None? {
      var other := if db.drafts[d].expiresOn == Some(0) then Some(1) else Some(0);
      assert ReplacesDate(lex, snapshot, db, d, Candidate("", other, ""));
    } else {
      forall candidate | Accepted(lex, snapshot, candidate)
        ensures ReplacesDate(lex, snapshot, db, d, candidate) <==> db.drafts[d].expiresOn != snapshot.expiresOn
      {
        AcceptedOnDatedIsComplete(lex, snapshot, candidate, db, d);
      }
    }
  }

  /** The verdict looks at a name through its trimmed form only. */
  lemma JudgeSeesTrimmed(lex: C.Lexicon, snapshot: Draft, name: string, candidate: Candidate)
    requires Text.Trim(candidate.name) == Text.Trim(name)
    ensures Accepted(lex, snapshot, candidate) <==> Accepted(lex, snapshot, candidate.(name := name))
  {
    hide Text.Trim, C.JudgeNames;
    C.TrimKeepsFreeText(candidate.name);
    C.TrimKeepsFreeText(name);
  }

  /** The rule accepts the very name that the row holds, which is trimmed text as every statement writes it. */
  ghost predicate WouldWriteName(lex: C.Lexicon, snapshot: Draft, row: Draft) {
    row.name == EmptyToNull(row.Name()) && Accepted(lex, snapshot, Candidate(row.Name(), snapshot.expiresOn, ""))
  }

  /**
   The name that the row holds by now can be lost to a cleaner that read an incomplete draft. One that
   read a complete draft replaces it under every accepted candidate exactly if the rule would not
   accept that very name.
   */
  lemma EditedNameIsLost(lex: C.Lexicon, snapshot: Draft, db: Tables, d: nat)
    requires lex.Valid() && snapshot.status == Ready && d < |db.drafts| && db.drafts[d].status == Ready
    ensures !snapshot.Complete() ==> exists candidate :: ReplacesName(lex, snapshot, db, d, candidate)
    ensures snapshot.Complete() ==>
              ((forall candidate | Accepted(lex, snapshot, candidate) :: ReplacesName(lex, snapshot, db, d, candidate))
               <==> !WouldWriteName(lex, snapshot, db.drafts[d]))
  {
    hide Text.Trim, C.JudgeNames;
    var row := db.drafts[d];
    if !snapshot.Complete() {
      NothingToTrim();
      var name := if row.name == Some("x") then "y" else "x";
      assert ReplacesName(lex, snapshot, db, d, Candidate(name, if snapshot.expiresOn.Some? then snapshot.expiresOn else Some(0), ""));
    } else {
      var kept := Candidate(row.Name(), snapshot.expiresOn, "");
      if WouldWriteName(lex, snapshot, row) {
        assert !ReplacesName(lex, snapshot, db, d, kept);
      }
      forall candidate | Accepted(lex, snapshot, candidate) && !ReplacesName(lex, snapshot, db, d, candidate)
        ensures WouldWriteName(lex, snapshot, row)
      {
        C.AcceptedCandidateImproves(lex, FieldsOf(snapshot), candidate.Fields());
        Text.TrimStays(candidate.name);
        JudgeSeesTrimmed(lex, snapshot, row.Name(), candidate);
      }
    }
  }
}
