/**
 One draft table shared by the bot, the background cleaner, the stale-draft sweep and ingestion.
 Each statement or transaction is one atomic step; between the read an action decides on and its
 write, steps of the other processes may come. The bot handles one update of a user at a time.
 */
module DraftLifecycle {
  import opened Wrappers
  import Text
  import opened DraftStore

  /** What a cleaner job has read: the draft and its row at that moment. */
  datatype Snapshot = Snapshot(draft: nat, row: Draft)

  /**
   `bots` holds the write each user's current update is about to make, `cleaners` the snapshot
   each cleaner job works on, `sweeps` the ids each sweep has yet to fail. `madeFrom` records for every
   product the draft it was made from, `reruns` the drafts an ingest job was run on again.
   */
  datatype State = State(db: Tables, bots: map<nat, Intent>, cleaners: map<nat, Snapshot>, sweeps: map<nat, seq<nat>>,
                         madeFrom: seq<nat>, reruns: seq<nat>)

  const EMPTY := State(Tables([], []), map[], map[], map[], [], [])

  function Pending(s: State, user: nat): Intent {
    if user in s.bots then s.bots[user] else Nothing
  }

  datatype Step =
    | Ingest(user: nat, source: string, name: string, expiresOn: Option<int>, phrase: string, now: int)
    | Rerun(draft: nat, name: string, expiresOn: Option<int>, phrase: string)   // the ingest job runs again
    | Callback(user: nat, draft: nat, action: CallbackAction)                   // the read of a callback
    | EditText(user: nat, draft: nat, text: string, resolved: Option<int>)      // the read of an edit message
    | BotWrites(user: nat, message: int)
    | BotGivesUp(user: nat)                                                     // an error, or the process ends
    | CleanerReads(cleaner: nat, draft: nat)
    | CleanerWrites(cleaner: nat, name: string, expiresOn: Option<int>, phrase: string)
    | CleanerStops(cleaner: nat)
    | SweepLists(sweep: nat, now: int)
    | SweepFails(sweep: nat)
    | SweepStops(sweep: nat)
    | MarkProduct(product: nat, status: ProductStatus)

  predicate Enabled(s: State, step: Step) {
    match step
    case Ingest(_, _, _, _, _, _) => true
    case Rerun(d, _, _, _) => d < |s.db.drafts|
    case Callback(user, d, _) => Pending(s, user).Nothing? && d < |s.db.drafts| && s.db.drafts[d].user == user
    case EditText(user, d, text, _) =>
      && Pending(s, user).Nothing? && d < |s.db.drafts| && s.db.drafts[d].user == user && text != ""
      && s.db.drafts[d].status in {EditingName, EditingDate}
    case BotWrites(user, _) => !Pending(s, user).Nothing?
    case BotGivesUp(user) => !Pending(s, user).Nothing?
    case CleanerReads(c, d) => c !in s.cleaners && d < |s.db.drafts| && s.db.drafts[d].status == Ready
    case CleanerWrites(c, _, _, _) => c in s.cleaners
    case CleanerStops(c) => c in s.cleaners
    case SweepLists(w, _) => w !in s.sweeps
    case SweepFails(w) => w in s.sweeps && s.sweeps[w] != []
    case SweepStops(w) => w in s.sweeps
    case MarkProduct(_, _) => true
  }

  function Intend(s: State, user: nat, intent: Intent): State {
    s.(bots := s.bots[user := intent])
  }

  function Write(s: State, user: nat, message: int): State {
    var intent := Pending(s, user);
    Intend(s, user, Next(intent)).(
    db := Commit(s.db, intent, message),
    madeFrom := if intent.ToConfirm? && Creates(s.db, intent.draft) then s.madeFrom + [intent.draft] else s.madeFrom)
  }

  function Apply(s: State, step: Step): State
    requires Enabled(s, step)
  {
    match step
    case Ingest(user, source, name, expiresOn, phrase, now) =>
      s.(db := CreateDraft(s.db, user, source, Ready, name, expiresOn, phrase, now))
    case Rerun(d, name, expiresOn, phrase) =>
      s.(db := UpdateFields(s.db, d, name, expiresOn, phrase, Ready), reruns := s.reruns + [d])
    case Callback(user, d, action) => Intend(s, user, DecideCallback(s.db.drafts[d], d, action))
    case EditText(user, d, text, resolved) => Intend(s, user, DecideMessage(s.db.drafts[d], d, text, resolved))
    case BotWrites(user, message) => Write(s, user, message)
    case BotGivesUp(user) => Intend(s, user, Nothing)
    case CleanerReads(c, d) => s.(cleaners := s.cleaners[c := Snapshot(d, s.db.drafts[d])])
    case CleanerWrites(c, name, expiresOn, phrase) =>
      s.(db := CleanIfReady(s.db, s.cleaners[c].draft, name, expiresOn, phrase), cleaners := s.cleaners - {c})
    case CleanerStops(c) => s.(cleaners := s.cleaners - {c})
    case SweepLists(w, now) => s.(sweeps := s.sweeps[w := StaleDrafts(s.db.drafts, now)])
    case SweepFails(w) =>
      s.(db := UpdateStatus(s.db, s.sweeps[w][0], Failed), sweeps := s.sweeps[w := s.sweeps[w][1..]])
    case SweepStops(w) => s.(sweeps := s.sweeps - {w})
    case MarkProduct(p, status) => s.(db := SetProductStatus(s.db, p, status))
  }

  predicate Runs(s: State, steps: seq<Step>)
    decreases |steps|
  {
    steps == [] || (Enabled(s, steps[0]) && Runs(Apply(s, steps[0]), steps[1..]))
  }

  function After(s: State, steps: seq<Step>): State
    requires Runs(s, steps)
    decreases |steps|
  {
    if steps == [] then s else After(Apply(s, steps[0]), steps[1..])
  }

  lemma {:induction false} Append(s: State, steps: seq<Step>, step: Step)
    requires Runs(s, steps) && Enabled(After(s, steps), step)
    ensures Runs(s, steps + [step]) && After(s, steps + [step]) == Apply(After(s, steps), step)
    decreases |steps|
  {
    hide Apply, Enabled;
    if steps == [] {
      assert [step][1..] == [];
    } else {
      assert (steps + [step])[1..] == steps[1..] + [step];
      Append(Apply(s, steps[0]), steps[1..], step);
    }
  }

  // ---------- The invariant ----------

  /** The draft a pending write is for. */
  predicate For(intent: Intent, d: nat) {
    !intent.Nothing? && intent.draft == d
  }

  /** A pending write that sets the draft's status to a live one whatever the row holds by then. */
  predicate Revives(intent: Intent, d: nat) {
    (intent.ToEdit? || intent.ToApply?) && intent.draft == d
  }

  /** Whether draft `d` can still become, or is, a product-to-be. */
  predicate Open(s: State, d: nat)
    requires d < |s.db.drafts|
  {
    IsLive(s.db.drafts[d].status) || Revives(Pending(s, s.db.drafts[d].user), d)
  }

  function ProductCount(s: State, d: nat): nat {
    multiset(s.madeFrom)[d]
  }

  function RerunCount(s: State, d: nat): nat {
    multiset(s.reruns)[d]
  }

  predicate IsClean(name: Option<string>) {
    name.Some? ==> name.value != "" && Text.Trim(name.value) == name.value
  }

  predicate RowOk(s: State, d: nat)
    requires d < |s.db.drafts|
  {
    var row := s.db.drafts[d];
    && IsClean(row.name) && IsClean(row.phrase)
    && (row.product.Some? ==> row.product.value < |s.madeFrom| && s.madeFrom[row.product.value] == d)
    && (row.status == Confirmed ==> row.product.Some?)
    && row.status != PendingInput
    && ProductCount(s, d) + (if Open(s, d) then 1 else 0) <= 1 + RerunCount(s, d)
  }

  predicate IntentOk(s: State, user: nat) {
    var intent := Pending(s, user);
    && (!intent.Nothing? ==> intent.draft < |s.db.drafts| && s.db.drafts[intent.draft].user == user)
    && (intent.ToClose? ==> intent.target == Canceled || intent.target == Deleted)
    && (intent.ToEdit? ==> intent.target == EditingName || intent.target == EditingDate)
  }

  ghost predicate Inv(s: State) {
    && |s.madeFrom| == |s.db.products|
    && (forall i :: 0 <= i < |s.madeFrom| ==> s.madeFrom[i] < |s.db.drafts|)
    && (forall i :: 0 <= i < |s.db.products| ==>
                      s.db.products[i].name != "" && Text.Trim(s.db.products[i].name) == s.db.products[i].name)
    && (forall user :: IntentOk(s, user))
    && (forall c <- s.cleaners :: s.cleaners[c].draft < |s.db.drafts| && s.cleaners[c].row.status == Ready)
    && (forall d :: 0 <= d < |s.db.drafts| ==> RowOk(s, d))
  }
}
