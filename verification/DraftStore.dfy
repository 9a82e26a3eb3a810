/**
 The rows of a draft and of the products made from drafts: the SQL statements and the one
 transaction that touch them, and the bot, cleaner and sweep actions built on them. Ids are
 positions in creation order; no statement of this model deletes a row.
 */
module DraftStore {
  import opened Wrappers
  import Text

  datatype DraftStatus = PendingInput | Ready | EditingName | EditingDate | Confirmed | Canceled | Deleted | Failed

  datatype ProductStatus = Active | Consumed | Discarded | Removed

  /** Days count as integers; a column that may be NULL is an Option. */
  datatype Draft = Draft(user: nat, source: string, status: DraftStatus, name: Option<string>, expiresOn: Option<int>,
                         phrase: Option<string>, prompt: Option<int>, product: Option<nat>, createdAt: int)
  {
    /** What a read of the row delivers for the name: NULL reads as the empty text. */
    function Name(): string {
      if name.Some? then name.value else ""
    }

    function Phrase(): string {
      if phrase.Some? then phrase.value else ""
    }

    predicate Complete() {
      expiresOn.Some? && Text.Trim(Name()) != ""
    }
  }

  datatype Product = Product(user: nat, name: string, expiresOn: int, phrase: Option<string>, source: string,
                             status: ProductStatus)

  datatype Tables = Tables(drafts: seq<Draft>, products: seq<Product>)

  // ---------- Statements ----------

  function EmptyToNull(text: string): Option<string> {
    var trimmed := Text.Trim(text);
    if trimmed == "" then None else Some(trimmed)
  }

  function WithDraft(db: Tables, d: nat, row: Draft): Tables
    requires d < |db.drafts|
  {
    db.(drafts := db.drafts[d := row])
  }

  /** INSERT of a draft; the new row's id is |db.drafts|. */
  function CreateDraft(db: Tables, user: nat, source: string, status: DraftStatus, name: string,
                       expiresOn: Option<int>, phrase: string, now: int): Tables
  {
    db.(drafts := db.drafts +
        [Draft(user, source, status, EmptyToNull(name), expiresOn, EmptyToNull(phrase), None, None, now)])
  }

  function UpdateStatus(db: Tables, d: nat, status: DraftStatus): Tables {
    if d >= |db.drafts| then db
    else
      var row := db.drafts[d];
      var prompt := if status in {Ready, Confirmed, Canceled, Deleted, Failed} then None else row.prompt;
      WithDraft(db, d, row.(status := status, prompt := prompt))
  }

  function UpdateFields(db: Tables, d: nat, name: string, expiresOn: Option<int>, phrase: string, status: DraftStatus): Tables
  {
    if d >= |db.drafts| then db
    else
      var row := db.drafts[d];
      var prompt := if status == Ready then None else row.prompt;
      WithDraft(db, d, row.(name := EmptyToNull(name), expiresOn := expiresOn, phrase := EmptyToNull(phrase),
                            status := status, prompt := prompt))
  }

  function SetPrompt(db: Tables, d: nat, message: Option<int>): Tables {
    if d >= |db.drafts| then db else WithDraft(db, d, db.drafts[d].(prompt := message))
  }

  /** The cleaner's write: only a row that is ready when the statement runs is touched. */
  function CleanIfReady(db: Tables, d: nat, name: string, expiresOn: Option<int>, phrase: string): Tables {
    if d >= |db.drafts| || db.drafts[d].status != Ready then db
    else WithDraft(db, d, db.drafts[d].(name := EmptyToNull(name), expiresOn := expiresOn, phrase := EmptyToNull(phrase)))
  }

  function SetProductStatus(db: Tables, p: nat, status: ProductStatus): Tables {
    if p >= |db.products| then db else db.(products := db.products[p := db.products[p].(status := status)])
  }

  predicate IsLive(status: DraftStatus) {
    status in {Ready, EditingName, EditingDate}
  }

  function AsFailed(row: Draft): Draft {
    row.(status := Failed, prompt := None)
  }

  predicate IsStale(row: Draft, now: int) {
    IsLive(row.status) && row.createdAt <= now - 12 * 3600
  }

  /** In seconds. */
  const TWELVE_HOURS: int := 43200

  /**
   ListStaleDraftSessions orders by creation time; the sweep's effect does not depend on the order,
   so ids stand in.
   */
  function StaleDrafts(drafts: seq<Draft>, now: int): (ids: seq<nat>)
    ensures forall d: nat :: d in ids <==> d < |drafts| && IsStale(drafts[d], now)
  {
    if drafts == [] then []
    else
      var last: nat := |drafts| - 1;
      var before := StaleDrafts(drafts[..last], now);
      if IsStale(drafts[last], now) then before + [last] else before
  }

  datatype Confirmation = Made(id: nat, product: Product) | Refused(reason: Refusal)
  datatype Refusal = NoDraft | NoReference | NoProduct | NotConfirmable | Incomplete

  function ProductOf(row: Draft): Product
    requires row.Complete()
  {
    Product(row.user, row.Name(), row.expiresOn.value, EmptyToNull(row.Phrase()), row.source, Active)
  }

  /** An active product with the id and with the owner, name, date, phrase and source of the row. */
  predicate IsFreshCopy(r: Confirmation, row: Draft, id: nat) {
    && r.Made? && r.id == id && r.product.status == Active
    && r.product.user == row.user && r.product.name == row.Name() && Some(r.product.expiresOn) == row.expiresOn
    && (if r.product.phrase.Some? then r.product.phrase.value else "") == Text.Trim(row.Phrase())
    && r.product.phrase != Some("") && r.product.source == row.source
  }

  /** The columns of a row other than name, date and phrase. */
  function Rest(row: Draft): Draft {
    row.(name := None, expiresOn := None, phrase := None)
  }

  /** What the confirmation transaction answers, from the locked row. */
  function Answer(db: Tables, d: nat): Confirmation {
    if d >= |db.drafts| then Refused(NoDraft)
    else
      var row := db.drafts[d];
      if row.status == Confirmed then
        if row.product.None? then Refused(NoReference)
        else if row.product.value >= |db.products| then Refused(NoProduct)
        else Made(row.product.value, db.products[row.product.value])
      else if !IsLive(row.status) then Refused(NotConfirmable)
      else if !row.Complete() then Refused(Incomplete)
      else Made(|db.products|, ProductOf(row))
  }

  /** Whether the transaction inserts a product. */
  predicate Creates(db: Tables, d: nat) {
    d < |db.drafts| && IsLive(db.drafts[d].status) && db.drafts[d].Complete()
  }

  function Confirm(db: Tables, d: nat): Tables {
    if !Creates(db, d) then db
    else
      var row := db.drafts[d];
      WithDraft(db, d, row.(status := Confirmed, product := Some(|db.products|), prompt := None)).(
      products := db.products + [ProductOf(row)])
  }

  // ---------- Transitions of the bot ----------

  predicate IsTerminal(status: DraftStatus) {
    status in {Confirmed, Canceled, Deleted, Failed}
  }

  function EnterEditTransition(current: DraftStatus, target: DraftStatus): Option<DraftStatus> {
    if target != EditingName && target != EditingDate then None
    else if IsLive(current) then Some(target)
    else None
  }

  function ApplyEditTransition(current: DraftStatus): Option<DraftStatus> {
    if current == EditingName || current == EditingDate then Some(Ready) else None
  }

  function ConfirmTransition(current: DraftStatus): Option<DraftStatus> {
    if current == Ready then Some(Confirmed) else None
  }

  function CloseTransition(current: DraftStatus, target: DraftStatus): Option<DraftStatus> {
    if target != Canceled && target != Deleted then None
    else if IsTerminal(current) then None
    else Some(target)
  }

  // ---------- Actions: one read, then one write ----------

  datatype CallbackAction = DoConfirm | DoCancel | DoDelete | DoEditName | DoEditDate | Unknown

  /** The write that an action has decided on from the row it read, and has not made yet. */
  datatype Intent =
    | Nothing
    | ToConfirm(draft: nat)
    | ToClose(draft: nat, target: DraftStatus)
    | ToEdit(draft: nat, target: DraftStatus)
    | ToPrompt(draft: nat)   // the edit prompt is sent, its message id not yet stored
    | ToApply(draft: nat, name: string, expiresOn: Option<int>, phrase: string)

  predicate ReusesPrompt(row: Draft, target: DraftStatus) {
    row.status == target && row.prompt.Some?
  }

  function DecideClose(row: Draft, d: nat, target: DraftStatus): Intent {
    if CloseTransition(row.status, target).Some? then ToClose(d, target) else Nothing
  }

  function DecideEdit(row: Draft, d: nat, target: DraftStatus): Intent {
    if ReusesPrompt(row, target) then Nothing
    else if EnterEditTransition(row.status, target).Some? then ToEdit(d, target)
    else Nothing
  }

  /** handleDraftCallback up to its write. */
  function DecideCallback(row: Draft, d: nat, action: CallbackAction): Intent {
    if IsTerminal(row.status) then Nothing
    else
      match action
      case DoConfirm => if row.Complete() && ConfirmTransition(row.status).Some? then ToConfirm(d) else Nothing
      case DoCancel => DecideClose(row, d, Canceled)
      case DoDelete => DecideClose(row, d, Deleted)
      case DoEditName => DecideEdit(row, d, EditingName)
      case DoEditDate => DecideEdit(row, d, EditingDate)
      case Unknown => Nothing
  }

  /** handleDraftEditMessage up to its write; `resolved` is what the date resolver makes of the text. */
  function DecideMessage(row: Draft, d: nat, text: string, resolved: Option<int>): Intent {
    match row.status
    case EditingName => if Text.Trim(text) == "" then Nothing else ToApply(d, Text.Trim(text), row.expiresOn, row.Phrase())
    case EditingDate => if resolved.None? then Nothing else ToApply(d, row.Name(), resolved, text)
    case _ => Nothing
  }

  /** The write; `message` is the id of the prompt sent in between. */
  function Commit(db: Tables, intent: Intent, message: int): Tables {
    match intent
    case Nothing => db
    case ToConfirm(d) => Confirm(db, d)
    case ToClose(d, target) => UpdateStatus(db, d, target)
    case ToEdit(d, target) => UpdateStatus(db, d, target)
    case ToPrompt(d) => SetPrompt(db, d, Some(message))
    case ToApply(d, name, expiresOn, phrase) => UpdateFields(db, d, name, expiresOn, phrase, Ready)
  }

  function Next(intent: Intent): Intent {
    if intent.ToEdit? then ToPrompt(intent.draft) else Nothing
  }

  /** The tables after an undisturbed callback. */
  function AfterCallback(db: Tables, d: nat, action: CallbackAction, message: int): Tables {
    var intent := if d < |db.drafts| then DecideCallback(db.drafts[d], d, action) else Nothing;
    Commit(Commit(db, intent, message), Next(intent), message)
  }

  /** The tables after an undisturbed edit message. */
  function AfterMessage(db: Tables, d: nat, text: string, resolved: Option<int>): Tables {
    Commit(db, if d < |db.drafts| then DecideMessage(db.drafts[d], d, text, resolved) else Nothing, 0)
  }

  function AfterSweep(db: Tables, now: int): Tables {
    db.(drafts := seq(|db.drafts|, d requires 0 <= d < |db.drafts| =>
      if IsStale(db.drafts[d], now) then AsFailed(db.drafts[d]) else db.drafts[d]))
  }

  /** Ready, with a date and a name that is not blank. */
  predicate IsConfirmable(row: Draft) {
    row.status == Ready && row.expiresOn.Some? && Text.Trim(row.Name()) != ""
  }

  /**
   What a callback leaves of its draft: confirm, cancel and delete set their status and clear the
   prompt, the two edits set theirs and the new prompt's message, unless that very edit has its
   prompt already. A closed draft stays as it is.
   */
  predicate IsCallbackResult(row: Draft, action: CallbackAction, message: int, nextProduct: nat, now: Draft) {
    if row.status in {Confirmed, Canceled, Deleted, Failed} then now == row
    else
      match action
      case DoConfirm =>
        now == if IsConfirmable(row) then row.(status := Confirmed, prompt := None, product := Some(nextProduct)) else row
      case DoCancel => now == row.(status := Canceled, prompt := None)
      case DoDelete => now == row.(status := Deleted, prompt := None)
      case DoEditName =>
        now == if row.status == PendingInput || (row.status == EditingName && row.prompt.Some?) then row
               else row.(status := EditingName, prompt := Some(message))
      case DoEditDate =>
        now == if row.status == PendingInput || (row.status == EditingDate && row.prompt.Some?) then row
               else row.(status := EditingDate, prompt := Some(message))
      case Unknown => now == row
  }

  /**
   What a text message leaves of a draft: in editing the name, a text that is not blank becomes the
   name; in editing the date, a date that was resolved becomes the date and the text its phrase. The
   draft is then ready, with no prompt.
   */
  predicate IsEditResult(row: Draft, text: string, resolved: Option<int>, now: Draft) {
    if row.status == EditingName && Text.Trim(text) != "" then
      && now.Name() == Text.Trim(text) && now.expiresOn == row.expiresOn && now.Phrase() == Text.Trim(row.Phrase())
      && Rest(now) == Rest(row).(status := Ready, prompt := None)
    else if row.status == EditingDate && resolved.Some? then
      && now.expiresOn == resolved && now.Phrase() == Text.Trim(text) && now.Name() == Text.Trim(row.Name())
      && Rest(now) == Rest(row).(status := Ready, prompt := None)
    else now == row
  }

  // ---------- The store ----------

  class Store {
    var drafts: seq<Draft>
    var products: seq<Product>

    constructor ()
      ensures Db() == Tables([], [])
    {
      drafts, products := [], [];
    }

    ghost function Db(): Tables
      reads this
    {
      Tables(drafts, products)
    }

    method CreateDraftSession(user: nat, source: string, status: DraftStatus, name: string,
                              expiresOn: Option<int>, phrase: string, now: int)
      returns (d: nat)
      modifies this
      ensures |drafts| == d + 1 && drafts[..d] == old(drafts) && products == old(products)
      ensures drafts[d].Name() == Text.Trim(name) && drafts[d].Phrase() == Text.Trim(phrase)
      ensures drafts[d].user == user && drafts[d].source == source && drafts[d].status == status
      ensures drafts[d].expiresOn == expiresOn && drafts[d].createdAt == now
      ensures drafts[d].prompt.None? && drafts[d].product.None?
      ensures Db() == CreateDraft(old(Db()), user, source, status, name, expiresOn, phrase, now)
    {
      d := |drafts|;
      drafts := drafts + [Draft(user, source, status, EmptyToNull(name), expiresOn, EmptyToNull(phrase), None, None, now)];
    }

    method GetDraftSession(d: nat) returns (row: Option<Draft>)
      ensures row == if d < |drafts| then Some(drafts[d]) else None
    {
      row := if d < |drafts| then Some(drafts[d]) else None;
    }

    method UpdateDraftStatus(d: nat, status: DraftStatus)
      modifies this
      ensures products == old(products) && |drafts| == |old(drafts)|
      ensures forall i :: 0 <= i < |drafts| && i != d ==> drafts[i] == old(drafts)[i]
      ensures d < |drafts| ==>
                && drafts[d] == old(drafts)[d].(status := status, prompt := drafts[d].prompt)
                && (status == Ready || IsTerminal(status) ==> drafts[d].prompt.None?)
                && (status == PendingInput || status == EditingName || status == EditingDate ==>
                      drafts[d].prompt == old(drafts)[d].prompt)
      ensures Db() == UpdateStatus(old(Db()), d, status)
    {
      if d < |drafts| {
        var row := drafts[d].(status := status);
        match status {
          case Ready | Confirmed | Canceled | Deleted | Failed => row := row.(prompt := None);
          case _ =>
        }
        drafts := drafts[d := row];
      }
    }

    method UpdateDraftFields(d: nat, name: string, expiresOn: Option<int>, phrase: string, status: DraftStatus)
      modifies this
      ensures products == old(products) && |drafts| == |old(drafts)|
      ensures forall i :: 0 <= i < |drafts| && i != d ==> drafts[i] == old(drafts)[i]
      ensures d < |drafts| ==>
                && drafts[d].Name() == Text.Trim(name) && drafts[d].Phrase() == Text.Trim(phrase)
                && drafts[d].expiresOn == expiresOn && drafts[d].status == status
                && (status == Ready ==> drafts[d].prompt.None?)
                && (status != Ready ==> drafts[d].prompt == old(drafts)[d].prompt)
                && Rest(drafts[d]) == Rest(old(drafts)[d]).(status := status, prompt := drafts[d].prompt)
      ensures Db() == UpdateFields(old(Db()), d, name, expiresOn, phrase, status)
    {
      if d < |drafts| {
        var row := drafts[d].(name := EmptyToNull(name), expiresOn := expiresOn, phrase := EmptyToNull(phrase),
                              status := status);
        if status == Ready {
          row := row.(prompt := None);
        }
        drafts := drafts[d := row];
      }
    }

    method SetDraftEditPromptMessageID(d: nat, message: Option<int>)
      modifies this
      ensures products == old(products) && |drafts| == |old(drafts)|
      ensures forall i :: 0 <= i < |drafts| && i != d ==> drafts[i] == old(drafts)[i]
      ensures d < |drafts| ==> drafts[d].prompt == message && drafts[d].(prompt := None) == old(drafts)[d].(prompt := None)
      ensures Db() == SetPrompt(old(Db()), d, message)
    {
      if d < |drafts| {
        drafts := drafts[d := drafts[d].(prompt := message)];
      }
    }

    method ApplyCleanerUpdateIfReady(d: nat, name: string, expiresOn: Option<int>, phrase: string) returns (updated: bool)
      modifies this
      ensures Db() == CleanIfReady(old(Db()), d, name, expiresOn, phrase)
      ensures products == old(products) && |drafts| == |old(drafts)|
      ensures forall i :: 0 <= i < |drafts| && (i != d || !updated) ==> drafts[i] == old(drafts)[i]
      ensures updated <==> d < |old(drafts)| && old(drafts)[d].status == Ready
      ensures updated ==>
                && drafts[d].Name() == Text.Trim(name) && drafts[d].Phrase() == Text.Trim(phrase)
                && drafts[d].expiresOn == expiresOn && Rest(drafts[d]) == Rest(old(drafts)[d])
    {
      updated := d < |drafts| && drafts[d].status == Ready;
      if updated {
        drafts := drafts[d := drafts[d].(name := EmptyToNull(name), expiresOn := expiresOn, phrase := EmptyToNull(phrase))];
      }
    }

    /**
     The confirmation transaction: under the row lock, a confirmed draft gives its product again, a
     live complete one a new product.
     */
    method CreateProductFromDraft(d: nat) returns (r: Confirmation)
      modifies this
      ensures r == Answer(old(Db()), d)
      ensures Db() == Confirm(old(Db()), d)
      ensures d >= |old(drafts)| ==> r == Refused(NoDraft)
      ensures d < |old(drafts)| && old(drafts)[d].status == Confirmed ==>
                var id := old(drafts)[d].product;
                r == if id.None? then Refused(NoReference)
                     else if id.value >= |old(products)| then Refused(NoProduct)
                     else Made(id.value, old(products)[id.value])
      ensures d < |old(drafts)| && old(drafts)[d].status in {PendingInput, Canceled, Deleted, Failed} ==>
                r == Refused(NotConfirmable)
      ensures d < |old(drafts)| && old(drafts)[d].status in {Ready, EditingName, EditingDate} ==>
                (r == Refused(Incomplete) <==> old(drafts)[d].expiresOn.None? || Text.Trim(old(drafts)[d].Name()) == "")
                && (r == Refused(Incomplete) || IsFreshCopy(r, old(drafts)[d], |old(products)|))
      ensures d < |old(drafts)| && r.Made? && r.id == |old(products)| && old(drafts)[d].status != Confirmed ==>
                && products == old(products) + [r.product] && |drafts| == |old(drafts)|
                && drafts[d] == old(drafts)[d].(status := Confirmed, product := Some(r.id), prompt := None)
                && forall i :: 0 <= i < |drafts| && i != d ==> drafts[i] == old(drafts)[i]
      ensures r.Refused? || r.id != |old(products)| ==> drafts == old(drafts) && products == old(products)
    {
      var locked := GetDraftSession(d);
      if locked.None? {
        return Refused(NoDraft);
      }
      var draft := locked.value;
      if draft.status == Confirmed {
        if draft.product.None? {
          return Refused(NoReference);
        }
        if draft.product.value >= |products| {
          return Refused(NoProduct);
        }
        return Made(draft.product.value, products[draft.product.value]);
      }
      match draft.status {
        case Ready | EditingName | EditingDate =>
        case _ => return Refused(NotConfirmable);
      }
      if draft.expiresOn.None? || Text.Trim(draft.Name()) == "" {
        return Refused(Incomplete);
      }
      var product := Product(draft.user, draft.Name(), draft.expiresOn.value, EmptyToNull(draft.Phrase()),
                             draft.source, Active);
      var id := |products|;
      products := products + [product];
      drafts := drafts[d := draft.(status := Confirmed, product := Some(id), prompt := None)];
      return Made(id, product);
    }

    /**
     An undisturbed callback: the decision on the row as it stands, then that write and, for an
     edit, the prompt.
     */
    method HandleDraftCallback(d: nat, action: CallbackAction, message: int)
      modifies this
      ensures Db() == AfterCallback(old(Db()), d, action, message)
      ensures |drafts| == |old(drafts)| && forall i :: 0 <= i < |drafts| && i != d ==> drafts[i] == old(drafts)[i]
      ensures d < |drafts| ==> IsCallbackResult(old(drafts)[d], action, message, |old(products)|, drafts[d])
      ensures old(products) <= products && |products| <= |old(products)| + 1
      ensures |products| > |old(products)| <==> d < |drafts| && action.DoConfirm? && IsConfirmable(old(drafts)[d])
      ensures |products| > |old(products)| ==>
                IsFreshCopy(Made(|old(products)|, products[|old(products)|]), old(drafts)[d], |old(products)|)
    {
      var read := GetDraftSession(d);
      if read.None? {
        return;
      }
      var draft := read.value;
      if IsTerminal(draft.status) {
        return;
      }
      match action {
        case DoConfirm =>
          if draft.expiresOn.None? || Text.Trim(draft.Name()) == "" {
            return;
          }
          if ConfirmTransition(draft.status).None? {
            return;
          }
          var _ := CreateProductFromDraft(d);
        case DoCancel => CloseDraftWithStatus(d, draft, Canceled);
        case DoDelete => CloseDraftWithStatus(d, draft, Deleted);
        case DoEditName => EnterDraftEditMode(d, draft, EditingName, message);
        case DoEditDate => EnterDraftEditMode(d, draft, EditingDate, message);
        case Unknown =>
      }
    }

    /** An undisturbed text message to a draft in editing. */
    method HandleDraftEditMessage(d: nat, text: string, resolved: Option<int>)
      modifies this
      ensures Db() == AfterMessage(old(Db()), d, text, resolved)
      ensures products == old(products) && |drafts| == |old(drafts)|
      ensures forall i :: 0 <= i < |drafts| && i != d ==> drafts[i] == old(drafts)[i]
      ensures d < |drafts| ==> IsEditResult(old(drafts)[d], text, resolved, drafts[d])
    {
      var read := GetDraftSession(d);
      if read.None? {
        return;
      }
      var draft := read.value;
      match draft.status {
        case EditingName =>
          var name := Text.Trim(text);
          if name == "" {
            return;
          }
          Text.TrimStays(text);
          var next := ApplyEditTransition(draft.status);
          UpdateDraftFields(d, name, draft.expiresOn, draft.Phrase(), next.value);
        case EditingDate =>
          if resolved.None? {
            return;
          }
          var next := ApplyEditTransition(draft.status);
          UpdateDraftFields(d, draft.Name(), resolved, text, next.value);
        case _ =>
      }
    }

    method CloseDraftWithStatus(d: nat, draft: Draft, status: DraftStatus)
      modifies this
      ensures Db() == Commit(old(Db()), DecideClose(draft, d, status), 0)
    {
      var next := CloseTransition(draft.status, status);
      if next.Some? {
        UpdateDraftStatus(d, next.value);
      }
    }

    method EnterDraftEditMode(d: nat, draft: Draft, status: DraftStatus, message: int)
      modifies this
      ensures var intent := DecideEdit(draft, d, status);
              Db() == Commit(Commit(old(Db()), intent, message), Next(intent), message)
    {
      if ReusesPrompt(draft, status) {
        return;
      }
      var next := EnterEditTransition(draft.status, status);
      if next.None? {
        return;
      }
      UpdateDraftStatus(d, next.value);
      SetDraftEditPromptMessageID(d, Some(message));
    }

    /** An undisturbed sweep fails exactly the stale live drafts, and no draft of another kind. */
    method CleanupStaleDrafts(now: int)
      modifies this
      ensures Db() == AfterSweep(old(Db()), now)
      ensures products == old(products) && |drafts| == |old(drafts)|
      ensures forall d :: 0 <= d < |drafts| ==>
                            drafts[d] ==
                            if old(drafts)[d].status in {Ready, EditingName, EditingDate}
                               && now - old(drafts)[d].createdAt >= TWELVE_HOURS
                            then old(drafts)[d].(status := Failed, prompt := None) else old(drafts)[d]
    {
      var stale := StaleDrafts(drafts, now);
      for i := 0 to |stale|
        invariant products == old(products) && |drafts| == |old(drafts)|
        invariant forall d :: 0 <= d < |drafts| ==>
                                drafts[d] == if d in stale[..i] then AsFailed(old(drafts)[d]) else old(drafts)[d]
      {
        UpdateDraftStatus(stale[i], Failed);
      }
      assert stale[..|stale|] == stale;
    }
  }
}
