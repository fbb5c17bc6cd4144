/** The state changes behind the web forms (app/web/routes_ui.py, app/web/routes_settings.py). */
module Web {
  import opened Schema
  import opened Outbox
  import opened Withdrawal
  import opened Storage
  import opened ParseRules
  import Bot

  lemma MoveOne(done: set<nat>, todo: set<nat>, a: nat)
    requires a in todo && done !! todo
    ensures (done + {a}) + (todo - {a}) == done + todo && (done + {a}) !! (todo - {a})
  {
  }

  lemma ViewIs(db: Database)
    ensures db.View() == Db(db.transactions, db.attachments, db.emails, db.messages, db.jobs, db.rules)
  {
  }

  // ---- attaching and detaching ---------------------------------------------------------

  /** A charge that just got a receipt by hand; a filed or verified one keeps its status. */
  function HandReceipted(tx: Transaction, now: int): Transaction {
    if Unreceipted(tx.status) then tx.(status := ReceiptAttached, matchedAt := Some(now)) else tx
  }

  function WithReceipt(d: Db, tx: nat, att: nat, now: int): Db
    requires tx in d.transactions && att in d.attachments
  {
    d.(attachments := d.attachments[att := d.attachments[att].(transactionId := Some(tx))],
       transactions := d.transactions[tx := HandReceipted(d.transactions[tx], now)])
  }

  /** `attach_orphan`: it never looks at where the attachment was filed before. */
  ghost function Attached(d: Db, code: string, att: nat, now: int): Result<Db> {
    match WithCode(d.transactions, code)
    case None => Failure
    case Some(tx) =>
      if att !in d.attachments || !UniqueFiles(WithReceipt(d, tx, att, now).attachments) then Failure
      else Success(WithReceipt(d, tx, att, now))
  }

  method AttachOrphan(db: Database, code: string, att: nat, now: int) returns (ok: bool)
    modifies db`attachments, db`transactions
    ensures ok <==> Attached(old(db.View()), code, att, now).Success?
    ensures db.View() == if ok then Attached(old(db.View()), code, att, now).value else old(db.View())
  {
    hide UniqueFiles, Bot.Clashes;
    var found := WithCode(db.transactions, code);
    if found.None? || att !in db.attachments {
      return false;
    }
    var tx, before := found.value, db.attachments;
    db.attachments := db.attachments[att := db.attachments[att].(transactionId := Some(tx))];
    Bot.ClashesExactly(db.attachments);
    if Bot.Clashes(db.attachments) {
      db.attachments := before;
      return false;
    }
    if Unreceipted(db.transactions[tx].status) {
      db.transactions := db.transactions[tx := db.transactions[tx].(status := ReceiptAttached, matchedAt := Some(now))];
    }
    return true;
  }

  /**
   The rows after filing an attachment by hand.  It fails for an unknown code, a
   missing attachment, or a charge that has another copy of the file; otherwise the
   charge is marked if it was new, notified, lapsed or in need of attention.
  */
  lemma AttachedRows(d: Db, code: string, att: nat, now: int)
    requires UniqueFiles(d.attachments)
    ensures var r, found := Attached(d, code, att, now), WithCode(d.transactions, code);
            && (r.Failure? <==>
                  || (forall i | i in d.transactions :: d.transactions[i].shortCode != code)
                  || att !in d.attachments
                  || exists b :: b in d.attachments && b != att && d.attachments[b].sha256 == d.attachments[att].sha256
                                 && found.Some? && d.attachments[b].transactionId == found)
            && (r.Success? ==>
                  && found.Some? && d.transactions[found.value].shortCode == code
                  && var row := d.transactions[found.value];
                     r.value == Db(
                       d.transactions[found.value :=
                         if row.status in {New, Notified, Lapsed, NeedsAttention}
                         then row.(status := ReceiptAttached, matchedAt := Some(now)) else row],
                       d.attachments[att := d.attachments[att].(transactionId := found)],
                       d.emails, d.messages, d.jobs, d.rules))
  {
    WithCodeFinds(d.transactions, code);
    hide WithCode;
    if att in d.attachments && WithCode(d.transactions, code).Some? {
      OneMoreFile(d.attachments, att, WithCode(d.transactions, code).value);
    }
    hide UniqueFiles;
  }

  lemma OneMoreFile(atts: map<nat, Attachment>, att: nat, tx: nat)
    requires UniqueFiles(atts) && att in atts
    ensures !UniqueFiles(atts[att := atts[att].(transactionId := Some(tx))]) <==>
            exists b :: b in atts && b != att && atts[b].sha256 == atts[att].sha256 && atts[b].transactionId == Some(tx)
  {
    var after := atts[att := atts[att].(transactionId := Some(tx))];
    if b :| b in atts && b != att && atts[b].sha256 == atts[att].sha256 && atts[b].transactionId == Some(tx) {
      assert after[b] == atts[b] && after[att].transactionId == after[b].transactionId;
    }
  }

  /** `assign_orphan`: the same, but an assigned attachment is left where it is. */
  ghost function Assigned(d: Db, code: string, att: nat, now: int): Result<Db> {
    if att in d.attachments && d.attachments[att].transactionId.Some? && WithCode(d.transactions, code).Some? then
      Success(d)
    else Attached(d, code, att, now)
  }

  method AssignOrphan(db: Database, code: string, att: nat, now: int) returns (ok: bool)
    modifies db`attachments, db`transactions
    ensures ok <==> Assigned(old(db.View()), code, att, now).Success?
    ensures db.View() == if ok then Assigned(old(db.View()), code, att, now).value else old(db.View())
  {
    hide WithCode, Attached;
    if att in db.attachments && db.attachments[att].transactionId.Some? && WithCode(db.transactions, code).Some? {
      return true;
    }
    ok := AttachOrphan(db, code, att, now);
  }

  /** `detach`: a charge that loses its last receipt asks for one again. */
  function Detached(d: Db, att: nat): Result<Db> {
    if att !in d.attachments then Failure
    else
      var atts := d.attachments[att := d.attachments[att].(transactionId := None)];
      match d.attachments[att].transactionId
      case None => Success(d.(attachments := atts))
      case Some(tx) =>
        if tx in d.transactions && d.transactions[tx].status.ReceiptAttached?
           && Receipts(d.attachments, tx) == {att} then
          Success(d.(attachments := atts,
                     transactions := d.transactions[tx := d.transactions[tx].(status := Notified, matchedAt := None)]))
        else Success(d.(attachments := atts))
  }

  method Detach(db: Database, att: nat) returns (ok: bool)
    modifies db`attachments, db`transactions
    ensures ok <==> Detached(old(db.View()), att).Success?
    ensures db.View() == if ok then Detached(old(db.View()), att).value else old(db.View())
  {
    if att !in db.attachments {
      return false;
    }
    var tx := db.attachments[att].transactionId;
    ghost var before := db.attachments;
    db.attachments := db.attachments[att := db.attachments[att].(transactionId := None)];
    if tx.Some? && tx.value in db.transactions {
      var remaining := Receipts(db.attachments, tx.value) - {att};
      LastReceipt(before, att, tx.value);
      var row := db.transactions[tx.value];
      if remaining == {} && row.status.ReceiptAttached? {
        db.transactions := db.transactions[tx.value := row.(status := Notified, matchedAt := None)];
      }
    }
    return true;
  }

  /** Charge `i` is marked as having a receipt, and `att` is the only one it has. */
  predicate LosesLast(d: Db, att: nat, i: nat)
    requires att in d.attachments && i in d.transactions
  {
    && d.attachments[att].transactionId == Some(i) && d.transactions[i].status == ReceiptAttached
    && forall b | b in d.attachments && b != att :: d.attachments[b].transactionId != Some(i)
  }

  /**
   The rows after detaching: the attachment is of no charge, and the charge it was
   the only receipt of, if marked as having one, is back to notified.
  */
  lemma DetachedRows(d: Db, att: nat)
    ensures Detached(d, att).Failure? <==> att !in d.attachments
    ensures att in d.attachments ==>
              var d' := Detached(d, att).value;
              && d'.attachments == d.attachments[att := d.attachments[att].(transactionId := None)]
              && d'.transactions.Keys == d.transactions.Keys
              && (forall i | i in d.transactions ::
                    d'.transactions[i] == if LosesLast(d, att, i)
                                          then d.transactions[i].(status := Notified, matchedAt := None)
                                          else d.transactions[i])
              && d'.emails == d.emails && d'.messages == d.messages && d'.jobs == d.jobs && d'.rules == d.rules
  {
    if att in d.attachments && d.attachments[att].transactionId.Some? {
      var tx := d.attachments[att].transactionId.value;
      OnlyReceiptOf(d.attachments, att, tx);
      assert tx in d.transactions ==>
          (LosesLast(d, att, tx) <==>
             d.transactions[tx].status.ReceiptAttached? && Receipts(d.attachments, tx) == {att});
    }
    assert att in d.attachments ==>
        forall i | i in d.transactions && d.attachments[att].transactionId != Some(i) :: !LosesLast(d, att, i);
    hide Receipts, LosesLast;
  }

  lemma OnlyReceiptOf(atts: map<nat, Attachment>, att: nat, tx: nat)
    requires att in atts && atts[att].transactionId == Some(tx)
    ensures Receipts(atts, tx) == {att} <==> forall b | b in atts && b != att :: atts[b].transactionId != Some(tx)
  {
    var mine := Receipts(atts, tx);
    assert forall b :: b in mine <==> b in atts && atts[b].transactionId == Some(tx);
    if b :| b in atts && b != att && atts[b].transactionId == Some(tx) { assert b in mine && b !in {att}; }
  }

  lemma LastReceipt(atts: map<nat, Attachment>, att: nat, tx: nat)
    requires att in atts && atts[att].transactionId == Some(tx)
    ensures var after := atts[att := atts[att].(transactionId := None)];
            Receipts(after, tx) == Receipts(atts, tx) - {att}
    ensures Receipts(atts, tx) - {att} == {} <==> Receipts(atts, tx) == {att}
  {
    assert att in Receipts(atts, tx);
    var after := atts[att := atts[att].(transactionId := None)];
    assert Receipts(after, tx) == Receipts(atts, tx) - {att};
    if Receipts(atts, tx) - {att} == {} {
      assert Receipts(atts, tx) == {att} + (Receipts(atts, tx) - {att});
    }
  }

  // ---- announcing again -----------------------------------------------------------------

  function RenotifyJob(tx: nat, stamp: nat, now: int): Job {
    NewJob(Notify, ForCharge(tx), Some(RenotifyKey(tx, stamp)), now, MAX_ATTEMPTS)
  }

  /** `resend_notification`, under a key with the time in seconds. */
  ghost function Resent(d: Db, code: string, stamp: nat, now: int): Result<Db>
    requires UniqueKeys(d.jobs)
  {
    match WithCode(d.transactions, code)
    case None => Failure
    case Some(tx) =>
      Success(d.(transactions := d.transactions[tx := d.transactions[tx].(notifyMessageId := None)],
                 jobs := Enqueued(d.jobs, RenotifyJob(tx, stamp, now)).0))
  }

  method ResendNotification(db: Database, code: string, stamp: nat, now: int) returns (ok: bool)
    requires UniqueKeys(db.jobs)
    modifies db`transactions, db`jobs
    ensures ok <==> Resent(old(db.View()), code, stamp, now).Success?
    ensures db.View() == if ok then Resent(old(db.View()), code, stamp, now).value else old(db.View())
  {
    hide UniqueKeys, Enqueued;
    var found := WithCode(db.transactions, code);
    if found.None? {
      return false;
    }
    var tx := found.value;
    db.transactions := db.transactions[tx := db.transactions[tx].(notifyMessageId := None)];
    var job := Enqueue(db, Notify, ForCharge(tx), Some(RenotifyKey(tx, stamp)), now);
    return true;
  }

  /** The rows after a resend: the charge has no announcement, and its own notify job is ensured, due at once. */
  lemma ResentRows(d: Db, code: string, stamp: nat, now: int)
    requires UniqueKeys(d.jobs)
    ensures Resent(d, code, stamp, now).Failure? <==>
            forall i | i in d.transactions :: d.transactions[i].shortCode != code
    ensures Resent(d, code, stamp, now).Success? ==>
              var d', tx := Resent(d, code, stamp, now).value, WithCode(d.transactions, code).value;
              var t, t', key := d.jobs, d'.jobs, Some(RenotifyKey(tx, stamp));
              && d.transactions[tx].shortCode == code
              && d' == d.(transactions := d.transactions[tx := d.transactions[tx].(notifyMessageId := None)],
                          jobs := t')
              && (forall i | i in t && t[i].key != key :: i in t' && t'[i] == t[i])
              && (forall i | i in t' && !(i in t && t'[i] == t[i]) ::
                    t'[i] == Job(Notify, ForCharge(tx), key, Pending, 0, 8, now))
              && exists i :: i in t' && t'[i].key == key && t'[i].status in {Pending, Running}
  {
    WithCodeFinds(d.transactions, code);
    hide Enqueued, UniqueKeys, WithCode;
    var found := WithCode(d.transactions, code);
    if found.Some? { EnqueueAnswers(d.jobs, RenotifyJob(found.value, stamp, now)); }
  }

  // ---- editing ------------------------------------------------------------------------

  /** The edit form; `amount` and `status` are None when left empty, a failure when they cannot be read. */
  datatype Edit = Edit(
    merchant: string, amount: Option<Result<int>>, category: string, notes: string, status: Option<Result<Status>>)

  predicate Readable(e: Edit) {
    e.amount.Some? ==> e.amount.value.Success?
  }

  predicate Acceptable(e: Edit) {
    Readable(e) && (e.status.Some? ==> e.status.value.Success?)
  }

  /**
   An unreadable amount or an unknown status ends the handler with an error
   page, but the fields set before it are committed.
  */
  function EditedRow(tx: Transaction, e: Edit): Transaction {
    var named := if e.merchant != "" then tx.(merchant := e.merchant) else tx;
    if !Readable(e) then named
    else named.(amountMinor := if e.amount.Some? then e.amount.value.value else tx.amountMinor,
                category := e.category, notes := e.notes,
                status := if e.status.Some? && e.status.value.Success? then e.status.value.value else tx.status)
  }

  function Edited(d: Db, code: string, e: Edit): Result<Db> {
    match WithCode(d.transactions, code)
    case None => Failure
    case Some(tx) => Success(d.(transactions := d.transactions[tx := EditedRow(d.transactions[tx], e)]))
  }

  method EditFields(e: Edit, tx: Transaction) returns (ok: bool, row: Transaction)
    ensures ok <==> Acceptable(e)
    ensures row == EditedRow(tx, e)
  {
    row := tx;
    if e.merchant != "" && e.merchant != row.merchant {
      row := row.(merchant := e.merchant);
    }
    if e.amount.Some? {
      if e.amount.value.Failure? {
        return false, row;
      }
      if e.amount.value.value != row.amountMinor {
        row := row.(amountMinor := e.amount.value.value);
      }
    }
    if e.category != row.category {
      row := row.(category := e.category);
    }
    if e.notes != row.notes {
      row := row.(notes := e.notes);
    }
    if e.status.Some? {
      if e.status.value.Failure? {
        return false, row;
      }
      if e.status.value.value != row.status {
        row := row.(status := e.status.value.value);
      }
    }
    return true, row;
  }

  method UpdateTransaction(db: Database, code: string, e: Edit) returns (ok: bool)
    modifies db`transactions
    ensures ok <==> WithCode(old(db.transactions), code).Some? && Acceptable(e)
    ensures db.View() == if Edited(old(db.View()), code, e).Success? then Edited(old(db.View()), code, e).value
                         else old(db.View())
  {
    hide EditedRow, Acceptable;
    var found := WithCode(db.transactions, code);
    if found.None? {
      return false;
    }
    var row;
    ok, row := EditFields(e, db.transactions[found.value]);
    db.transactions := db.transactions[found.value := row];
  }

  /**
   The rows after an edit, field by field: an empty merchant, amount or status means
   no change, category and notes are taken as they are, and an unreadable amount
   stops everything after the merchant, an unknown status only itself.
  */
  lemma EditedFields(d: Db, code: string, e: Edit)
    ensures Edited(d, code, e).Failure? <==> forall i | i in d.transactions :: d.transactions[i].shortCode != code
    ensures Edited(d, code, e).Success? ==>
              var tx := WithCode(d.transactions, code).value;
              var was, d' := d.transactions[tx], Edited(d, code, e).value;
              && was.shortCode == code && tx in d'.transactions
              && d' == d.(transactions := d.transactions[tx := d'.transactions[tx]])
              && var row := d'.transactions[tx];
                 && row.merchant == (if e.merchant == "" then was.merchant else e.merchant)
                 && (e.amount == Some(Failure) ==> row == was.(merchant := row.merchant))
                 && (e.amount != Some(Failure) ==>
                       && row.amountMinor == (if e.amount.Some? then e.amount.value.value else was.amountMinor)
                       && row.category == e.category && row.notes == e.notes
                       && row.status == (match e.status case Some(Success(s)) => s case _ => was.status)
                       && row == was.(merchant := row.merchant, amountMinor := row.amountMinor,
                                       category := row.category, notes := row.notes, status := row.status))
  {
    WithCodeFinds(d.transactions, code);
    hide WithCode;
  }

  /** What the handler has read before it refuses is what the charge already says. */
  predicate LeavesAlone(tx: Transaction, e: Edit) {
    && (e.merchant == "" || e.merchant == tx.merchant)
    && (Readable(e) ==>
          && (e.amount.None? || e.amount.value.value == tx.amountMinor)
          && e.category == tx.category && e.notes == tx.notes)
  }

  /**
   So a refused edit saves nothing if and only if it left alone the merchant and,
   when it was refused for its status, the amount, the category and the notes.
  */
  lemma RefusedEditSavesNothingExactly(d: Db, code: string, e: Edit)
    requires WithCode(d.transactions, code).Some? && !Acceptable(e)
    ensures Edited(d, code, e) == Success(d) <==>
            LeavesAlone(d.transactions[WithCode(d.transactions, code).value], e)
  {
    hide WithCode;
    var tx := WithCode(d.transactions, code).value;
    var row := EditedRow(d.transactions[tx], e);
    if row == d.transactions[tx] {
      assert d.transactions[tx := row] == d.transactions;
    } else {
      assert d.transactions[tx := row][tx] != d.transactions[tx];
    }
  }

  /** A status that says the truth about the charge's receipts. */
  predicate StatusFits(atts: map<nat, Attachment>, tx: nat, s: Status) {
    (s.ReceiptAttached? ==> Receipts(atts, tx) != {}) && (Unreceipted(s) ==> Receipts(atts, tx) == {})
  }

  /** The status an edit asks for, if any takes effect, fits. */
  predicate EditFits(d: Db, code: string, e: Edit) {
    var found := WithCode(d.transactions, code);
    found.Some? && Acceptable(e) && e.status.Some? ==> StatusFits(d.attachments, found.value, e.status.value.value)
  }

  /** `/skip` (app/discordbot/commands.py): the charge is filed as it is. */
  function Skipped(d: Db, code: string): Db {
    match WithCode(d.transactions, code)
    case None => d
    case Some(tx) => d.(transactions := d.transactions[tx := d.transactions[tx].(status := NoReceiptRequired)])
  }

  method Skip(db: Database, code: string)
    modifies db`transactions
    ensures db.View() == Skipped(old(db.View()), code)
    ensures db.transactions.Keys == old(db.transactions).Keys
    ensures forall i | i in db.transactions :: db.transactions[i] ==
              if Some(i) == WithCode(old(db.transactions), code)
              then old(db.transactions)[i].(status := NoReceiptRequired) else old(db.transactions)[i]
  {
    var found := WithCode(db.transactions, code);
    if found.Some? {
      var tx := found.value;
      db.transactions := db.transactions[tx := db.transactions[tx].(status := NoReceiptRequired)];
    }
  }

  // ---- parsing again --------------------------------------------------------------------

  /** What the current parse rules make of a stored email. */
  type Parser = RawEmail -> Option<Fields>

  function ReparsedRow(tx: Transaction, f: Fields): Transaction {
    tx.(merchant := if f.merchant != "" then f.merchant else tx.merchant,
        amountMinor := f.amountMinor, currency := f.currency,
        occurredAt := if f.occurredAt.Some? then f.occurredAt.value else tx.occurredAt,
        status := if !tx.status.NeedsAttention? then tx.status
                  else if tx.notifiedAt.Some? then Notified else New)
  }

  /** The emails that failed before and parse now. */
  function Fixable(emails: map<nat, RawEmail>, parse: Parser): set<nat> {
    set e | e in emails && emails[e].parseFailed && parse(emails[e]).Some?
  }

  /** The charges once the emails `fixed` have been parsed again. */
  function WithFields(txs: Transactions, emails: map<nat, RawEmail>, parse: Parser, fixed: set<nat>): Transactions
    requires fixed <= Fixable(emails, parse)
  {
    map i | i in txs ::
      if txs[i].emailId.Some? && txs[i].emailId.value in fixed
      then ReparsedRow(txs[i], parse(emails[txs[i].emailId.value]).value) else txs[i]
  }

  function Cleared(emails: map<nat, RawEmail>, fixed: set<nat>): map<nat, RawEmail> {
    map e | e in emails :: if e in fixed then emails[e].(parseFailed := false) else emails[e]
  }

  function Reparsed(d: Db, parse: Parser): Db {
    var fixed := Fixable(d.emails, parse);
    d.(transactions := WithFields(d.transactions, d.emails, parse, fixed), emails := Cleared(d.emails, fixed))
  }

  /**
   The rows after parsing again: an email that had failed and parses now is no
   longer marked, and every charge of it takes the parsed amount, currency, merchant
   and time, the last two only if there are any; one that needed attention becomes
   notified or new, by whether it was ever announced.  Nothing else changes.
  */
  lemma ReparsedRows(d: Db, parse: Parser)
    ensures var d' := Reparsed(d, parse);
            && d'.emails.Keys == d.emails.Keys && d'.transactions.Keys == d.transactions.Keys
            && (forall e | e in d.emails ::
                  d'.emails[e] == if d.emails[e].parseFailed && parse(d.emails[e]).Some?
                                  then d.emails[e].(parseFailed := false) else d.emails[e])
            && d' == d.(emails := d'.emails, transactions := d'.transactions)
    ensures forall i | i in d.transactions ::
              var row, e := d.transactions[i], d.transactions[i].emailId;
              if e.Some? && e.value in d.emails && d.emails[e.value].parseFailed && parse(d.emails[e.value]).Some? then
                var f := parse(d.emails[e.value]).value;
                Reparsed(d, parse).transactions[i] ==
                row.(amountMinor := f.amountMinor, currency := f.currency,
                     merchant := if f.merchant == "" then row.merchant else f.merchant,
                     occurredAt := match f.occurredAt case Some(t) => t case None => row.occurredAt,
                     status := if row.status != NeedsAttention then row.status
                               else if row.notifiedAt == None then New else Notified)
              else Reparsed(d, parse).transactions[i] == row
  {
  }

  function DerivedFrom(txs: Transactions, email: nat): set<nat> {
    set i | i in txs && txs[i].emailId == Some(email)
  }

  function ReparsedSome(txs: Transactions, some: set<nat>, f: Fields): Transactions {
    map i | i in txs :: if i in some then ReparsedRow(txs[i], f) else txs[i]
  }

  lemma ReparseOneMore(txs: Transactions, some: set<nat>, i: nat, f: Fields)
    requires i in txs && i !in some
    ensures var now := ReparsedSome(txs, some, f);
            i in now && now[i] == txs[i] && now[i := ReparsedRow(txs[i], f)] == ReparsedSome(txs, some + {i}, f)
  {
    hide ReparsedRow;
  }

  lemma ReparseNone(txs: Transactions, email: nat, f: Fields)
    ensures ReparsedSome(txs, {}, f) == txs
    ensures forall i | i in DerivedFrom(txs, email) :: i in txs
  {
  }

  /** Parse again the charges of one email. */
  method ReparseCharges(db: Database, email: nat, f: Fields)
    modifies db`transactions
    ensures db.transactions == ReparsedSome(old(db.transactions), DerivedFrom(old(db.transactions), email), f)
  {
    hide *;
    ghost var txs := db.transactions;
    var todo := DerivedFrom(db.transactions, email);
    ghost var done: set<nat> := {};
    ReparseNone(txs, email, f);
    while todo != {}
      invariant done + todo == DerivedFrom(txs, email) && done !! todo
      invariant db.transactions == ReparsedSome(txs, done, f)
      decreases |todo|
    {
      var i :| i in todo;
      ReparseOneMore(txs, done, i, f);
      db.transactions := db.transactions[i := ReparsedRow(db.transactions[i], f)];
      MoveOne(done, todo, i);
      todo, done := todo - {i}, done + {i};
    }
    assert done == DerivedFrom(txs, email);
  }

  lemma FixNone(txs: Transactions, emails: map<nat, RawEmail>, parse: Parser)
    ensures WithFields(txs, emails, parse, {}) == txs && Cleared(emails, {}) == emails
  {
  }

  lemma FixOneMore(txs: Transactions, emails: map<nat, RawEmail>, parse: Parser, fixed: set<nat>, e: nat)
    requires fixed <= Fixable(emails, parse) && e in Fixable(emails, parse) && e !in fixed
    ensures var before := WithFields(txs, emails, parse, fixed);
            ReparsedSome(before, DerivedFrom(before, e), parse(emails[e]).value)
            == WithFields(txs, emails, parse, fixed + {e})
    ensures var cleared := Cleared(emails, fixed);
            e in cleared && cleared[e := cleared[e].(parseFailed := false)] == Cleared(emails, fixed + {e})
  {
  }

  function Stalled(emails: map<nat, RawEmail>): set<nat> {
    set e | e in emails && emails[e].parseFailed
  }

  lemma NextStalled(emails: map<nat, RawEmail>, parse: Parser, fixed: set<nat>, stalled: set<nat>, e: nat)
    requires stalled <= Stalled(emails) && e in stalled && fixed == Fixable(emails, parse) - stalled
    ensures e in emails && e !in fixed && e in Cleared(emails, fixed) && Cleared(emails, fixed)[e] == emails[e]
    ensures Fixable(emails, parse) - (stalled - {e}) == if parse(emails[e]).Some? then fixed + {e} else fixed
    ensures parse(emails[e]).Some? <==> e in Fixable(emails, parse)
  {
  }

  lemma FixableIsStalled(emails: map<nat, RawEmail>, parse: Parser)
    ensures Fixable(emails, parse) <= Stalled(emails)
  {
  }

  lemma ReparsedIs(d: Db, parse: Parser)
    ensures var fixed := Fixable(d.emails, parse);
            Reparsed(d, parse) == d.(transactions := WithFields(d.transactions, d.emails, parse, fixed),
                                     emails := Cleared(d.emails, fixed))
  {
  }

  method Reparse(db: Database, parse: Parser) returns (fixed: nat)
    modifies db`transactions, db`emails
    ensures db.View() == Reparsed(old(db.View()), parse)
    ensures fixed == |Fixable(old(db.emails), parse)|
  {
    hide *;
    ViewIs(db);
    ghost var d, txs, emails := db.View(), db.transactions, db.emails;
    var stalled := Stalled(db.emails);
    ghost var done: set<nat> := {};
    fixed := 0;
    FixNone(txs, emails, parse);
    FixableIsStalled(emails, parse);
    while stalled != {}
      invariant stalled <= Stalled(emails) && done == Fixable(emails, parse) - stalled
      invariant db.transactions == WithFields(txs, emails, parse, done) && db.emails == Cleared(emails, done)
      invariant fixed == |done|
      decreases |stalled|
    {
      var e :| e in stalled;
      NextStalled(emails, parse, done, stalled, e);
      stalled := stalled - {e};
      var fields := parse(db.emails[e]);
      if fields.Some? {
        FixOneMore(txs, emails, parse, done, e);
        ReparseCharges(db, e, fields.value);
        db.emails := db.emails[e := db.emails[e].(parseFailed := false)];
        fixed, done := fixed + 1, done + {e};
      }
    }
    ViewIs(db);
    ReparsedIs(d, parse);
  }

  // ---- deleting -----------------------------------------------------------------------

  /** The bot's own messages about a charge that are still in the channel. */
  function Dangling(messages: map<nat, DiscordMessage>, tx: nat): set<nat> {
    set m | m in messages && messages[m].transactionId == Some(tx) && messages[m].deletedAt.None?
            && (messages[m].kind.Announcement? || messages[m].kind.Confirmation?)
  }

  /** Some attachments removed, or moved to the orphan queue. */
  function ReleasedSome(atts: map<nat, Attachment>, some: set<nat>, deleteReceipts: bool): map<nat, Attachment> {
    if deleteReceipts then map a | a in atts && a !in some :: atts[a]
    else map a | a in atts :: if a in some then atts[a].(transactionId := None) else atts[a]
  }

  function PathsOf(atts: map<nat, Attachment>, some: set<nat>): set<string> {
    set a | a in some && a in atts :: atts[a].path
  }

  function Released(atts: map<nat, Attachment>, tx: nat, deleteReceipts: bool): map<nat, Attachment> {
    ReleasedSome(atts, Receipts(atts, tx), deleteReceipts)
  }

  function FilesKept(files: Files, atts: map<nat, Attachment>, some: set<nat>, deleteReceipts: bool): Files {
    if deleteReceipts then files - PathsOf(atts, some) else files
  }

  function UnlinkedSome(txs: Transactions, some: set<nat>): Transactions {
    map i | i in txs :: if i in some then txs[i].(refundOf := None) else txs[i]
  }

  function RefundsOf(txs: Transactions, tx: nat): set<nat> {
    set i | i in txs && txs[i].refundOf == Some(tx)
  }

  /** The charges other than `tx`, none of them a refund of it. */
  function Without(txs: Transactions, tx: nat): Transactions {
    UnlinkedSome(txs, RefundsOf(txs, tx)) - {tx}
  }

  function About(messages: map<nat, DiscordMessage>, tx: nat): set<nat> {
    set m | m in messages && messages[m].transactionId == Some(tx)
  }

  function Unrelated(messages: map<nat, DiscordMessage>, tx: nat): map<nat, DiscordMessage> {
    messages - About(messages, tx)
  }

  /** The emails once a charge of `email` is gone and `rest` are left. */
  function EmailsLeft(emails: map<nat, RawEmail>, rest: Transactions, email: Option<nat>): map<nat, RawEmail> {
    if email.Some? && !(exists i | i in rest :: rest[i].emailId == email) then emails - {email.value} else emails
  }

  function EmailsWithout(emails: map<nat, RawEmail>, txs: Transactions, tx: nat): map<nat, RawEmail>
    requires tx in txs
  {
    EmailsLeft(emails, Without(txs, tx), txs[tx].emailId)
  }

  /** The database after a charge is deleted. */
  ghost predicate ChargeDeleted(d: Db, d': Db, tx: nat, deleteReceipts: bool, now: int) {
    && tx in d.transactions
    && d'.transactions == Without(d.transactions, tx)
    && d'.attachments == Released(d.attachments, tx, deleteReceipts)
    && d'.messages == Unrelated(d.messages, tx)
    && d'.emails == EmailsWithout(d.emails, d.transactions, tx)
    && d'.rules == d.rules
    && Withdrawn(d.jobs, d'.jobs, {tx}, Dangling(d.messages, tx), now)
  }

  /** The bot's announcement or confirmation of the charge, not known to be gone from the channel. */
  predicate StillUp(d: Db, tx: nat, m: nat) {
    && m in d.messages && d.messages[m].transactionId == Some(tx) && d.messages[m].deletedAt == None
    && d.messages[m].kind in {Announcement, Confirmation}
  }

  /**
   What a deletion asks for: exactly one outstanding deletion for each message of
   the bot about the charge that is still up, and no other new job; the jobs of
   the charge are gone and all others stay, but for old deletions of those messages.
  */
  lemma DeletionTakesDown(d: Db, d': Db, tx: nat, deleteReceipts: bool, now: int)
    requires ChargeDeleted(d, d', tx, deleteReceipts, now)
    ensures forall m | StillUp(d, tx, m) :: OneDeletion(d'.jobs, m)
    ensures forall i | i in d'.jobs && !(i in d.jobs && d'.jobs[i] == d.jobs[i]) ::
              exists m :: StillUp(d, tx, m) &&
                d'.jobs[i] == Job(DeleteMessage, ForMessage(m), Some(DeleteKey(m)), Pending, 0, 8, now)
    ensures forall i | i in d'.jobs :: !NamesCharge(d'.jobs[i].payload, {tx})
    ensures forall i | i in d.jobs && !NamesCharge(d.jobs[i].payload, {tx}) ::
              (i in d'.jobs && d'.jobs[i] == d.jobs[i])
              || exists m :: StillUp(d, tx, m) && d.jobs[i].key == Some(DeleteKey(m))
  {
    var up := Dangling(d.messages, tx);
    WithdrawnRows(d.jobs, d'.jobs, {tx}, up, now);
    assert forall m: nat :: m in up <==> StillUp(d, tx, m);
    hide Withdrawn, Dangling, Without, Released, Unrelated, EmailsWithout, OneDeletion, NamesCharge, StillUp;
  }

  /**
   What a deletion leaves: every other charge, unlinked if it was a refund of this
   one; every receipt of another charge, and this one's as orphans unless they go
   too; every message record about something else; every email but its own, which
   stays only when another charge came from it.
  */
  lemma DeletionLeaves(d: Db, d': Db, tx: nat, deleteReceipts: bool, now: int)
    requires ChargeDeleted(d, d', tx, deleteReceipts, now)
    ensures tx in d.transactions && d'.transactions.Keys == d.transactions.Keys - {tx} && d'.rules == d.rules
    ensures forall i | i in d'.transactions ::
              d'.transactions[i] == if d.transactions[i].refundOf != Some(tx) then d.transactions[i]
                                    else d.transactions[i].(refundOf := None)
    ensures forall a :: a in d'.attachments <==>
              a in d.attachments && !(deleteReceipts && d.attachments[a].transactionId == Some(tx))
    ensures forall a | a in d'.attachments ::
              d'.attachments[a] == if d.attachments[a].transactionId != Some(tx) then d.attachments[a]
                                   else d.attachments[a].(transactionId := None)
    ensures forall m :: m in d'.messages <==> m in d.messages && d.messages[m].transactionId != Some(tx)
    ensures forall m | m in d'.messages :: d'.messages[m] == d.messages[m]
    ensures forall e :: e in d'.emails <==>
              && e in d.emails
              && (d.transactions[tx].emailId == Some(e) ==>
                    exists i | i in d.transactions && i != tx :: d.transactions[i].emailId == Some(e))
    ensures forall e | e in d'.emails :: d'.emails[e] == d.emails[e]
  {
    hide Withdrawn, Dangling;
    var rest := d'.transactions;
    forall e: nat ensures (exists i | i in rest :: rest[i].emailId == Some(e)) <==>
              exists i | i in d.transactions && i != tx :: d.transactions[i].emailId == Some(e)
    {
      SameEmailHolders(d.transactions, tx, e);
    }
  }

  lemma SameEmailHolders(txs: Transactions, tx: nat, e: nat)
    ensures var rest := Without(txs, tx);
            (exists i | i in rest :: rest[i].emailId == Some(e))
            <==> exists i | i in txs && i != tx :: txs[i].emailId == Some(e)
  {
    var rest := Without(txs, tx);
    assert forall i :: i in rest <==> i in txs && i != tx;
    assert forall i | i in rest :: rest[i].emailId == txs[i].emailId;
  }

  /** And of the files: with the receipts, exactly those of the charge; otherwise none. */
  lemma DeletionKeepsFiles(files: Files, atts: map<nat, Attachment>, tx: nat, deleteReceipts: bool, path: string)
    ensures var left := FilesKept(files, atts, Receipts(atts, tx), deleteReceipts);
            && (path in left <==>
                  && path in files
                  && !(deleteReceipts
                       && exists a :: a in atts && atts[a].transactionId == Some(tx) && atts[a].path == path))
            && (path in left ==> left[path] == files[path])
  {
    var mine := Receipts(atts, tx);
    assert path in PathsOf(atts, mine) <==>
           exists a :: a in atts && atts[a].transactionId == Some(tx) && atts[a].path == path by {
      if a :| a in atts && atts[a].transactionId == Some(tx) && atts[a].path == path { assert a in mine; }
    }
  }

  lemma ReleaseOneMore(atts: map<nat, Attachment>, files: Files, some: set<nat>, a: nat, deleteReceipts: bool)
    requires a in atts && a !in some
    ensures var now := ReleasedSome(atts, some, deleteReceipts);
            && a in now && now[a] == atts[a]
            && ReleasedSome(atts, some + {a}, deleteReceipts)
               == if deleteReceipts then now - {a} else now[a := now[a].(transactionId := None)]
    ensures FilesKept(files, atts, some + {a}, deleteReceipts)
            == (var kept := FilesKept(files, atts, some, deleteReceipts);
                if deleteReceipts then kept - {atts[a].path} else kept)
  {
    assert PathsOf(atts, some + {a}) == PathsOf(atts, some) + {atts[a].path};
  }

  lemma ReleaseNone(atts: map<nat, Attachment>, files: Files, deleteReceipts: bool)
    ensures ReleasedSome(atts, {}, deleteReceipts) == atts && FilesKept(files, atts, {}, deleteReceipts) == files
  {
    assert PathsOf(atts, {}) == {};
  }

  lemma ReleasedAll(atts: map<nat, Attachment>, tx: nat, deleteReceipts: bool)
    ensures Released(atts, tx, deleteReceipts) == ReleasedSome(atts, Receipts(atts, tx), deleteReceipts)
  {
  }

  method ReleaseOne(db: Database, disk: Disk, a: nat, deleteReceipts: bool,
                    ghost atts: map<nat, Attachment>, ghost files: Files, ghost done: set<nat>)
    requires a in atts && a !in done && db.attachments == ReleasedSome(atts, done, deleteReceipts)
    requires disk.files == FilesKept(files, atts, done, deleteReceipts)
    modifies db`attachments, disk
    ensures db.attachments == ReleasedSome(atts, done + {a}, deleteReceipts)
    ensures disk.files == FilesKept(files, atts, done + {a}, deleteReceipts)
  {
    hide *;
    ReleaseOneMore(atts, files, done, a, deleteReceipts);
    if deleteReceipts {
      DeleteStoredFile(disk, db.attachments[a].path);
      db.attachments := db.attachments - {a};
    } else {
      db.attachments := db.attachments[a := db.attachments[a].(transactionId := None)];
    }
  }

  method ReleaseReceipts(db: Database, disk: Disk, tx: nat, deleteReceipts: bool)
    modifies db`attachments, disk
    ensures db.attachments == Released(old(db.attachments), tx, deleteReceipts)
    ensures disk.files
            == FilesKept(old(disk.files), old(db.attachments), Receipts(old(db.attachments), tx), deleteReceipts)
  {
    hide *;
    ghost var atts, files := db.attachments, disk.files;
    var todo := Receipts(db.attachments, tx);
    ghost var done: set<nat> := {};
    ReleaseNone(atts, files, deleteReceipts);
    while todo != {}
      invariant done + todo == Receipts(atts, tx) && done !! todo
      invariant db.attachments == ReleasedSome(atts, done, deleteReceipts)
      invariant disk.files == FilesKept(files, atts, done, deleteReceipts)
      decreases |todo|
    {
      var a :| a in todo;
      ReceiptIsThere(atts, tx, a);
      ReleaseOne(db, disk, a, deleteReceipts, atts, files, done);
      MoveOne(done, todo, a);
      todo, done := todo - {a}, done + {a};
    }
    assert done == Receipts(atts, tx);
    ReleasedAll(atts, tx, deleteReceipts);
  }

  lemma ReceiptIsThere(atts: map<nat, Attachment>, tx: nat, a: nat)
    requires a in Receipts(atts, tx)
    ensures a in atts
  {
  }

  /** Whether deleting the charge should also take a message down. */
  predicate TakenDown(record: DiscordMessage) {
    record.deletedAt.None? && (record.kind.Announcement? || record.kind.Confirmation?)
  }

  lemma DanglingRow(rows: map<nat, DiscordMessage>, tx: nat, m: nat)
    requires m in About(rows, tx)
    ensures m in rows && (m in Dangling(rows, tx) <==> TakenDown(rows[m]))
    ensures Dangling(rows, tx) <= About(rows, tx)
  {
  }

  lemma DanglingIsAbout(rows: map<nat, DiscordMessage>, tx: nat)
    ensures Dangling(rows, tx) <= About(rows, tx)
  {
  }

  method ForgetMessages(db: Database, tx: nat) returns (ids: set<nat>)
    modifies db`messages
    ensures ids == Dangling(old(db.messages), tx) && db.messages == Unrelated(old(db.messages), tx)
  {
    hide Dangling, About, TakenDown;
    ghost var rows := db.messages;
    var todo := About(db.messages, tx);
    ghost var all := todo;
    ids := {};
    DanglingIsAbout(rows, tx);
    while todo != {}
      invariant todo <= all && db.messages == rows - (all - todo)
      invariant ids == Dangling(rows, tx) - todo
      decreases |todo|
    {
      var m :| m in todo;
      DanglingRow(rows, tx, m);
      assert m in db.messages && db.messages[m] == rows[m];
      if TakenDown(db.messages[m]) {
        ids := ids + {m};
      }
      todo := todo - {m};
      RemoveOneMore(rows, db.messages, all, todo, m);
      db.messages := db.messages - {m};
    }
    assert all - todo == all;
  }

  lemma RemoveOneMore(rows: map<nat, DiscordMessage>, now: map<nat, DiscordMessage>,
                      all: set<nat>, todo: set<nat>, m: nat)
    requires m in all && m !in todo && now == rows - (all - (todo + {m}))
    ensures now - {m} == rows - (all - todo)
  {
    assert all - todo == all - (todo + {m}) + {m};
  }

  lemma UnlinkOneMore(txs: Transactions, some: set<nat>, i: nat)
    requires i in txs && i !in some
    ensures var now := UnlinkedSome(txs, some);
            && i in now && now[i] == txs[i]
            && now[i := now[i].(refundOf := None)] == UnlinkedSome(txs, some + {i})
  {
  }

  lemma UnlinkNone(txs: Transactions)
    ensures UnlinkedSome(txs, {}) == txs
  {
  }

  lemma RefundIsThere(txs: Transactions, tx: nat, i: nat)
    requires i in RefundsOf(txs, tx)
    ensures i in txs
  {
  }

  method UnlinkRefunds(db: Database, tx: nat)
    modifies db`transactions
    ensures db.transactions == UnlinkedSome(old(db.transactions), RefundsOf(old(db.transactions), tx))
  {
    hide *;
    ghost var txs := db.transactions;
    var todo := RefundsOf(db.transactions, tx);
    ghost var all, done: set<nat> := todo, {};
    UnlinkNone(txs);
    while todo != {}
      invariant done == all - todo && todo <= all
      invariant db.transactions == UnlinkedSome(txs, done)
      decreases |todo|
    {
      var i :| i in todo;
      RefundIsThere(txs, tx, i);
      UnlinkOneMore(txs, done, i);
      db.transactions := db.transactions[i := db.transactions[i].(refundOf := None)];
      todo, done := todo - {i}, done + {i};
    }
    assert done == all;
  }

  method AskForDeletion(db: Database, ids: set<nat>, ghost t: Jobs, ghost charges: set<nat>, now: int)
    requires Withdrawn(t, db.jobs, charges, {}, now)
    modifies db`jobs
    ensures Withdrawn(t, db.jobs, charges, ids, now)
  {
    hide Withdrawn, Enqueued, UniqueKeys;
    var todo := ids;
    assert ids - todo == {};
    while todo != {}
      invariant todo <= ids && Withdrawn(t, db.jobs, charges, ids - todo, now)
      decreases |todo|
    {
      var m :| m in todo;
      WithdrawnIsUnique(t, db.jobs, charges, ids - todo, now);
      AskWithdraws(t, db.jobs, charges, ids - todo, m, now);
      var job := Enqueue(db, DeleteMessage, ForMessage(m), Some(DeleteKey(m)), now);
      assert ids - (todo - {m}) == ids - todo + {m};
      todo := todo - {m};
    }
    assert ids - todo == ids;
  }

  lemma WithdrawnIsUnique(t: Jobs, t': Jobs, charges: set<nat>, messages: set<nat>, now: int)
    requires Withdrawn(t, t', charges, messages, now)
    ensures UniqueKeys(t')
  {
  }

  /** The email goes with its last charge. */
  method DropEmail(db: Database, email: Option<nat>)
    modifies db`emails
    ensures db.emails == EmailsLeft(old(db.emails), db.transactions, email)
  {
    if email.Some? && !(exists i | i in db.transactions :: db.transactions[i].emailId == email) {
      db.emails := db.emails - {email.value};
    }
  }

  /** The rows that name the charge: its receipts, its messages, the refunds of it. */
  method ClearReferences(db: Database, disk: Disk, tx: nat, deleteReceipts: bool) returns (ids: set<nat>)
    modifies db`attachments, db`messages, db`transactions, disk
    ensures db.attachments == Released(old(db.attachments), tx, deleteReceipts)
    ensures disk.files
            == FilesKept(old(disk.files), old(db.attachments), Receipts(old(db.attachments), tx), deleteReceipts)
    ensures ids == Dangling(old(db.messages), tx) && db.messages == Unrelated(old(db.messages), tx)
    ensures db.transactions == UnlinkedSome(old(db.transactions), RefundsOf(old(db.transactions), tx))
  {
    hide *;
    ReleaseReceipts(db, disk, tx, deleteReceipts);
    ids := ForgetMessages(db, tx);
    UnlinkRefunds(db, tx);
  }

  /** The charge itself, its jobs and its email; `d` is the database before. */
  method DropCharge(db: Database, tx: nat, ids: set<nat>, now: int, ghost d: Db)
    requires tx in d.transactions && UniqueKeys(d.jobs) && DeleteKeysAgree(d.jobs)
    requires db.jobs == d.jobs && db.emails == d.emails
    requires db.transactions == UnlinkedSome(d.transactions, RefundsOf(d.transactions, tx))
    modifies db`jobs, db`transactions, db`emails
    ensures db.transactions == Without(d.transactions, tx)
    ensures db.emails == EmailsWithout(d.emails, d.transactions, tx)
    ensures Withdrawn(d.jobs, db.jobs, {tx}, ids, now)
  {
    hide *;
    RemovalFacts(d, tx, now);
    var removed := DiscardForTransaction(db, tx);
    var email := db.transactions[tx].emailId;
    db.transactions := db.transactions - {tx};
    DropEmail(db, email);
    AskForDeletion(db, ids, d.jobs, {tx}, now);
  }

  method RemoveTransaction(db: Database, disk: Disk, tx: nat, deleteReceipts: bool, now: int)
    requires tx in db.transactions && UniqueKeys(db.jobs) && DeleteKeysAgree(db.jobs)
    modifies db, disk
    ensures ChargeDeleted(old(db.View()), db.View(), tx, deleteReceipts, now)
    ensures disk.files
            == FilesKept(old(disk.files), old(db.attachments), Receipts(old(db.attachments), tx), deleteReceipts)
  {
    hide *;
    ViewIs(db);
    ghost var d := db.View();
    var ids := ClearReferences(db, disk, tx, deleteReceipts);
    DropCharge(db, tx, ids, now, d);
    ViewIs(db);
    DeletedBy(d, db.View(), tx, deleteReceipts, now);
  }

  lemma DeletedBy(d: Db, d': Db, tx: nat, deleteReceipts: bool, now: int)
    requires tx in d.transactions && d'.transactions == Without(d.transactions, tx)
    requires d'.attachments == Released(d.attachments, tx, deleteReceipts)
    requires d'.messages == Unrelated(d.messages, tx)
    requires d'.emails == EmailsWithout(d.emails, d.transactions, tx) && d'.rules == d.rules
    requires Withdrawn(d.jobs, d'.jobs, {tx}, Dangling(d.messages, tx), now)
    ensures ChargeDeleted(d, d', tx, deleteReceipts, now)
  {
    hide Without, Released, Unrelated, EmailsWithout, Withdrawn, Dangling;
  }

  /** A 404 for an unknown code; receipt files go only when asked for. */
  method DeleteTransaction(db: Database, disk: Disk, code: string, deleteReceipts: bool, now: int)
    returns (r: Option<nat>)
    requires UniqueKeys(db.jobs) && DeleteKeysAgree(db.jobs)
    modifies db, disk
    ensures r == WithCode(old(db.transactions), code)
    ensures r.None? ==> db.View() == old(db.View()) && disk.files == old(disk.files)
    ensures r.Some? ==> ChargeDeleted(old(db.View()), db.View(), r.value, deleteReceipts, now)
    ensures r.Some? ==>
              var mine := Receipts(old(db.attachments), r.value);
              disk.files == FilesKept(old(disk.files), old(db.attachments), mine, deleteReceipts)
  {
    hide ChargeDeleted, UniqueKeys, DeleteKeysAgree, WithCode, FilesKept, Receipts;
    r := WithCode(db.transactions, code);
    if r.Some? {
      RemoveTransaction(db, disk, r.value, deleteReceipts, now);
    }
  }

  lemma RemovalFacts(d: Db, tx: nat, now: int)
    requires tx in d.transactions && UniqueKeys(d.jobs) && DeleteKeysAgree(d.jobs)
    ensures Withdrawn(d.jobs, Discarded(d.jobs, tx), {tx}, {}, now)
    ensures var unlinked := UnlinkedSome(d.transactions, RefundsOf(d.transactions, tx));
            && tx in unlinked && unlinked[tx].emailId == d.transactions[tx].emailId
            && unlinked - {tx} == Without(d.transactions, tx)
    ensures EmailsWithout(d.emails, d.transactions, tx)
            == EmailsLeft(d.emails, Without(d.transactions, tx), d.transactions[tx].emailId)
  {
    NothingWithdrawn(d.jobs, now);
    DiscardWithdraws(d.jobs, d.jobs, {}, {}, tx, now);
    assert {} + {tx} == {tx};
  }

  /** `delete_attachment`: only an unassigned receipt can be removed. */
  function AttachmentDeleted(d: Db, files: Files, att: nat): (Db, Files) {
    if att !in d.attachments || d.attachments[att].transactionId.Some? then (d, files)
    else (d.(attachments := d.attachments - {att}), files - {d.attachments[att].path})
  }

  method DeleteAttachment(db: Database, disk: Disk, att: nat)
    modifies db`attachments, disk
    ensures (db.View(), disk.files) == AttachmentDeleted(old(db.View()), old(disk.files), att)
    ensures var row := old(db.attachments);
            if att in row && row[att].transactionId.None? then
              db.attachments == row - {att} && disk.files == old(disk.files) - {row[att].path}
            else db.attachments == row && disk.files == old(disk.files)
  {
    if att !in db.attachments || db.attachments[att].transactionId.Some? {
      return;
    }
    DeleteStoredFile(disk, db.attachments[att].path);
    db.attachments := db.attachments - {att};
  }
}
