/**
 The life of charges and receipts as one state machine: every handler that
 writes the tables is an event, and every committed state satisfies `Inv`.
*/
module Lifecycle {
  import opened Schema
  import opened Ordering
  import opened Outbox
  import opened Withdrawal
  import opened Storage
  import opened ParseRules
  import opened ShortCodes
  import opened Ingest
  import opened Silencing
  import opened Lapsing
  import opened Scheduling
  import opened Bot
  import opened Tasks
  import opened Web
  import opened Invariants

  datatype Event =
    | IngestEvent(email: GraphMessage, parsed: Option<Fields>, defaultCurrency: string, tx: nat)
    | SilenceEvent(request: Request, rule: nat, filed: set<nat>)
    | SweepEvent(hours: int)
    | AnnounceEvent(tx: nat, message: nat)
    | ConfirmEvent(tx: nat, message: nat)
    | MarkEvent(messages: seq<nat>, attachments: seq<nat>)
    | CaptureEvent(file: StoredFile, message: nat)
    | LinkEvent(attachments: seq<nat>, code: string, note: string)
    | AttachEvent(code: string, attachment: nat)
    | AssignEvent(code: string, attachment: nat)
    | DetachEvent(attachment: nat)
    | ResendEvent(code: string, stamp: nat)
    | EditEvent(code: string, edit: Edit)
    | SkipEvent(code: string)
    | DeleteEvent(tx: nat, deleteReceipts: bool)
    | DeleteReceiptEvent(attachment: nat)
    | ReparseEvent(parse: Parser)
    | RulesEvent(rules: map<nat, MerchantRule>)
    | DailyEvent(kind: Kind, stamp: nat, delay: nat)
    | QueueEvent(jobs: Jobs)

  /** A handler that fails is rolled back. */
  function Committed(d: Db, r: Result<Db>): Db {
    if r.Success? then r.value else d
  }

  /**
   One committed session.  Attaching by hand is taken as the form offers it, for
   attachments that are not assigned, and a status set by hand as one that says
   the truth about the charge's receipts.  The database itself refuses a state whose
   job keys repeat.  `QueueEvent` is any of the worker's claims,
   outcomes, recoveries and revivals.
  */
  ghost predicate Step(d: Db, e: Event, now: int, d': Db, re: Regex) {
    UniqueKeys(d.jobs) &&
    match e
    case IngestEvent(m, parsed, currency, tx) => Ingested(d, d', re, m, parsed, currency, now, tx)
    case SilenceEvent(q, r, filed) => r in d'.rules && Silenced(d, d', re, q, now, r, filed)
    case SweepEvent(hours) => d' == d.(transactions := Swept(d.transactions, hours, now))
    case AnnounceEvent(tx, m) => d' == Committed(d, Announced(d, tx, m, now))
    case ConfirmEvent(tx, m) => d' == Committed(d, Confirmed(d, tx, m))
    case MarkEvent(messages, attachments) => d' == MarkedDeleted(d, messages, attachments, now)
    case CaptureEvent(file, m) => d' == Committed(d, Captured(d, file, m))
    case LinkEvent(ids, code, note) => d' == Committed(d, Linked(d, ids, code, note, now))
    case AttachEvent(code, a) =>
      && (a in d.attachments ==> d.attachments[a].transactionId.None?)
      && d' == Committed(d, Attached(d, code, a, now))
    case AssignEvent(code, a) => d' == Committed(d, Assigned(d, code, a, now))
    case DetachEvent(a) => d' == Committed(d, Detached(d, a))
    case ResendEvent(code, stamp) => d' == Committed(d, Resent(d, code, stamp, now))
    case EditEvent(code, edit) => EditFits(d, code, edit) && d' == Committed(d, Edited(d, code, edit))
    case SkipEvent(code) => d' == Skipped(d, code)
    case DeleteEvent(tx, deleteReceipts) => ChargeDeleted(d, d', tx, deleteReceipts, now)
    case DeleteReceiptEvent(a) => d' == AttachmentDeleted(d, map[], a).0
    case ReparseEvent(parse) => d' == Reparsed(d, parse)
    case RulesEvent(rules) => d' == d.(rules := rules)
    case DailyEvent(kind, stamp, delay) =>
      d' == d.(jobs := Enqueued(d.jobs, DailyJob(kind, stamp, now + delay)).0)
    case QueueEvent(jobs) => SameRows(d.jobs, jobs) && d' == d.(jobs := jobs)
  }

  // ---- every event keeps the invariant ---------------------------------------------------

  /** The charge that ingest writes, before the refund link. */
  lemma NewChargeRow(d: Db, re: Regex, m: GraphMessage, parsed: Option<Fields>, currency: string)
    ensures var row := NewCharge(d, re, m, parsed, currency);
            && row.emailId == Some(NextId(d.emails)) && row.shortCode == NextCode(d.transactions)
            && row.refundOf.None? && row.notifyMessageId.None? && row.notifiedAt.None?
            && (row.status.New? || row.status.NeedsAttention? || row.status.NoReceiptRequired?)
  {
    hide NextCode, RuleFor;
  }

  lemma FreshCode(txs: Transactions)
    ensures forall i | i in txs :: txs[i].shortCode != NextCode(txs)
    ensures Allocated(NextCode(txs))
  {
    NextCodeIsAllocated(txs);
    hide FirstTry, Allocated;
    FirstTryIsFree(txs);
  }

  lemma AddedChargeKeepsEmails(txs: Transactions, emails: map<nat, RawEmail>, id: nat, row: Transaction,
                               e: nat, email: RawEmail)
    requires EmailsBack(txs, emails) && id !in txs && e !in emails && row.emailId == Some(e)
    ensures EmailsBack(txs[id := row], emails[e := email])
  {
    var txs' := txs[id := row];
    forall x | x in emails[e := email] ensures exists i | i in txs' :: txs'[i].emailId == Some(x) {
      if x == e {
        assert txs'[id].emailId == Some(x);
      } else {
        var i :| i in txs && txs[i].emailId == Some(x);
        assert txs'[i].emailId == Some(x);
      }
    }
  }

  lemma AddedEmailIsDistinct(emails: map<nat, RawEmail>, e: nat, email: RawEmail)
    requires EmailsDistinct(emails) && !Known(emails, email.internetMessageId) && e !in emails
    ensures EmailsDistinct(emails[e := email])
  {
  }

  /** A fresh charge is nobody's original, so linking it to an unclaimed charge keeps links chain-free. */
  lemma AddedChargeKeepsRefunds(txs: Transactions, id: nat, row: Transaction, refund: Option<nat>)
    requires RefundsFit(txs) && id !in txs && row.refundOf.None? && IsRefundChoice(txs[id := row], id, refund)
    ensures RefundsFit(txs[id := row.(refundOf := refund)])
  {
    var before, after := txs[id := row], txs[id := row.(refundOf := refund)];
    if refund.Some? {
      var o := refund.value;
      assert RefundCandidate(before, id, o);
      forall i | i in txs ensures txs[i].refundOf != Some(o) { assert before[i] == txs[i]; }
    }
  }

  lemma AddedChargeKeepsFiling(txs: Transactions, atts: map<nat, Attachment>, id: nat, row: Transaction)
    requires Filing(txs, atts) && id !in txs && !row.status.ReceiptAttached?
    ensures Filing(txs[id := row], atts)
  {
  }

  lemma AddedChargeKeepsTalk(txs: Transactions, atts: map<nat, Attachment>, messages: map<nat, DiscordMessage>,
                             id: nat, row: Transaction)
    requires Talk(txs, atts, messages) && id !in txs && row.notifyMessageId.None?
    ensures Talk(txs[id := row], atts, messages)
  {
  }

  lemma AddedCharge(d: Db, re: Regex, m: GraphMessage, parsed: Option<Fields>, currency: string,
                    id: nat, refund: Option<nat>)
    requires Inv(d) && id == NextId(d.transactions) && !Known(d.emails, m.internetMessageId)
    requires IsRefundChoice(d.transactions[id := NewCharge(d, re, m, parsed, currency)], id, refund)
    ensures var row := NewCharge(d, re, m, parsed, currency);
            var txs := d.transactions[id := row.(refundOf := refund)];
            && Identity(txs, d.emails[NextId(d.emails) := EmailRow(m, parsed)])
            && Filing(txs, d.attachments) && Talk(txs, d.attachments, d.messages) && Work(txs, d.jobs)
  {
    hide NewCharge, NextCode, IsRefundChoice, Known, EmailsBack, EmailsDistinct, RefundsFit, Filing, Talk, Work,
      Allocated;
    var row := NewCharge(d, re, m, parsed, currency);
    var final := row.(refundOf := refund);
    NewChargeRow(d, re, m, parsed, currency);
    FreshCode(d.transactions);
    AddedChargeKeepsEmails(d.transactions, d.emails, id, final, NextId(d.emails), EmailRow(m, parsed));
    AddedEmailIsDistinct(d.emails, NextId(d.emails), EmailRow(m, parsed));
    AddedChargeKeepsRefunds(d.transactions, id, row, refund);
    AddedChargeKeepsFiling(d.transactions, d.attachments, id, final);
    AddedChargeKeepsTalk(d.transactions, d.attachments, d.messages, id, final);
    SameChargesKeepWork(d.transactions, d.transactions[id := final], d.jobs);
  }

  lemma InvKeys(d: Db)
    requires Inv(d)
    ensures UniqueKeys(d.jobs) && DeleteKeysAgree(d.jobs)
  {
    WorkAgrees(d.transactions, d.jobs);
  }

  lemma IngestKeepsInv(d: Db, d': Db, re: Regex, m: GraphMessage, parsed: Option<Fields>, currency: string,
                       now: int, id: nat)
    requires Inv(d) && Ingested(d, d', re, m, parsed, currency, now, id)
    ensures Inv(d')
  {
    hide NewCharge, IsRefundChoice, Enqueued, Known, Identity, Filing, Talk, Work, EmailRow;
    InvKeys(d);
    var row := NewCharge(d, re, m, parsed, currency);
    var refund :| IsRefundChoice(d.transactions[id := row], id, refund) &&
      d' == d.(emails := d.emails[NextId(d.emails) := EmailRow(m, parsed)],
               transactions := d.transactions[id := row.(refundOf := refund)],
               jobs := if row.status.NoReceiptRequired? then d.jobs else Enqueued(d.jobs, NotifyJob(id, now)).0);
    AddedCharge(d, re, m, parsed, currency, id, refund);
    EnqueueKeepsWork(d'.transactions, d.jobs, NotifyJob(id, now));
  }

  lemma FiledRow(rule: MerchantRule, tx: Transaction)
    ensures var row := Filed(rule, tx);
            && row.emailId == tx.emailId && row.shortCode == tx.shortCode && row.refundOf == tx.refundOf
            && row.notifyMessageId.None? && row.notifiedAt == tx.notifiedAt
            && (rule.skipReceipt ==> row.status.NoReceiptRequired?)
  {
  }

  lemma SilenceKeepsInv(d: Db, d': Db, re: Regex, q: Request, now: int, r: nat, filed: set<nat>)
    requires Inv(d) && r in d'.rules && Silenced(d, d', re, q, now, r, filed)
    ensures Inv(d')
  {
    hide Filed, Withdrawn, Identity, Filing, Talk, Work, Announcements, ToFile;
    RuleIsSet(d.rules, d'.rules, q, r);
    forall tx: Transaction { FiledRow(d'.rules[r], tx); }
    SameChargesKeepIdentity(d.transactions, d'.transactions, d.emails);
    SameChargesKeepTalk(d.transactions, d'.transactions, d.attachments, d.messages);
    SameStatusesKeepFiling(d.transactions, d'.transactions, d.attachments);
    WithdrawingKeepsWork(d.transactions, d'.transactions, d.jobs, d'.jobs, filed,
                         Announcements(d.transactions, filed), now);
  }

  lemma SweepKeepsInv(d: Db, hours: int, now: int)
    requires Inv(d)
    ensures Inv(d.(transactions := Swept(d.transactions, hours, now)))
  {
    hide Identity, Filing, Talk, Work;
    var txs' := Swept(d.transactions, hours, now);
    SameChargesKeepIdentity(d.transactions, txs', d.emails);
    SameChargesKeepTalk(d.transactions, txs', d.attachments, d.messages);
    SameStatusesKeepFiling(d.transactions, txs', d.attachments);
    SameChargesKeepWork(d.transactions, txs', d.jobs);
  }

  /** Changing one row in columns that leave the charge the same. */
  lemma RowKeepsCharges(d: Db, tx: nat, row: Transaction)
    requires Inv(d) && tx in d.transactions
    requires row.emailId == d.transactions[tx].emailId && row.shortCode == d.transactions[tx].shortCode
    requires row.refundOf == d.transactions[tx].refundOf
    ensures Identity(d.transactions[tx := row], d.emails) && Work(d.transactions[tx := row], d.jobs)
  {
    hide Identity, Filing, Talk, Work;
    SameChargesKeepIdentity(d.transactions, d.transactions[tx := row], d.emails);
    SameChargesKeepWork(d.transactions, d.transactions[tx := row], d.jobs);
  }

  lemma AnnounceKeepsTalk(d: Db, tx: nat, m: nat, row: Transaction)
    requires Talk(d.transactions, d.attachments, d.messages) && tx in d.transactions && m !in d.messages
    requires row.notifyMessageId == Some(m)
    ensures Talk(d.transactions[tx := row], d.attachments,
                 d.messages[m := DiscordMessage(Announcement, Some(tx), None)])
  {
  }

  lemma AnnounceKeepsInv(d: Db, tx: nat, m: nat, now: int)
    requires Inv(d) && Announced(d, tx, m, now).Success?
    ensures Inv(Announced(d, tx, m, now).value)
  {
    hide Identity, Work, Filing, Talk;
    if tx in d.transactions {
      var row := AnnouncedRow(d.transactions[tx], m, now);
      RowKeepsCharges(d, tx, row);
      AnnounceKeepsTalk(d, tx, m, row);
      SameStatusesKeepFiling(d.transactions, d.transactions[tx := row], d.attachments);
    }
  }

  lemma ConfirmKeepsInv(d: Db, tx: nat, m: nat)
    requires Inv(d) && Confirmed(d, tx, m).Success?
    ensures Inv(Confirmed(d, tx, m).value)
  {
    hide Identity, Work, Filing;
  }

  /** Marking or adding attachments that stay filed where they are. */
  lemma SameFilingKeeps(txs: Transactions, atts: map<nat, Attachment>, atts': map<nat, Attachment>)
    requires Filing(txs, atts) && atts.Keys <= atts'.Keys
    requires forall a | a in atts ::
               atts'[a].transactionId == atts[a].transactionId && atts'[a].sha256 == atts[a].sha256
    requires forall a | a in atts' && a !in atts :: atts'[a].transactionId.None?
    ensures Filing(txs, atts')
  {
    forall i | i in txs && HasReceipt(atts, i) ensures HasReceipt(atts', i) {
      var a :| a in atts && atts[a].transactionId == Some(i);
      assert atts'[a].transactionId == Some(i);
    }
  }

  lemma MarkKeepsTalk(d: Db, messages: set<nat>, attachments: set<nat>, now: int)
    requires Talk(d.transactions, d.attachments, d.messages)
    ensures Talk(d.transactions, WithSourceDeleted(d.attachments, attachments),
                 WithDeletedAt(d.messages, messages, now))
  {
  }

  lemma MarkKeepsInv(d: Db, messages: seq<nat>, attachments: seq<nat>, now: int)
    requires Inv(d)
    ensures Inv(MarkedDeleted(d, messages, attachments, now))
  {
    hide Identity, Filing, Talk, Work;
    MarkKeepsTalk(d, (set m | m in messages), (set a | a in attachments), now);
    SameFilingKeeps(d.transactions, d.attachments, MarkedDeleted(d, messages, attachments, now).attachments);
  }

  lemma CaptureKeepsTalk(d: Db, file: StoredFile, m: nat)
    requires Talk(d.transactions, d.attachments, d.messages) && m !in d.messages
    ensures Talk(d.transactions, d.attachments[NextId(d.attachments) := AttachmentRow(file, m)],
                 d.messages[m := DiscordMessage(Receipt, None, None)])
  {
    hide NextId;
  }

  lemma CaptureKeepsInv(d: Db, file: StoredFile, m: nat)
    requires Inv(d) && Captured(d, file, m).Success?
    ensures Inv(Captured(d, file, m).value)
  {
    hide Identity, Filing, Talk, Work;
    CaptureKeepsTalk(d, file, m);
    SameFilingKeeps(d.transactions, d.attachments, Captured(d, file, m).value.attachments);
  }

  // receipts change hands

  /** Unassigned attachments go under a charge that no longer asks for a receipt. */
  lemma FilingUnder(txs: Transactions, atts: map<nat, Attachment>, linked: set<nat>, tx: nat, row: Transaction)
    requires Filing(txs, atts) && tx in txs && linked != {}
    requires forall a | a in linked :: a in atts && atts[a].transactionId.None?
    requires UniqueFiles(FiledUnder(atts, linked, tx)) && !Unreceipted(row.status)
    ensures Filing(txs[tx := row], FiledUnder(atts, linked, tx))
  {
    hide UniqueFiles;
    var atts' := FiledUnder(atts, linked, tx);
    var a :| a in linked;
    assert atts'[a].transactionId == Some(tx);
    forall i | i in txs && HasReceipt(atts, i) ensures HasReceipt(atts', i) {
      var b :| b in atts && atts[b].transactionId == Some(i);
      assert atts'[b].transactionId == Some(i);
    }
  }

  /** Attachments only change hands or go; where they came from stays. */
  lemma SameSourcesKeepTalk(txs: Transactions, atts: map<nat, Attachment>, atts': map<nat, Attachment>,
                            messages: map<nat, DiscordMessage>)
    requires Talk(txs, atts, messages)
    requires forall a | a in atts' :: a in atts && atts'[a].sourceMessageId == atts[a].sourceMessageId
    ensures Talk(txs, atts', messages)
  {
  }

  lemma RowKeepsTalk(txs: Transactions, atts: map<nat, Attachment>, messages: map<nat, DiscordMessage>,
                     tx: nat, row: Transaction)
    requires Talk(txs, atts, messages) && tx in txs
    requires row.notifyMessageId.None? || row.notifyMessageId == txs[tx].notifyMessageId
    ensures Talk(txs[tx := row], atts, messages)
  {
  }

  lemma LinkKeepsInv(d: Db, ids: seq<nat>, code: string, note: string, now: int)
    requires Inv(d) && Linked(d, ids, code, note, now).Success?
    ensures Inv(Linked(d, ids, code, note, now).value)
  {
    hide Identity, Filing, Talk, Work, WithCode, UniqueFiles, Linkable, FiledUnder, Enqueued;
    InvKeys(d);
    var found := WithCode(d.transactions, code);
    if found.Some? && Linkable(d.attachments, ids) != {} {
      LinkToKeepsInv(d, ids, found.value, note, now);
    }
  }

  lemma LinkableRows(atts: map<nat, Attachment>, ids: seq<nat>)
    ensures forall a | a in Linkable(atts, ids) :: a in atts && atts[a].transactionId.None?
  {
  }

  lemma FiledUnderSources(atts: map<nat, Attachment>, linked: set<nat>, tx: nat)
    ensures var atts' := FiledUnder(atts, linked, tx);
            forall a | a in atts' :: a in atts && atts'[a].sourceMessageId == atts[a].sourceMessageId
  {
  }

  lemma LinkToKeepsInv(d: Db, ids: seq<nat>, tx: nat, note: string, now: int)
    requires Inv(d) && tx in d.transactions && Linkable(d.attachments, ids) != {} && UniqueKeys(d.jobs)
    requires LinkedTo(d, ids, tx, note, now).Success?
    ensures Inv(LinkedTo(d, ids, tx, note, now).value)
  {
    hide Identity, Filing, Talk, Work, UniqueFiles, Linkable, FiledUnder, Enqueued;
    var linked := Linkable(d.attachments, ids);
    var row := Receipted(d.transactions[tx], note, now);
    LinkedNone(d.attachments, ids, tx);
    LinkableRows(d.attachments, ids);
    FilingUnder(d.transactions, d.attachments, linked, tx, row);
    RowKeepsCharges(d, tx, row);
    FiledUnderSources(d.attachments, linked, tx);
    SameSourcesKeepTalk(d.transactions, d.attachments, FiledUnder(d.attachments, linked, tx), d.messages);
    RowKeepsTalk(d.transactions, FiledUnder(d.attachments, linked, tx), d.messages, tx, row);
    EnqueueKeepsWork(d.transactions[tx := row], d.jobs, FinalizeJob(tx, ids, now));
  }

  /** By hand, with an attachment from the orphan queue. */
  lemma AttachKeepsInv(d: Db, code: string, a: nat, now: int)
    requires Inv(d) && Attached(d, code, a, now).Success? && d.attachments[a].transactionId.None?
    ensures Inv(Attached(d, code, a, now).value)
  {
    hide Identity, Filing, Talk, Work, WithCode, UniqueFiles, FiledUnder;
    var tx := WithCode(d.transactions, code).value;
    var row := HandReceipted(d.transactions[tx], now);
    OneFiledUnder(d.attachments, a, tx);
    FilingUnder(d.transactions, d.attachments, {a}, tx, row);
    RowKeepsCharges(d, tx, row);
    FiledUnderSources(d.attachments, {a}, tx);
    SameSourcesKeepTalk(d.transactions, d.attachments, FiledUnder(d.attachments, {a}, tx), d.messages);
    RowKeepsTalk(d.transactions, FiledUnder(d.attachments, {a}, tx), d.messages, tx, row);
  }

  lemma OneFiledUnder(atts: map<nat, Attachment>, a: nat, tx: nat)
    requires a in atts
    ensures FiledUnder(atts, {a}, tx) == atts[a := atts[a].(transactionId := Some(tx))]
  {
  }

  lemma AssignKeepsInv(d: Db, code: string, a: nat, now: int)
    requires Inv(d) && Assigned(d, code, a, now).Success?
    ensures Inv(Assigned(d, code, a, now).value)
  {
    hide Identity, Filing, Talk, Work, WithCode, UniqueFiles;
    if !(a in d.attachments && d.attachments[a].transactionId.Some? && WithCode(d.transactions, code).Some?) {
      AttachKeepsInv(d, code, a, now);
    }
  }

  /** An attachment leaves its charge, or was under none. */
  lemma LeavingKeepsFiling(txs: Transactions, atts: map<nat, Attachment>, a: nat)
    requires Filing(txs, atts) && a in atts
    requires atts[a].transactionId.Some? && txs[atts[a].transactionId.value].status.ReceiptAttached? ==>
               Receipts(atts, atts[a].transactionId.value) != {a}
    ensures Filing(txs, atts[a := atts[a].(transactionId := None)])
  {
    var atts' := atts[a := atts[a].(transactionId := None)];
    forall i | i in txs && txs[i].status.ReceiptAttached? ensures HasReceipt(atts', i) {
      var b :| b in atts && atts[b].transactionId == Some(i);
      assert b in Receipts(atts, i);
      if b == a {
        OtherReceipt(atts, a, i);
        b :| b in Receipts(atts, i) && b != a;
      }
      assert atts'[b].transactionId == Some(i);
    }
  }

  lemma OtherReceipt(atts: map<nat, Attachment>, a: nat, tx: nat)
    requires a in Receipts(atts, tx) && Receipts(atts, tx) != {a}
    ensures exists b :: b in Receipts(atts, tx) && b != a
  {
    var rest := Receipts(atts, tx) - {a};
    assert Receipts(atts, tx) == {a} + rest;
    var b :| b in rest;
  }

  /** The last receipt leaves, and the charge asks for one again. */
  lemma LastLeavingKeepsFiling(txs: Transactions, atts: map<nat, Attachment>, a: nat, tx: nat, row: Transaction)
    requires Filing(txs, atts) && tx in txs && Receipts(atts, tx) == {a} && row.status.Notified?
    ensures a in atts && Filing(txs[tx := row], atts[a := atts[a].(transactionId := None)])
  {
    assert a in Receipts(atts, tx);
    var atts' := atts[a := atts[a].(transactionId := None)];
    forall b | b in atts' && atts'[b].transactionId.Some? ensures atts'[b].transactionId != Some(tx) {
      if atts[b].transactionId == Some(tx) {
        assert b in Receipts(atts, tx);
      }
    }
    forall i | i in txs && i != tx && HasReceipt(atts, i) ensures HasReceipt(atts', i) {
      var b :| b in atts && atts[b].transactionId == Some(i);
      assert b != a && atts'[b].transactionId == Some(i);
    }
  }

  lemma DetachKeepsFiling(d: Db, a: nat)
    requires Filing(d.transactions, d.attachments) && Detached(d, a).Success?
    ensures Filing(Detached(d, a).value.transactions, Detached(d, a).value.attachments)
  {
    hide Receipts, UniqueFiles, HasReceipt;
    var was := d.attachments[a].transactionId;
    if was.Some? && d.transactions[was.value].status.ReceiptAttached? && Receipts(d.attachments, was.value) == {a} {
      LastLeavingKeepsFiling(d.transactions, d.attachments, a, was.value,
                             d.transactions[was.value].(status := Notified, matchedAt := None));
    } else {
      LeavingKeepsFiling(d.transactions, d.attachments, a);
    }
  }

  lemma DetachKeepsInv(d: Db, a: nat)
    requires Inv(d) && Detached(d, a).Success?
    ensures Inv(Detached(d, a).value)
  {
    hide Identity, Filing, Talk, Work, Receipts;
    var d' := Detached(d, a).value;
    DetachKeepsFiling(d, a);
    SameSourcesKeepTalk(d.transactions, d.attachments, d'.attachments, d.messages);
    if d'.transactions != d.transactions {
      var tx := d.attachments[a].transactionId.value;
      RowKeepsCharges(d, tx, d'.transactions[tx]);
      RowKeepsTalk(d.transactions, d'.attachments, d.messages, tx, d'.transactions[tx]);
    }
  }

  lemma ResendKeepsInv(d: Db, code: string, stamp: nat, now: int)
    requires Inv(d) && Resent(d, code, stamp, now).Success?
    ensures Inv(Resent(d, code, stamp, now).value)
  {
    hide Identity, Filing, Talk, Work, WithCode, Enqueued;
    InvKeys(d);
    var tx := WithCode(d.transactions, code).value;
    var row := d.transactions[tx].(notifyMessageId := None);
    RowKeepsCharges(d, tx, row);
    RowKeepsTalk(d.transactions, d.attachments, d.messages, tx, row);
    SameStatusesKeepFiling(d.transactions, d.transactions[tx := row], d.attachments);
    EnqueueKeepsWork(d.transactions[tx := row], d.jobs, RenotifyJob(tx, stamp, now));
  }

  /** Editing columns that carry no bookkeeping, or filing the charge as it is. */
  lemma RowKeepsInv(d: Db, tx: nat, row: Transaction)
    requires Inv(d) && tx in d.transactions
    requires row.emailId == d.transactions[tx].emailId && row.shortCode == d.transactions[tx].shortCode
    requires row.refundOf == d.transactions[tx].refundOf && row.notifyMessageId == d.transactions[tx].notifyMessageId
    requires row.status == d.transactions[tx].status || StatusFits(d.attachments, tx, row.status)
    ensures Inv(d.(transactions := d.transactions[tx := row]))
  {
    hide Identity, Filing, Talk, Work, StatusFits;
    RowKeepsCharges(d, tx, row);
    RowKeepsTalk(d.transactions, d.attachments, d.messages, tx, row);
    StatusKeepsFiling(d.transactions, d.attachments, tx, row);
  }

  lemma StatusKeepsFiling(txs: Transactions, atts: map<nat, Attachment>, tx: nat, row: Transaction)
    requires Filing(txs, atts) && tx in txs
    requires row.status == txs[tx].status || StatusFits(atts, tx, row.status)
    ensures Filing(txs[tx := row], atts)
  {
    hide UniqueFiles;
    HasReceiptMeans(atts, tx);
    var txs' := txs[tx := row];
    forall a | a in atts && atts[a].transactionId.Some?
      ensures atts[a].transactionId.value in txs' && !Unreceipted(txs'[atts[a].transactionId.value].status)
    {
      if atts[a].transactionId.value == tx { assert HasReceipt(atts, tx); }
    }
  }

  lemma HasReceiptMeans(atts: map<nat, Attachment>, tx: nat)
    ensures HasReceipt(atts, tx) <==> Receipts(atts, tx) != {}
  {
    if HasReceipt(atts, tx) {
      var a :| a in atts && atts[a].transactionId == Some(tx);
      assert a in Receipts(atts, tx);
    }
  }

  lemma SkipKeepsInv(d: Db, code: string)
    requires Inv(d)
    ensures Inv(Skipped(d, code))
  {
    hide Inv, WithCode;
    var found := WithCode(d.transactions, code);
    if found.Some? {
      RowKeepsInv(d, found.value, d.transactions[found.value].(status := NoReceiptRequired));
    }
  }

  lemma EditKeepsInv(d: Db, code: string, edit: Edit)
    requires Inv(d) && EditFits(d, code, edit)
    ensures Inv(Committed(d, Edited(d, code, edit)))
  {
    hide Inv, WithCode, StatusFits;
    var found := WithCode(d.transactions, code);
    if found.Some? {
      RowKeepsInv(d, found.value, EditedRow(d.transactions[found.value], edit));
    }
  }

  /** Unassigned attachments may go. */
  lemma DroppingKeepsFiling(txs: Transactions, atts: map<nat, Attachment>, a: nat)
    requires Filing(txs, atts) && a in atts && atts[a].transactionId.None?
    ensures Filing(txs, atts - {a})
  {
    forall i | i in txs && HasReceipt(atts, i) ensures HasReceipt(atts - {a}, i) {
      var b :| b in atts && atts[b].transactionId == Some(i);
      assert (atts - {a})[b].transactionId == Some(i);
    }
  }

  lemma DeleteReceiptKeepsInv(d: Db, a: nat)
    requires Inv(d)
    ensures Inv(AttachmentDeleted(d, map[], a).0)
  {
    hide Identity, Filing, Talk, Work;
    if a in d.attachments && d.attachments[a].transactionId.None? {
      SameSourcesKeepTalk(d.transactions, d.attachments, d.attachments - {a}, d.messages);
      DroppingKeepsFiling(d.transactions, d.attachments, a);
    }
  }

  lemma ReparseKeepsInv(d: Db, parse: Parser)
    requires Inv(d)
    ensures Inv(Reparsed(d, parse))
  {
    hide Identity, Filing, Talk, Work, Fixable;
    var d' := Reparsed(d, parse);
    SameChargesKeepIdentity(d.transactions, d'.transactions, d.emails);
    ClearedKeepsIdentity(d'.transactions, d.emails, Fixable(d.emails, parse));
    SameChargesKeepTalk(d.transactions, d'.transactions, d.attachments, d.messages);
    SameStatusesKeepFiling(d.transactions, d'.transactions, d.attachments);
    SameChargesKeepWork(d.transactions, d'.transactions, d.jobs);
  }

  lemma ClearedKeepsIdentity(txs: Transactions, emails: map<nat, RawEmail>, fixed: set<nat>)
    requires Identity(txs, emails)
    ensures Identity(txs, Cleared(emails, fixed))
  {
    hide CodesDistinct, CodesAllocated, RefundsFit;
  }

  // deleting a charge

  lemma WithoutKeepsRefunds(txs: Transactions, tx: nat)
    requires RefundsFit(txs) && tx in txs
    ensures RefundsFit(Without(txs, tx))
  {
    hide Without;
    WithoutRows(txs, tx);
    var txs' := Without(txs, tx);
    forall i | i in txs' && txs'[i].refundOf.Some?
      ensures txs'[i].refundOf.value in txs' && txs'[txs'[i].refundOf.value].refundOf.None?
    {
      assert txs[i].refundOf == txs'[i].refundOf;
    }
  }

  lemma WithoutKeepsIdentity(txs: Transactions, emails: map<nat, RawEmail>, tx: nat)
    requires Identity(txs, emails) && tx in txs
    ensures Identity(Without(txs, tx), EmailsWithout(emails, txs, tx))
  {
    hide Without, RefundsFit, EmailsBack, EmailsLeft, Allocated;
    WithoutRows(txs, tx);
    WithoutKeepsEmails(txs, Without(txs, tx), emails, tx);
    WithoutKeepsRefunds(txs, tx);
  }

  lemma WithoutRows(txs: Transactions, tx: nat)
    ensures Without(txs, tx).Keys == txs.Keys - {tx}
    ensures forall i | i in Without(txs, tx) ::
              var row := Without(txs, tx)[i];
              && row == txs[i].(refundOf := row.refundOf)
              && row.refundOf == (if txs[i].refundOf == Some(tx) then None else txs[i].refundOf)
  {
  }

  lemma WithoutKeepsEmails(txs: Transactions, txs': Transactions, emails: map<nat, RawEmail>, tx: nat)
    requires EmailsBack(txs, emails) && tx in txs && txs'.Keys == txs.Keys - {tx}
    requires forall i | i in txs' :: txs'[i].emailId == txs[i].emailId
    ensures EmailsLeft(emails, txs', txs[tx].emailId) == emails - {txs[tx].emailId.value}
    ensures EmailsBack(txs', emails - {txs[tx].emailId.value})
  {
    var mine := txs[tx].emailId.value;
    forall e | e in emails && e != mine ensures exists i | i in txs' :: txs'[i].emailId == Some(e) {
      var i :| i in txs && txs[i].emailId == Some(e);
      assert txs'[i].emailId == Some(e);
    }
  }

  lemma ReleasedRow(atts: map<nat, Attachment>, tx: nat, deleteReceipts: bool)
    ensures var atts' := Released(atts, tx, deleteReceipts);
            && (forall a | a in atts' ::
                  && a in atts && atts'[a].sourceMessageId == atts[a].sourceMessageId
                  && atts'[a].sha256 == atts[a].sha256 && atts'[a].transactionId != Some(tx)
                  && (atts'[a].transactionId.Some? ==> atts'[a].transactionId == atts[a].transactionId))
            && (forall a | a in atts && atts[a].transactionId != Some(tx) :: a in atts' && atts'[a] == atts[a])
  {
  }

  lemma ReleasingKeepsFiling(txs: Transactions, txs': Transactions, atts: map<nat, Attachment>, tx: nat,
                             deleteReceipts: bool)
    requires Filing(txs, atts) && txs'.Keys == txs.Keys - {tx}
    requires forall i | i in txs' :: txs'[i].status == txs[i].status
    ensures Filing(txs', Released(atts, tx, deleteReceipts))
  {
    hide Released;
    ReleasedRow(atts, tx, deleteReceipts);
    var atts' := Released(atts, tx, deleteReceipts);
    forall i | i in txs' && HasReceipt(atts, i) ensures HasReceipt(atts', i) {
      var a :| a in atts && atts[a].transactionId == Some(i);
      assert atts'[a].transactionId == Some(i);
    }
  }

  lemma ForgettingKeepsTalk(txs: Transactions, txs': Transactions, atts: map<nat, Attachment>,
                            messages: map<nat, DiscordMessage>, tx: nat)
    requires Talk(txs, atts, messages) && txs'.Keys == txs.Keys - {tx}
    requires forall i | i in txs' :: txs'[i].notifyMessageId == txs[i].notifyMessageId
    ensures Talk(txs', atts, Unrelated(messages, tx))
  {
  }

  lemma DeleteKeepsInv(d: Db, d': Db, tx: nat, deleteReceipts: bool, now: int)
    requires Inv(d) && ChargeDeleted(d, d', tx, deleteReceipts, now)
    ensures Inv(d')
  {
    hide Identity, Filing, Talk, Work, Without, Released, Unrelated, EmailsWithout, Withdrawn, Dangling;
    WithoutRows(d.transactions, tx);
    WithoutKeepsIdentity(d.transactions, d.emails, tx);
    ReleasingKeepsFiling(d.transactions, d'.transactions, d.attachments, tx, deleteReceipts);
    ReleasedRow(d.attachments, tx, deleteReceipts);
    ForgettingKeepsTalk(d.transactions, d'.transactions, d.attachments, d.messages, tx);
    SameSourcesKeepTalk(d'.transactions, d.attachments, d'.attachments, d'.messages);
    WithdrawingKeepsWork(d.transactions, d'.transactions, d.jobs, d'.jobs, {tx}, Dangling(d.messages, tx), now);
  }

  // ---- every run ------------------------------------------------------------------------

  predicate Background(e: Event) {
    || e.IngestEvent? || e.SilenceEvent? || e.SweepEvent? || e.AnnounceEvent? || e.ConfirmEvent? || e.MarkEvent?
    || e.CaptureEvent? || e.LinkEvent? || e.DailyEvent? || e.QueueEvent?
  }

  /** The sessions of the poller, the scheduler and the bot. */
  lemma BackgroundStepKeepsInv(d: Db, e: Event, now: int, d': Db, re: Regex)
    requires Inv(d) && Step(d, e, now, d', re)
    ensures Background(e) ==> Inv(d')
  {
    hide Inv, Ingested, Silenced, Swept, Announced, Confirmed, MarkedDeleted, Captured, Linked, Attached, Assigned,
      Detached, Resent, Edited, Skipped, ChargeDeleted, AttachmentDeleted, Reparsed, Enqueued, UniqueKeys;
    match e
    case IngestEvent(m, parsed, currency, tx) => IngestKeepsInv(d, d', re, m, parsed, currency, now, tx);
    case SilenceEvent(q, r, filed) => SilenceKeepsInv(d, d', re, q, now, r, filed);
    case SweepEvent(hours) => SweepKeepsInv(d, hours, now);
    case AnnounceEvent(tx, m) => if Announced(d, tx, m, now).Success? { AnnounceKeepsInv(d, tx, m, now); }
    case ConfirmEvent(tx, m) => if Confirmed(d, tx, m).Success? { ConfirmKeepsInv(d, tx, m); }
    case MarkEvent(messages, attachments) => MarkKeepsInv(d, messages, attachments, now);
    case CaptureEvent(file, m) => if Captured(d, file, m).Success? { CaptureKeepsInv(d, file, m); }
    case LinkEvent(ids, code, note) =>
      if Linked(d, ids, code, note, now).Success? { LinkKeepsInv(d, ids, code, note, now); }
    case DailyEvent(kind, stamp, delay) => DailyKeepsInv(d, kind, stamp, now + delay);
    case QueueEvent(jobs) => QueueKeepsInv(d, jobs);
    case _ =>
  }

  /** Each committed session keeps the invariant. */
  lemma StepKeepsInv(d: Db, e: Event, now: int, d': Db, re: Regex)
    requires Inv(d) && Step(d, e, now, d', re)
    ensures Inv(d')
  {
    hide Inv, Ingested, Silenced, Swept, Announced, Confirmed, MarkedDeleted, Captured, Linked, Attached, Assigned,
      Detached, Resent, Edited, Skipped, ChargeDeleted, AttachmentDeleted, Reparsed, Enqueued, UniqueKeys;
    match e
    case AttachEvent(code, a) => AttachStepKeepsInv(d, code, a, now);
    case AssignEvent(code, a) => if Assigned(d, code, a, now).Success? { AssignKeepsInv(d, code, a, now); }
    case DetachEvent(a) => if Detached(d, a).Success? { DetachKeepsInv(d, a); }
    case ResendEvent(code, stamp) =>
      if Resent(d, code, stamp, now).Success? { ResendKeepsInv(d, code, stamp, now); }
    case EditEvent(code, edit) => EditKeepsInv(d, code, edit);
    case SkipEvent(code) => SkipKeepsInv(d, code);
    case DeleteEvent(tx, deleteReceipts) => DeleteKeepsInv(d, d', tx, deleteReceipts, now);
    case DeleteReceiptEvent(a) => DeleteReceiptKeepsInv(d, a);
    case ReparseEvent(parse) => ReparseKeepsInv(d, parse);
    case RulesEvent(rules) => RulesKeepInv(d, rules);
    case _ => BackgroundStepKeepsInv(d, e, now, d', re);
  }

  lemma AttachStepKeepsInv(d: Db, code: string, a: nat, now: int)
    requires Inv(d) && (a in d.attachments ==> d.attachments[a].transactionId.None?)
    ensures Inv(Committed(d, Attached(d, code, a, now)))
  {
    hide Inv, UniqueFiles, WithCode;
    if Attached(d, code, a, now).Success? { AttachKeepsInv(d, code, a, now); }
  }

  lemma RulesKeepInv(d: Db, rules: map<nat, MerchantRule>)
    requires Inv(d)
    ensures Inv(d.(rules := rules))
  {
    hide Identity, Filing, Talk, Work;
  }

  lemma DailyKeepsInv(d: Db, kind: Kind, stamp: nat, at: int)
    requires Inv(d) && UniqueKeys(d.jobs)
    ensures Inv(d.(jobs := Enqueued(d.jobs, DailyJob(kind, stamp, at)).0))
  {
    hide Identity, Filing, Talk, Work, Enqueued;
    EnqueueKeepsWork(d.transactions, d.jobs, DailyJob(kind, stamp, at));
  }

  lemma QueueKeepsInv(d: Db, jobs: Jobs)
    requires Inv(d) && SameRows(d.jobs, jobs)
    ensures Inv(d.(jobs := jobs))
  {
    hide Identity, Filing, Talk, Work;
    SameRowsKeepWork(d.transactions, d.jobs, jobs);
  }
}
