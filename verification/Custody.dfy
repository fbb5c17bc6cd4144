/**
 Who a Discord message belongs to, and what the database promises about the
 uploads it has captured.
*/
module Custody {
  import opened Schema
  import opened Ordering
  import opened Outbox
  import opened Withdrawal
  import opened Storage
  import opened ParseRules
  import opened Ingest
  import opened Silencing
  import opened Lapsing
  import opened Scheduling
  import opened Bot
  import opened Tasks
  import opened Web
  import opened Invariants
  import opened Lifecycle

  /** The files uploaders sent, message by message, which captures were declared conversions, and what the bot sent. */
  datatype Ledger = Ledger(uploads: map<nat, seq<Data>>, converted: set<nat>, sent: set<nat>)

  /** One of the files of the message has this checksum. */
  predicate Carries(h: Hash, l: Ledger, m: nat, sha256: string) {
    m in l.uploads && exists i | 0 <= i < |l.uploads[m]| :: h(l.uploads[m][i]) == sha256
  }

  /** The row's checksum is that of a file of the upload, unless normalization said it converted it. */
  predicate Faithful(h: Hash, att: Attachment, l: Ledger) {
    att.sourceMessageId.Some? ==>
      var m := att.sourceMessageId.value;
      m in l.uploads && (m in l.converted || Carries(h, l, m, att.sha256))
  }

  /** Recorded uploads are uploads; every other record is of a message the bot sent. */
  ghost predicate RecordsOwned(messages: map<nat, DiscordMessage>, l: Ledger) {
    forall m | m in messages :: if messages[m].kind.Receipt? then m in l.uploads else m in l.sent
  }

  /** Deletion jobs are only about messages the bot sent. */
  ghost predicate JobsOwned(t: Jobs, l: Ledger) {
    forall i | i in t && t[i].payload.ForMessage? :: t[i].payload.message in l.sent
  }

  ghost predicate FilesOwned(h: Hash, atts: map<nat, Attachment>, l: Ledger) {
    forall a | a in atts :: Faithful(h, atts[a], l)
  }

  ghost predicate Owned(h: Hash, d: Db, l: Ledger) {
    RecordsOwned(d.messages, l) && JobsOwned(d.jobs, l) && FilesOwned(h, d.attachments, l)
  }

  // ---- the tables' rows come from rows ------------------------------------------------------

  predicate SameFile(a: Attachment, b: Attachment) {
    a.path == b.path && a.bytes == b.bytes && a.sha256 == b.sha256 && a.sourceMessageId == b.sourceMessageId
  }

  /** No new attachment; the old ones name the same files. */
  ghost predicate SubFiles(atts: map<nat, Attachment>, atts': map<nat, Attachment>) {
    forall a | a in atts' :: a in atts && SameFile(atts[a], atts'[a])
  }

  /** No new record, and none of another kind. */
  ghost predicate SubRecords(messages: map<nat, DiscordMessage>, messages': map<nat, DiscordMessage>) {
    forall m | m in messages' :: m in messages && messages'[m].kind == messages[m].kind
  }

  lemma SubsOwned(h: Hash, d: Db, d': Db, l: Ledger)
    requires Owned(h, d, l) && SubFiles(d.attachments, d'.attachments) && SubRecords(d.messages, d'.messages)
    requires JobsOwned(d'.jobs, l)
    ensures Owned(h, d', l)
  {
  }

  lemma EnqueueOwned(t: Jobs, j: Job, l: Ledger)
    requires UniqueKeys(t) && JobsOwned(t, l) && !j.payload.ForMessage?
    ensures JobsOwned(Enqueued(t, j).0, l)
  {
  }

  lemma WithdrawingOwned(t: Jobs, t': Jobs, charges: set<nat>, messages: set<nat>, now: int, l: Ledger)
    requires JobsOwned(t, l) && Withdrawn(t, t', charges, messages, now) && messages <= l.sent
    ensures JobsOwned(t', l)
  {
    forall i | i in t' && t'[i].payload.ForMessage? ensures t'[i].payload.message in l.sent {
      assert Accounted(t, t', i, charges, messages, now);
    }
  }

  /** A charge's announcement is a message of the bot. */
  lemma AnnouncementIsSent(h: Hash, d: Db, l: Ledger, tx: nat)
    requires Inv(d) && Owned(h, d, l) && tx in d.transactions && d.transactions[tx].notifyMessageId.Some?
    ensures d.transactions[tx].notifyMessageId.value in l.sent
  {
    assert AnnouncementsFit(d.transactions, d.messages);
  }

  lemma AnnouncementsAreSent(h: Hash, d: Db, l: Ledger, charges: set<nat>)
    requires Inv(d) && Owned(h, d, l)
    ensures Announcements(d.transactions, charges) <= l.sent
  {
    hide Inv, Owned;
    forall m | m in Announcements(d.transactions, charges) ensures m in l.sent {
      var i :| i in charges && i in d.transactions && d.transactions[i].notifyMessageId == Some(m);
      AnnouncementIsSent(h, d, l, i);
    }
  }

  lemma DanglingIsSent(messages: map<nat, DiscordMessage>, l: Ledger, tx: nat)
    requires RecordsOwned(messages, l)
    ensures Dangling(messages, tx) <= l.sent
  {
  }

  // ---- every session ------------------------------------------------------------------------

  /** The sessions that record a message or a capture; the protocol has steps of its own for them. */
  predicate Records(e: Event) {
    e.AnnounceEvent? || e.ConfirmEvent? || e.CaptureEvent?
  }

  lemma SilenceOwned(h: Hash, d: Db, d': Db, re: Regex, q: Request, now: int, r: nat, filed: set<nat>, l: Ledger)
    requires Inv(d) && Owned(h, d, l) && r in d'.rules && Silenced(d, d', re, q, now, r, filed)
    ensures Owned(h, d', l)
  {
    hide Inv, RuleSet, ToFile, WithFiled, Withdrawn, Announcements;
    AnnouncementsAreSent(h, d, l, filed);
    WithdrawingOwned(d.jobs, d'.jobs, filed, Announcements(d.transactions, filed), now, l);
    SubsOwned(h, d, d', l);
  }

  lemma DeleteOwned(h: Hash, d: Db, d': Db, tx: nat, deleteReceipts: bool, now: int, l: Ledger)
    requires Owned(h, d, l) && ChargeDeleted(d, d', tx, deleteReceipts, now)
    ensures Owned(h, d', l)
  {
    hide Withdrawn, Dangling, Without, EmailsWithout;
    DanglingIsSent(d.messages, l, tx);
    WithdrawingOwned(d.jobs, d'.jobs, {tx}, Dangling(d.messages, tx), now, l);
    SubsOwned(h, d, d', l);
  }

  lemma IngestOwned(h: Hash, d: Db, d': Db, re: Regex, m: GraphMessage, parsed: Option<Fields>, currency: string,
                    now: int, id: nat, l: Ledger)
    requires UniqueKeys(d.jobs) && Owned(h, d, l) && Ingested(d, d', re, m, parsed, currency, now, id)
    ensures Owned(h, d', l)
  {
    hide NewCharge, IsRefundChoice, Known, EmailRow, Enqueued, UniqueKeys, Owned;
    EnqueueOwnedDb(h, d, NotifyJob(id, now), l);
    SubsOwnedSame(h, d, d', l);
    SubsOwnedSame(h, d.(jobs := Enqueued(d.jobs, NotifyJob(id, now)).0), d', l);
  }

  lemma EnqueueOwnedDb(h: Hash, d: Db, j: Job, l: Ledger)
    requires UniqueKeys(d.jobs) && Owned(h, d, l) && !j.payload.ForMessage?
    ensures Owned(h, d.(jobs := Enqueued(d.jobs, j).0), l)
  {
    hide Enqueued;
    EnqueueOwned(d.jobs, j, l);
  }

  lemma SubsOwnedSame(h: Hash, d: Db, d': Db, l: Ledger)
    requires Owned(h, d, l)
    ensures d'.attachments == d.attachments && d'.messages == d.messages && d'.jobs == d.jobs ==> Owned(h, d', l)
  {
  }

  lemma LinkOwned(h: Hash, d: Db, ids: seq<nat>, code: string, note: string, now: int, l: Ledger)
    requires UniqueKeys(d.jobs) && Owned(h, d, l)
    ensures Owned(h, Committed(d, Linked(d, ids, code, note, now)), l)
  {
    hide WithCode, Linkable, UniqueFiles, Enqueued, UniqueKeys, Owned;
    var found := WithCode(d.transactions, code);
    if found.Some? && Linkable(d.attachments, ids) != {} && ids != [] {
      var job := FinalizeJob(found.value, ids, now);
      EnqueueOwnedDb(h, d, job, l);
      var d1 := d.(jobs := Enqueued(d.jobs, job).0);
      var d' := Committed(d, Linked(d, ids, code, note, now));
      OwnedParts(h, d1, l);
      if Linked(d, ids, code, note, now).Success? { SubsOwned(h, d1, d', l); }
    }
  }

  lemma OwnedParts(h: Hash, d: Db, l: Ledger)
    requires Owned(h, d, l)
    ensures JobsOwned(d.jobs, l)
  {
  }

  lemma AttachOwned(h: Hash, d: Db, code: string, a: nat, now: int, l: Ledger)
    requires Owned(h, d, l)
    ensures Owned(h, Committed(d, Attached(d, code, a, now)), l)
    ensures Owned(h, Committed(d, Assigned(d, code, a, now)), l)
  {
    hide WithCode, UniqueFiles, Owned, HandReceipted;
    OwnedParts(h, d, l);
    SubsOwned(h, d, Committed(d, Attached(d, code, a, now)), l);
  }

  lemma DetachOwned(h: Hash, d: Db, a: nat, l: Ledger)
    requires Owned(h, d, l)
    ensures Owned(h, Committed(d, Detached(d, a)), l)
  {
    hide Receipts, Owned;
    OwnedParts(h, d, l);
    SubsOwned(h, d, Committed(d, Detached(d, a)), l);
  }

  lemma DropOwned(h: Hash, d: Db, a: nat, l: Ledger)
    requires Owned(h, d, l)
    ensures Owned(h, AttachmentDeleted(d, map[], a).0, l)
  {
    hide Owned;
    OwnedParts(h, d, l);
    SubsOwned(h, d, AttachmentDeleted(d, map[], a).0, l);
  }

  lemma MarkOwned(h: Hash, d: Db, messages: seq<nat>, attachments: seq<nat>, now: int, l: Ledger)
    requires Owned(h, d, l)
    ensures Owned(h, MarkedDeleted(d, messages, attachments, now), l)
  {
    hide Owned;
    OwnedParts(h, d, l);
    SubsOwned(h, d, MarkedDeleted(d, messages, attachments, now), l);
  }

  lemma ResendOwned(h: Hash, d: Db, code: string, stamp: nat, now: int, l: Ledger)
    requires UniqueKeys(d.jobs) && Owned(h, d, l)
    ensures Owned(h, Committed(d, Resent(d, code, stamp, now)), l)
  {
    hide WithCode, Enqueued, UniqueKeys, Owned;
    var found := WithCode(d.transactions, code);
    if found.Some? {
      var job := RenotifyJob(found.value, stamp, now);
      EnqueueOwnedDb(h, d, job, l);
      SubsOwnedSame(h, d.(jobs := Enqueued(d.jobs, job).0), Committed(d, Resent(d, code, stamp, now)), l);
    }
  }

  lemma QueueOwned(h: Hash, d: Db, jobs: Jobs, l: Ledger)
    requires Owned(h, d, l) && SameRows(d.jobs, jobs)
    ensures Owned(h, d.(jobs := jobs), l)
  {
  }

  /** Sessions that only touch charges, emails or rules. */
  lemma ChargesOwned(h: Hash, d: Db, code: string, edit: Edit, hours: int, parse: Parser,
                     rules: map<nat, MerchantRule>, now: int, l: Ledger)
    requires Owned(h, d, l)
    ensures Owned(h, Committed(d, Edited(d, code, edit)), l) && Owned(h, Skipped(d, code), l)
    ensures Owned(h, d.(transactions := Swept(d.transactions, hours, now)), l)
    ensures Owned(h, Reparsed(d, parse), l) && Owned(h, d.(rules := rules), l)
  {
    hide WithCode, Owned, Swept, EditedRow, WithFields, Fixable, Cleared;
    SubsOwnedSame(h, d, Committed(d, Edited(d, code, edit)), l);
    SubsOwnedSame(h, d, Skipped(d, code), l);
    SubsOwnedSame(h, d, d.(transactions := Swept(d.transactions, hours, now)), l);
    SubsOwnedSame(h, d, Reparsed(d, parse), l);
    SubsOwnedSame(h, d, d.(rules := rules), l);
  }

  /** Every session but those that record keeps custody as it is. */
  lemma StepOwned(h: Hash, d: Db, e: Event, now: int, d': Db, re: Regex, l: Ledger)
    requires Inv(d) && Owned(h, d, l) && Step(d, e, now, d', re) && !Records(e)
    ensures Owned(h, d', l)
  {
    hide Inv, Owned, UniqueKeys, Enqueued, Ingested, Silenced, Swept, MarkedDeleted, Linked, Attached, Assigned,
      Detached, Resent, Edited, Skipped, ChargeDeleted, AttachmentDeleted, Reparsed, Committed, SameRows;
    match e
    case IngestEvent(m, parsed, currency, tx) => IngestOwned(h, d, d', re, m, parsed, currency, now, tx, l);
    case SilenceEvent(q, r, filed) => SilenceOwned(h, d, d', re, q, now, r, filed, l);
    case MarkEvent(messages, attachments) => MarkOwned(h, d, messages, attachments, now, l);
    case LinkEvent(ids, code, note) => LinkOwned(h, d, ids, code, note, now, l);
    case AttachEvent(code, a) => AttachOwned(h, d, code, a, now, l);
    case AssignEvent(code, a) => AttachOwned(h, d, code, a, now, l);
    case DetachEvent(a) => DetachOwned(h, d, a, l);
    case ResendEvent(code, stamp) => ResendOwned(h, d, code, stamp, now, l);
    case DeleteEvent(tx, deleteReceipts) => DeleteOwned(h, d, d', tx, deleteReceipts, now, l);
    case DeleteReceiptEvent(a) => DropOwned(h, d, a, l);
    case DailyEvent(kind, stamp, delay) => EnqueueOwnedDb(h, d, DailyJob(kind, stamp, now + delay), l);
    case QueueEvent(jobs) => QueueOwned(h, d, jobs, l);
    case SweepEvent(hours) => ChargesOwned(h, d, "", Edit("", None, "", "", None), hours, _ => None, map[], now, l);
    case EditEvent(code, edit) => ChargesOwned(h, d, code, edit, 0, _ => None, map[], now, l);
    case SkipEvent(code) => ChargesOwned(h, d, code, Edit("", None, "", "", None), 0, _ => None, map[], now, l);
    case ReparseEvent(parse) => ChargesOwned(h, d, "", Edit("", None, "", "", None), 0, parse, map[], now, l);
    case RulesEvent(rules) => ChargesOwned(h, d, "", Edit("", None, "", "", None), 0, _ => None, rules, now, l);
  }

  // ---- the sessions that record ---------------------------------------------------------------

  lemma AnnounceOwned(h: Hash, d: Db, tx: nat, m: nat, now: int, l: Ledger)
    requires Owned(h, d, l) && m in l.sent
    ensures Owned(h, Committed(d, Announced(d, tx, m, now)), l)
    ensures Owned(h, Committed(d, Confirmed(d, tx, m)), l)
  {
  }

  lemma CaptureOwned(h: Hash, d: Db, file: StoredFile, m: nat, l: Ledger)
    requires Owned(h, d, l) && Faithful(h, AttachmentRow(file, m), l)
    ensures Owned(h, Committed(d, Captured(d, file, m)), l)
  {
    hide NextId;
  }

  /** A ledger only grows, and an upload's files never change. */
  ghost predicate Grows(l: Ledger, l': Ledger) {
    && l.uploads.Keys <= l'.uploads.Keys && (forall m | m in l.uploads :: l'.uploads[m] == l.uploads[m])
    && l.converted <= l'.converted && l.sent <= l'.sent
  }

  lemma GrowthOwned(h: Hash, d: Db, l: Ledger, l': Ledger)
    requires Owned(h, d, l) && Grows(l, l')
    ensures Owned(h, d, l')
  {
  }
}
