/** What every committed database state satisfies. */
module Invariants {
  import opened Schema
  import opened ShortCodes
  import opened Outbox
  import opened Withdrawal

  // ---- charges and emails -------------------------------------------------------------

  /** Every charge comes from one stored email and every stored email has one charge. */
  ghost predicate EmailsBack(txs: Transactions, emails: map<nat, RawEmail>) {
    && (forall i | i in txs :: txs[i].emailId.Some? && txs[i].emailId.value in emails)
    && (forall i, j | i in txs && j in txs && txs[i].emailId == txs[j].emailId :: i == j)
    && (forall e | e in emails :: exists i | i in txs :: txs[i].emailId == Some(e))
  }

  ghost predicate EmailsDistinct(emails: map<nat, RawEmail>) {
    forall a, b | a in emails && b in emails && emails[a].internetMessageId == emails[b].internetMessageId :: a == b
  }

  ghost predicate CodesDistinct(txs: Transactions) {
    forall i, j | i in txs && j in txs && txs[i].shortCode == txs[j].shortCode :: i == j
  }

  /** Every code is a number the application counted up to, whatever was deleted since. */
  ghost predicate CodesAllocated(txs: Transactions) {
    forall i | i in txs :: Allocated(txs[i].shortCode)
  }

  /** Refund links are injective and chain-free, and lead to existing charges. */
  ghost predicate RefundsFit(txs: Transactions) {
    && (forall i | i in txs && txs[i].refundOf.Some? ::
          txs[i].refundOf.value in txs && txs[txs[i].refundOf.value].refundOf.None?)
    && (forall i, j | i in txs && j in txs && txs[i].refundOf.Some? && txs[i].refundOf == txs[j].refundOf :: i == j)
  }

  ghost predicate Identity(txs: Transactions, emails: map<nat, RawEmail>) {
    && EmailsBack(txs, emails) && EmailsDistinct(emails)
    && CodesDistinct(txs) && CodesAllocated(txs)
    && RefundsFit(txs)
  }

  // ---- receipts -----------------------------------------------------------------------

  predicate HasReceipt(atts: map<nat, Attachment>, tx: nat) {
    exists a | a in atts :: atts[a].transactionId == Some(tx)
  }

  /**
   Receipts are filed under existing charges, never under one whose status still
   asks for a receipt, and a charge in `receipt_attached` has one.
  */
  ghost predicate ReceiptsFit(txs: Transactions, atts: map<nat, Attachment>) {
    && (forall a | a in atts && atts[a].transactionId.Some? ::
          && atts[a].transactionId.value in txs
          && !Unreceipted(txs[atts[a].transactionId.value].status))
    && (forall i | i in txs && txs[i].status.ReceiptAttached? :: HasReceipt(atts, i))
  }

  ghost predicate Filing(txs: Transactions, atts: map<nat, Attachment>) {
    ReceiptsFit(txs, atts) && UniqueFiles(atts)
  }

  // ---- Discord records ------------------------------------------------------------------

  /** Records are about existing charges; the ones for uploads are about none. */
  ghost predicate RecordsFit(txs: Transactions, messages: map<nat, DiscordMessage>) {
    forall m | m in messages ::
      match messages[m].transactionId
      case None => messages[m].kind.Receipt?
      case Some(t) => t in txs && !messages[m].kind.Receipt?
  }

  /** A charge's announcement is a recorded announcement of that charge. */
  ghost predicate AnnouncementsFit(txs: Transactions, messages: map<nat, DiscordMessage>) {
    forall i | i in txs && txs[i].notifyMessageId.Some? ::
      var m := txs[i].notifyMessageId.value;
      m in messages && messages[m].kind.Announcement? && messages[m].transactionId == Some(i)
  }

  /** Each upload was recorded, and captured once. */
  ghost predicate SourcesFit(atts: map<nat, Attachment>, messages: map<nat, DiscordMessage>) {
    && (forall a | a in atts && atts[a].sourceMessageId.Some? ::
          atts[a].sourceMessageId.value in messages && messages[atts[a].sourceMessageId.value].kind.Receipt?)
    && (forall a, b | a in atts && b in atts && atts[a].sourceMessageId.Some?
          && atts[a].sourceMessageId == atts[b].sourceMessageId :: a == b)
  }

  ghost predicate Talk(txs: Transactions, atts: map<nat, Attachment>, messages: map<nat, DiscordMessage>) {
    RecordsFit(txs, messages) && AnnouncementsFit(txs, messages) && SourcesFit(atts, messages)
  }

  // ---- queued work ----------------------------------------------------------------------

  predicate KeyFits(k: Key, p: Payload) {
    match k
    case NotifyKey(tx) => p == ForCharge(tx)
    case RenotifyKey(tx, _) => p == ForCharge(tx)
    case FinalizeKey(tx, _) => p.ForReceipts? && p.tx == tx
    case DeleteKey(m) => p == ForMessage(m)
    case DailyKey(_, _) => p == NoPayload
  }

  predicate JobFits(txs: Transactions, j: Job) {
    && (j.key.Some? ==> KeyFits(j.key.value, j.payload))
    && (ChargeOf(j.payload).Some? ==> ChargeOf(j.payload).value in txs)
  }

  ghost predicate Work(txs: Transactions, t: Jobs) {
    UniqueKeys(t) && forall i | i in t :: JobFits(txs, t[i])
  }

  ghost predicate Inv(d: Db) {
    && Identity(d.transactions, d.emails)
    && Filing(d.transactions, d.attachments)
    && Talk(d.transactions, d.attachments, d.messages)
    && Work(d.transactions, d.jobs)
  }

  // ---- keeping them -----------------------------------------------------------------------

  /** The columns that say which charge a row is did not change. */
  ghost predicate SameCharges(txs: Transactions, txs': Transactions) {
    && txs'.Keys == txs.Keys
    && forall i | i in txs ::
         && txs'[i].emailId == txs[i].emailId && txs'[i].shortCode == txs[i].shortCode
         && txs'[i].refundOf == txs[i].refundOf
  }

  lemma SameChargesKeepIdentity(txs: Transactions, txs': Transactions, emails: map<nat, RawEmail>)
    requires Identity(txs, emails) && SameCharges(txs, txs')
    ensures Identity(txs', emails)
  {
    SameChargesKeepEmails(txs, txs', emails);
    SameChargesKeepRefunds(txs, txs');
    hide EmailsBack, RefundsFit, Allocated;
  }

  lemma SameChargesKeepEmails(txs: Transactions, txs': Transactions, emails: map<nat, RawEmail>)
    requires EmailsBack(txs, emails) && SameCharges(txs, txs')
    ensures EmailsBack(txs', emails)
  {
    forall e | e in emails ensures exists i | i in txs' :: txs'[i].emailId == Some(e) {
      var i :| i in txs && txs[i].emailId == Some(e);
      assert txs'[i].emailId == Some(e);
    }
  }

  lemma SameChargesKeepRefunds(txs: Transactions, txs': Transactions)
    requires RefundsFit(txs) && SameCharges(txs, txs')
    ensures RefundsFit(txs')
  {
  }

  /** Charges may lose their announcement or change status without asking for receipts they have. */
  lemma SameChargesKeepTalk(txs: Transactions, txs': Transactions, atts: map<nat, Attachment>,
                            messages: map<nat, DiscordMessage>)
    requires Talk(txs, atts, messages) && SameCharges(txs, txs')
    requires forall i | i in txs :: txs'[i].notifyMessageId.None? || txs'[i].notifyMessageId == txs[i].notifyMessageId
    ensures Talk(txs', atts, messages)
  {
  }

  lemma SameChargesKeepWork(txs: Transactions, txs': Transactions, t: Jobs)
    requires Work(txs, t) && txs.Keys <= txs'.Keys
    ensures Work(txs', t)
  {
  }

  lemma SameStatusesKeepFiling(txs: Transactions, txs': Transactions, atts: map<nat, Attachment>)
    requires Filing(txs, atts) && txs'.Keys == txs.Keys
    requires forall i | i in txs ::
               || txs'[i].status == txs[i].status
               || (Unreceipted(txs[i].status) && Unreceipted(txs'[i].status))
               || txs'[i].status.NoReceiptRequired?
    ensures Filing(txs', atts)
  {
  }

  lemma EnqueueKeepsWork(txs: Transactions, t: Jobs, j: Job)
    requires Work(txs, t) && JobFits(txs, j) && Live(j) && j.key.Some?
    ensures Work(txs, Enqueued(t, j).0)
  {
    hide Enqueued, KeyFits;
    var (t', id) := Enqueued(t, j);
    EnqueueEnsuresOnce(t, j);
    forall i | i in t' ensures JobFits(txs, t'[i]) {
      if t'[i].key == j.key && id.Some? {
        assert t'[id.value].key == t'[i].key && i == id.value;
      }
    }
  }

  lemma SameRowsKeepWork(txs: Transactions, t: Jobs, t': Jobs)
    requires Work(txs, t) && SameRows(t, t')
    ensures Work(txs, t')
  {
  }

  lemma WorkAgrees(txs: Transactions, t: Jobs)
    requires Work(txs, t)
    ensures DeleteKeysAgree(t)
  {
    forall i | i in t && t[i].key.Some? && t[i].key.value.DeleteKey?
      ensures t[i].payload == ForMessage(t[i].key.value.message)
    {
      assert JobFits(txs, t[i]);
    }
  }

  lemma WithdrawingKeepsWork(txs: Transactions, txs': Transactions, t: Jobs, t': Jobs,
                             charges: set<nat>, messages: set<nat>, now: int)
    requires Work(txs, t) && Withdrawn(t, t', charges, messages, now)
    requires txs.Keys - charges <= txs'.Keys
    ensures Work(txs', t')
  {
    forall i | i in t' ensures JobFits(txs', t'[i]) {
      assert Accounted(t, t', i, charges, messages, now);
    }
  }
}
