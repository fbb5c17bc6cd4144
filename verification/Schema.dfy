/**
 The tables the receipt pipeline reads and writes, as rows keyed by row id, and
 the session object that holds them.  Text columns that the code only tests for
 truth use "" for NULL.  Times are seconds; Discord message ids are numbers.
*/
module Schema {
  import opened Ordering

  datatype Option<+T> = None | Some(value: T)

  datatype Result<+T> = Success(value: T) | Failure

  datatype Status =
    | New | Notified | ReceiptAttached | Verified | Lapsed
    | NoReceiptRequired | NeedsAttention | Ignored

  datatype Transaction = Transaction(
    shortCode: string,
    emailId: Option<nat>,
    occurredAt: int,
    merchant: string,
    amountMinor: int,
    currency: string,
    status: Status,
    category: string,
    notes: string,
    refundOf: Option<nat>,
    notifiedAt: Option<int>,
    lapsedAt: Option<int>,
    matchedAt: Option<int>,
    notifyMessageId: Option<nat>)

  datatype Attachment = Attachment(
    transactionId: Option<nat>,
    path: string,
    bytes: nat,
    sha256: string,
    sourceMessageId: Option<nat>,
    sourceDeleted: bool)

  datatype RawEmail = RawEmail(
    internetMessageId: string,
    sender: string,
    subject: string,
    bodyText: string,
    receivedAt: int,
    parseFailed: bool)

  datatype MessageKind = Announcement | Confirmation | Receipt

  /** Keyed by its Discord message id, which the schema declares unique. */
  datatype DiscordMessage = DiscordMessage(
    kind: MessageKind,
    transactionId: Option<nat>,
    deletedAt: Option<int>)

  datatype MerchantRule = MerchantRule(
    pattern: string,
    isRegex: bool,
    enabled: bool,
    skipReceipt: bool,
    category: string,
    note: string)

  datatype JobStatus = Pending | Running | Done | Dead

  datatype Kind = Notify | Finalize | DeleteMessage | Digest | LapseSweep | SyncAccounts

  datatype Payload =
    | NoPayload
    | ForCharge(tx: nat)
    | ForReceipts(tx: nat, attachments: seq<nat>)
    | ForMessage(message: nat)

  datatype Key =
    | NotifyKey(tx: nat)
    | RenotifyKey(tx: nat, stamp: nat)
    | FinalizeKey(tx: nat, attachment: nat)
    | DeleteKey(message: nat)
    | DailyKey(kind: Kind, stamp: nat)

  datatype Job = Job(
    kind: Kind,
    payload: Payload,
    key: Option<Key>,
    status: JobStatus,
    attempts: nat,
    maxAttempts: nat,
    nextRunAt: int)

  type Transactions = map<nat, Transaction>
  type Jobs = map<nat, Job>

  /** The committed contents of every table. */
  datatype Db = Db(
    transactions: Transactions,
    attachments: map<nat, Attachment>,
    emails: map<nat, RawEmail>,
    messages: map<nat, DiscordMessage>,
    jobs: Jobs,
    rules: map<nat, MerchantRule>)

  const EmptyDb := Db(map[], map[], map[], map[], map[], map[])

  /** One database session; each handler below is one transaction on it. */
  class Database {
    var transactions: Transactions
    var attachments: map<nat, Attachment>
    var emails: map<nat, RawEmail>
    var messages: map<nat, DiscordMessage>
    var jobs: Jobs
    var rules: map<nat, MerchantRule>

    function View(): Db
      reads this
    {
      Db(transactions, attachments, emails, messages, jobs, rules)
    }

    constructor ()
      ensures View() == EmptyDb
    {
      transactions, attachments, emails := map[], map[], map[];
      messages, jobs, rules := map[], map[], map[];
    }
  }

  /** `payload.get("transaction_id")`. */
  function ChargeOf(p: Payload): Option<nat> {
    match p
    case ForCharge(tx) => Some(tx)
    case ForReceipts(tx, _) => Some(tx)
    case _ => None
  }

  /** Statuses eligible for implicit matching and for lapsing. */
  predicate Open(s: Status) {
    s.New? || s.Notified?
  }

  /** Open charges and those whose alert could not be parsed. */
  predicate Outstanding(s: Status) {
    Open(s) || s.NeedsAttention?
  }

  /** The statuses of a charge that is still without a receipt. */
  predicate Unreceipted(s: Status) {
    Outstanding(s) || s.Lapsed?
  }

  // ---- queries --------------------------------------------------------------------

  /** The attachments filed under a charge. */
  function Receipts(atts: map<nat, Attachment>, tx: nat): set<nat> {
    set a | a in atts && atts[a].transactionId == Some(tx)
  }

  function CodeHolders(txs: Transactions, code: string): set<nat> {
    set i | i in txs && txs[i].shortCode == code
  }

  /** SELECT ... WHERE short_code = code. */
  function WithCode(txs: Transactions, code: string): (r: Option<nat>)
    ensures r.Some? ==> r.value in txs && txs[r.value].shortCode == code
  {
    var hits := CodeHolders(txs, code);
    if hits == {} then None else Some(MinOf(hits))
  }

  lemma WithCodeFinds(txs: Transactions, code: string)
    ensures WithCode(txs, code).None? <==> forall i | i in txs :: txs[i].shortCode != code
  {
    assert forall i :: i in CodeHolders(txs, code) <==> i in txs && txs[i].shortCode == code;
  }

  /** UNIQUE (transaction_id, sha256); NULLs never collide. */
  ghost predicate UniqueFiles(atts: map<nat, Attachment>) {
    forall a, b | a in atts && b in atts && atts[a].transactionId.Some?
      && atts[a].transactionId == atts[b].transactionId && atts[a].sha256 == atts[b].sha256 :: a == b
  }

  /** Text appended to a note, on a new line if there is one already. */
  function Appended(notes: string, more: string): string {
    if notes == "" then more else notes + "\n" + more
  }
}
