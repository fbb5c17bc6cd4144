/** Theorems about whole runs of the pipeline. */
module Runs {
  import opened Schema
  import opened Ordering
  import opened Outbox
  import opened ShortCodes
  import opened Ingest
  import opened Silencing
  import opened ParseRules
  import opened Tasks
  import opened Withdrawal
  import opened Lapsing
  import opened Bot
  import opened Web
  import opened Invariants
  import opened Lifecycle

  /** A run from an empty database; `times[k]` is the clock during session `k`. */
  datatype Run = Run(states: seq<Db>, events: seq<Event>, times: seq<int>)

  ghost predicate IsRun(r: Run, re: Regex) {
    && |r.states| == |r.events| + 1 && |r.times| == |r.events|
    && r.states[0] == EmptyDb
    && (forall i, j | 0 <= i <= j < |r.times| :: r.times[i] <= r.times[j])
    && forall k | 0 <= k < |r.events| :: Step(r.states[k], r.events[k], r.times[k], r.states[k + 1], re)
  }

  lemma EmptyInv()
    ensures Inv(EmptyDb)
  {
  }

  /**
   In every state of every run: each charge has its own email and each email its
   charge, codes are distinct numbers from 1000 on, job keys are unique, refund
   links are injective and chain-free, a charge that still asks for a receipt has
   none, one in `receipt_attached` has one, and no row refers to a charge that is
   gone.
  */
  lemma {:induction false} InvAlways(r: Run, re: Regex, k: nat)
    requires IsRun(r, re) && k < |r.states|
    ensures Inv(r.states[k])
    decreases k
  {
    hide Inv, Step;
    if k == 0 {
      EmptyInv();
    } else {
      InvAlways(r, re, k - 1);
      StepKeepsInv(r.states[k - 1], r.events[k - 1], r.times[k - 1], r.states[k], re);
    }
  }

  // ---- the sweep spares receipts ----------------------------------------------------------

  /** A sweep never touches a charge that has a receipt. */
  lemma SweepSparesReceipts(r: Run, re: Regex, k: nat, tx: nat)
    requires IsRun(r, re) && k < |r.events| && r.events[k].SweepEvent?
    requires tx in r.states[k].transactions && HasReceipt(r.states[k].attachments, tx)
    ensures tx in r.states[k + 1].transactions && r.states[k + 1].transactions[tx] == r.states[k].transactions[tx]
  {
    InvAlways(r, re, k);
    var d := r.states[k];
    assert ReceiptsFit(d.transactions, d.attachments);
    assert Step(d, r.events[k], r.times[k], r.states[k + 1], re);
    var a :| a in d.attachments && d.attachments[a].transactionId == Some(tx);
  }

  // ---- reused ids ---------------------------------------------------------------------------

  /** Nothing in the database refers to charge `tx`. */
  ghost predicate Unreferenced(d: Db, tx: nat) {
    && tx !in d.transactions
    && (forall a | a in d.attachments :: d.attachments[a].transactionId != Some(tx))
    && (forall m | m in d.messages :: d.messages[m].transactionId != Some(tx))
    && (forall i | i in d.transactions :: d.transactions[i].refundOf != Some(tx))
    && (forall i | i in d.jobs :: ChargeOf(d.jobs[i].payload) != Some(tx))
  }

  lemma AbsentIsUnreferenced(d: Db, tx: nat)
    requires Inv(d) && tx !in d.transactions
    ensures Unreferenced(d, tx)
  {
    forall i | i in d.jobs ensures ChargeOf(d.jobs[i].payload) != Some(tx) {
      assert JobFits(d.transactions, d.jobs[i]);
    }
  }

  lemma NoHolder(d: Db, tx: nat)
    requires Inv(d) && tx !in d.transactions
    ensures Holders(d.jobs, NotifyKey(tx)) == {}
  {
    forall i | i in d.jobs ensures d.jobs[i].key != Some(NotifyKey(tx)) { assert JobFits(d.transactions, d.jobs[i]); }
  }

  /**
   Whatever was deleted before, the id a new charge gets is one nothing refers
   to, and unless a merchant rule filed the charge, its notification is in the
   queue, alone under its key and never tried, in the same commit.
  */
  lemma IngestAnnounces(r: Run, re: Regex, k: nat)
    requires IsRun(r, re) && k < |r.events| && r.events[k].IngestEvent?
    ensures var tx, d, d' := r.events[k].tx, r.states[k], r.states[k + 1];
            && Unreferenced(d, tx) && tx in d'.transactions && !HasReceipt(d'.attachments, tx)
            && (d'.transactions[tx].status.NoReceiptRequired? ==> d'.jobs == d.jobs)
            && (!d'.transactions[tx].status.NoReceiptRequired? ==>
                  exists j :: Holders(d'.jobs, NotifyKey(tx)) == {j} && j !in d.jobs
                              && d'.jobs == d.jobs[j :=
                                 Job(Notify, ForCharge(tx), Some(NotifyKey(tx)), Pending, 0, 8, r.times[k])])
  {
    hide Inv, NewCharge, IsRefundChoice, Known, EmailRow;
    InvAlways(r, re, k);
    var d, d' := r.states[k], r.states[k + 1];
    assert Step(d, r.events[k], r.times[k], d', re);
    var tx := r.events[k].tx;
    AbsentIsUnreferenced(d, tx);
    NoHolder(d, tx);
    var row := NewCharge(d, re, r.events[k].email, r.events[k].parsed, r.events[k].defaultCurrency);
    if !row.status.NoReceiptRequired? {
      var j := NextId(d.jobs);
      assert d'.jobs == d.jobs[j := NotifyJob(tx, r.times[k])];
      assert Holders(d'.jobs, NotifyKey(tx)) == {j};
    }
  }

  // ---- the digest warns in time ---------------------------------------------------------------

  /** A session gives charges no announcement time but the present. */
  ghost predicate AnnouncesNow(txs: Transactions, txs': Transactions, now: int) {
    forall i | i in txs' ::
      txs'[i].notifiedAt.None? || txs'[i].notifiedAt == Some(now)
      || (i in txs && txs[i].notifiedAt == txs'[i].notifiedAt)
  }

  lemma SilencingKeepsTimes(d: Db, d': Db, re: Regex, q: Request, now: int, r: nat, filed: set<nat>)
    requires r in d'.rules && Silenced(d, d', re, q, now, r, filed)
    ensures AnnouncesNow(d.transactions, d'.transactions, now)
  {
    hide RuleSet, ToFile, Withdrawn, Announcements, Filed;
    forall tx: Transaction { FiledRow(d'.rules[r], tx); }
  }

  lemma LinkingKeepsTimes(d: Db, ids: seq<nat>, code: string, note: string, now: int)
    requires UniqueKeys(d.jobs)
    ensures AnnouncesNow(d.transactions, Committed(d, Linked(d, ids, code, note, now)).transactions, now)
  {
    hide WithCode, Linkable, FiledUnder, Enqueued, UniqueFiles, UniqueKeys;
  }

  lemma IngestKeepsTimes(d: Db, d': Db, re: Regex, m: GraphMessage, parsed: Option<Fields>, currency: string,
                         now: int, id: nat)
    requires UniqueKeys(d.jobs) && Ingested(d, d', re, m, parsed, currency, now, id)
    ensures AnnouncesNow(d.transactions, d'.transactions, now)
  {
    hide NewCharge, IsRefundChoice, Enqueued, Known, EmailRow, UniqueKeys;
    NewChargeRow(d, re, m, parsed, currency);
  }

  lemma ReparsingKeepsTimes(d: Db, parse: Parser, now: int)
    ensures AnnouncesNow(d.transactions, Reparsed(d, parse).transactions, now)
  {
    hide Fixable, Cleared;
  }

  lemma RowTimes(txs: Transactions, tx: nat, row: Transaction, now: int)
    requires tx in txs && row.notifiedAt == txs[tx].notifiedAt
    ensures AnnouncesNow(txs, txs[tx := row], now)
  {
  }

  lemma SameTimes(txs: Transactions, now: int)
    ensures AnnouncesNow(txs, txs, now)
  {
  }

  lemma AttachingKeepsTimes(d: Db, code: string, a: nat, now: int)
    ensures AnnouncesNow(d.transactions, Committed(d, Attached(d, code, a, now)).transactions, now)
    ensures AnnouncesNow(d.transactions, Committed(d, Assigned(d, code, a, now)).transactions, now)
  {
    hide AnnouncesNow, WithCode, UniqueFiles;
    SameTimes(d.transactions, now);
    var found := WithCode(d.transactions, code);
    if found.Some? { RowTimes(d.transactions, found.value, HandReceipted(d.transactions[found.value], now), now); }
  }

  lemma DetachingKeepsTimes(d: Db, a: nat, now: int)
    ensures AnnouncesNow(d.transactions, Committed(d, Detached(d, a)).transactions, now)
  {
    hide AnnouncesNow, Receipts;
    SameTimes(d.transactions, now);
    var d' := Committed(d, Detached(d, a));
    if d'.transactions != d.transactions {
      var tx := d.attachments[a].transactionId.value;
      RowTimes(d.transactions, tx, d'.transactions[tx], now);
    }
  }

  lemma CodedKeepsTimes(d: Db, code: string, stamp: nat, now: int)
    requires UniqueKeys(d.jobs)
    ensures AnnouncesNow(d.transactions, Committed(d, Resent(d, code, stamp, now)).transactions, now)
    ensures AnnouncesNow(d.transactions, Skipped(d, code).transactions, now)
  {
    hide AnnouncesNow, WithCode, Enqueued, UniqueKeys;
    SameTimes(d.transactions, now);
    var found := WithCode(d.transactions, code);
    if found.Some? {
      var row := d.transactions[found.value];
      RowTimes(d.transactions, found.value, row.(notifyMessageId := None), now);
      RowTimes(d.transactions, found.value, row.(status := NoReceiptRequired), now);
    }
  }

  lemma AnnouncingSetsNow(d: Db, tx: nat, m: nat, now: int)
    ensures AnnouncesNow(d.transactions, Committed(d, Announced(d, tx, m, now)).transactions, now)
  {
  }

  lemma BackgroundAnnouncesNow(d: Db, e: Event, now: int, d': Db, re: Regex)
    requires Step(d, e, now, d', re)
    ensures Background(e) ==> AnnouncesNow(d.transactions, d'.transactions, now)
  {
    hide Enqueued, UniqueKeys, ChargeDeleted, Linked, Silenced, Ingested, Reparsed, AttachmentDeleted,
      SameRows, Edited, Attached, Assigned, Detached, Resent, Skipped, Announced, Swept, AnnouncesNow;
    SameTimes(d.transactions, now);
    match e
    case IngestEvent(m, parsed, currency, tx) => IngestKeepsTimes(d, d', re, m, parsed, currency, now, tx);
    case SilenceEvent(q, r, filed) => SilencingKeepsTimes(d, d', re, q, now, r, filed);
    case SweepEvent(hours) => SweepingKeepsTimes(d, hours, now);
    case AnnounceEvent(tx, m) => AnnouncingSetsNow(d, tx, m, now);
    case LinkEvent(ids, code, note) => LinkingKeepsTimes(d, ids, code, note, now);
    case _ =>
  }

  lemma StepAnnouncesNow(d: Db, e: Event, now: int, d': Db, re: Regex)
    requires Step(d, e, now, d', re)
    ensures AnnouncesNow(d.transactions, d'.transactions, now)
  {
    hide Enqueued, UniqueKeys, Released, Unrelated, EmailsWithout, Without, Linked, Silenced, Ingested, Reparsed,
      SameRows, Dangling, Withdrawn, Edited, Attached, Assigned, Detached, Resent, Skipped, Announced, Swept,
      Captured, Confirmed, MarkedDeleted, AnnouncesNow;
    SameTimes(d.transactions, now);
    match e
    case AttachEvent(code, a) => AttachingKeepsTimes(d, code, a, now);
    case AssignEvent(code, a) => AttachingKeepsTimes(d, code, a, now);
    case DetachEvent(a) => DetachingKeepsTimes(d, a, now);
    case ResendEvent(code, stamp) => CodedKeepsTimes(d, code, stamp, now);
    case SkipEvent(code) => CodedKeepsTimes(d, code, 0, now);
    case ReparseEvent(parse) => ReparsingKeepsTimes(d, parse, now);
    case DeleteEvent(tx, deleteReceipts) => WithoutTimes(d.transactions, tx, now);
    case EditEvent(code, edit) => EditingKeepsTimes(d, code, edit, now);
    case _ => BackgroundAnnouncesNow(d, e, now, d', re);
  }

  lemma WithoutTimes(txs: Transactions, tx: nat, now: int)
    ensures AnnouncesNow(txs, Without(txs, tx), now)
  {
    hide Without;
    WithoutRows(txs, tx);
  }

  lemma SweepingKeepsTimes(d: Db, hours: int, now: int)
    ensures AnnouncesNow(d.transactions, Swept(d.transactions, hours, now), now)
  {
  }

  lemma EditingKeepsTimes(d: Db, code: string, edit: Edit, now: int)
    ensures AnnouncesNow(d.transactions, Committed(d, Edited(d, code, edit)).transactions, now)
  {
    hide WithCode;
  }

  /** Announced before `before`, a charge that is there at session `q` was there, announced alike, since then. */
  lemma {:induction false} AnnouncedSince(r: Run, re: Regex, p: nat, q: nat, tx: nat, before: int)
    requires IsRun(r, re) && p <= q < |r.states|
    requires forall k | p <= k < |r.times| :: before <= r.times[k]
    requires tx in r.states[q].transactions && r.states[q].transactions[tx].notifiedAt.Some?
    requires r.states[q].transactions[tx].notifiedAt.value < before
    ensures tx in r.states[p].transactions
    ensures r.states[p].transactions[tx].notifiedAt == r.states[q].transactions[tx].notifiedAt
    decreases q
  {
    hide Step;
    if q > p {
      StepAnnouncesNow(r.states[q - 1], r.events[q - 1], r.times[q - 1], r.states[q], re);
      AnnouncedSince(r, re, p, q - 1, tx, before);
    }
  }

  /**
   Digest soundness.  The digest `g` is built from state `p` at time `at`; the
   sweep is session `q`, at most 24 hours later, with the same lapse window of at
   least 24 hours.  A charge that was outstanding for the digest and that the
   sweep lapses is in the digest's "lapsing soon" list.
  */
  lemma DigestWarnsInTime(r: Run, re: Regex, p: nat, q: nat, at: int, hours: int, g: Summary, tx: nat)
    requires IsRun(r, re) && p <= q < |r.events| && r.events[q] == SweepEvent(hours) && hours >= 24
    requires forall k | p <= k < |r.times| :: at <= r.times[k]
    requires r.times[q] <= at + 24 * HOUR
    requires IsDigest(r.states[p].transactions, r.states[p].attachments, hours, at, g)
    requires tx in r.states[p].transactions && Outstanding(r.states[p].transactions[tx].status)
    requires tx in r.states[q].transactions && Lapses(r.states[q].transactions[tx], hours, r.times[q])
    ensures tx in g.lapsing
  {
    hide Step;
    OverdueWithinADayWasWarned(r.states[q].transactions[tx], r.states[p].transactions[tx], hours, at, r.times[q]);
    AnnouncedSince(r, re, p, q, tx, at);
  }

  const ALERT := GraphMessage("<1@bank>", "alerts@bank", "Card purchase", "Shop 1.00 USD", 0)

  /** The database after the very first email, read as a charge of 1.00 USD. */
  function FirstCharged(at: int): Db {
    var row := ChargeRow(ALERT, Some(Fields("Shop", 100, "USD", None)), "USD", NextCode(map[]), 1);
    EmptyDb.(emails := map[1 := EmailRow(ALERT, Some(Fields("Shop", 100, "USD", None)))],
             transactions := map[1 := row], jobs := Enqueued(map[], NotifyJob(1, at)).0)
  }

  lemma FirstEmail(re: Regex, at: int)
    ensures var d := FirstCharged(at);
            && Step(EmptyDb, IngestEvent(ALERT, Some(Fields("Shop", 100, "USD", None)), "USD", 1), at, d, re)
            && d.transactions.Keys == {1} && d.transactions[1].status.New? && d.transactions[1].notifiedAt.None?
            && d.messages == map[] && UniqueKeys(d.jobs)
  {
    hide NextCode;
    var parsed := Some(Fields("Shop", 100, "USD", None));
    var d := FirstCharged(at);
    EnqueueEnsuresOnce(map[], NotifyJob(1, at));
    hide Enqueued;
    NoRules(re, ChargeRow(ALERT, parsed, "USD", NextCode(map[]), 1));
    assert NextId<Transaction>(map[]) == 1 && NextId<RawEmail>(map[]) == 1;
    var row := NewCharge(EmptyDb, re, ALERT, parsed, "USD");
    assert row.(refundOf := None) == row;
    assert map[1 := row] == EmptyDb.transactions[1 := row];
    assert IsRefundChoice(map[1 := row], 1, None);
  }

  lemma NoRules(re: Regex, tx: Transaction)
    ensures WithRules(re, map[], tx) == tx
  {
    assert MatchingRules(re, map[], tx.merchant) == {};
  }

  lemma AnnounceThenSweep(re: Regex, d1: Db, d2: Db, d3: Db, at: int, hours: int)
    requires UniqueKeys(d1.jobs) && d2 == Committed(d1, Announced(d1, 1, 1, at + 1))
    requires d3 == d2.(transactions := Swept(d2.transactions, hours, at + 24 * HOUR))
    ensures Step(d1, AnnounceEvent(1, 1), at + 1, d2, re)
    ensures Step(d2, SweepEvent(hours), at + 24 * HOUR, d3, re)
  {
    hide Swept, UniqueKeys;
  }

  /**
   With a shorter window it is false, whatever the window and the time: an email
   arrives while the digest is being built, its charge is listed with no warning,
   is announced a second later, and lapses the next day.
  */
  lemma ShortWindowsMiss(re: Regex, at: int, hours: int) returns (r: Run, g: Summary)
    requires hours < 24
    ensures IsRun(r, re) && r.times == [at, at + 1, at + 24 * HOUR] && |r.events| == 3
    ensures r.events[2] == SweepEvent(hours)
    ensures IsDigest(r.states[1].transactions, r.states[1].attachments, hours, at, g)
    ensures 1 in r.states[1].transactions && Outstanding(r.states[1].transactions[1].status)
    ensures 1 in r.states[2].transactions && Lapses(r.states[2].transactions[1], hours, r.times[2])
    ensures 1 !in g.lapsing
  {
    var d1 := FirstCharged(at);
    FirstEmail(re, at);
    hide FirstCharged, Step;
    var d2 := Committed(d1, Announced(d1, 1, 1, at + 1));
    var d3 := d2.(transactions := Swept(d2.transactions, hours, at + 24 * HOUR));
    var first := IngestEvent(ALERT, Some(Fields("Shop", 100, "USD", None)), "USD", 1);
    r := Run([EmptyDb, d1, d2, d3], [first, AnnounceEvent(1, 1), SweepEvent(hours)], [at, at + 1, at + 24 * HOUR]);
    AnnounceThenSweep(re, d1, d2, d3, at, hours);
    g := Summary([], [1], |RecentlyLapsed(d1.transactions, at)|, |Orphans(d1.attachments)|);
  }

  // ---- setting a status by hand ---------------------------------------------------------------

  /**
   The edit form may set any status.  The edit keeps the invariant if and only if
   the status fits the receipts the charge has.
  */
  lemma EditKeepsInvExactly(d: Db, code: string, edit: Edit)
    requires Inv(d)
    ensures Inv(Committed(d, Edited(d, code, edit))) <==> EditFits(d, code, edit)
  {
    if EditFits(d, code, edit) {
      EditKeepsInv(d, code, edit);
    } else {
      hide Inv, WithCode, StatusFits;
      var tx, d' := WithCode(d.transactions, code).value, Committed(d, Edited(d, code, edit));
      var row := EditedRow(d.transactions[tx], edit);
      assert d'.transactions[tx] == row && d'.attachments == d.attachments;
      if Inv(d') { InvStatusFits(d', tx); }
    }
  }

  lemma InvStatusFits(d: Db, tx: nat)
    requires Inv(d) && tx in d.transactions
    ensures StatusFits(d.attachments, tx, d.transactions[tx].status)
  {
    hide Identity, Talk, Work, UniqueFiles;
    assert ReceiptsFit(d.transactions, d.attachments);
    HasReceiptMeans(d.attachments, tx);
  }

  // ---- attaching what is already assigned -------------------------------------------------------

  /** The charge that loses its only receipt when the attachment is filed elsewhere, if there is one. */
  predicate TakesLastReceipt(d: Db, code: string, a: nat) {
    && a in d.attachments && d.attachments[a].transactionId.Some?
    && d.attachments[a].transactionId.value in d.transactions
    && WithCode(d.transactions, code) != d.attachments[a].transactionId
    && d.transactions[d.attachments[a].transactionId.value].status.ReceiptAttached?
    && Receipts(d.attachments, d.attachments[a].transactionId.value) == {a}
  }

  /**
   `attach_orphan` does not ask whether the attachment is assigned.  It keeps the
   invariant if and only if it does not take the only receipt of another charge
   in `receipt_attached`; the form, which offers unassigned ones, never does.
  */
  lemma AttachKeepsInvExactly(d: Db, code: string, a: nat, now: int)
    requires Inv(d) && Attached(d, code, a, now).Success?
    ensures Inv(Attached(d, code, a, now).value) <==> !TakesLastReceipt(d, code, a)
  {
    hide Inv, UniqueFiles, WithCode, Receipts;
    if d.attachments[a].transactionId.None? {
      AttachKeepsInv(d, code, a, now);
    } else {
      AssignedIsThere(d, a);
      if WithCode(d.transactions, code) == d.attachments[a].transactionId {
        AttachAgain(d, code, a, now);
      } else if TakesLastReceipt(d, code, a) {
        TakingBreaks(d, code, a, now);
      } else {
        MovingKeepsInv(d, code, a, now);
      }
    }
  }

  lemma AssignedIsThere(d: Db, a: nat)
    requires Inv(d) && a in d.attachments && d.attachments[a].transactionId.Some?
    ensures d.attachments[a].transactionId.value in d.transactions
    ensures !Unreceipted(d.transactions[d.attachments[a].transactionId.value].status)
  {
    assert ReceiptsFit(d.transactions, d.attachments);
  }

  lemma AttachAgain(d: Db, code: string, a: nat, now: int)
    requires Inv(d) && Attached(d, code, a, now).Success?
    requires WithCode(d.transactions, code) == d.attachments[a].transactionId
    ensures Attached(d, code, a, now).value == d
  {
    hide Inv, UniqueFiles, WithCode, Unreceipted;
    AssignedIsThere(d, a);
    var tx := d.attachments[a].transactionId.value;
    assert d.attachments[a := d.attachments[a].(transactionId := Some(tx))] == d.attachments;
    assert d.transactions[tx := d.transactions[tx]] == d.transactions;
  }

  lemma TakingBreaks(d: Db, code: string, a: nat, now: int)
    requires Inv(d) && Attached(d, code, a, now).Success? && TakesLastReceipt(d, code, a)
    ensures !Inv(Attached(d, code, a, now).value)
  {
    hide Identity, Talk, Work, UniqueFiles, WithCode;
    var was, d' := d.attachments[a].transactionId.value, Attached(d, code, a, now).value;
    forall b | b in d'.attachments ensures d'.attachments[b].transactionId != Some(was) {
      if b != a && d.attachments[b].transactionId == Some(was) { OnlyReceipt(d.attachments, was, a, b); }
    }
    assert d'.transactions[was].status.ReceiptAttached? && !HasReceipt(d'.attachments, was);
    assert !ReceiptsFit(d'.transactions, d'.attachments);
  }

  lemma OnlyReceipt(atts: map<nat, Attachment>, tx: nat, a: nat, b: nat)
    requires Receipts(atts, tx) == {a} && b in atts && atts[b].transactionId == Some(tx)
    ensures b == a
  {
    assert b in Receipts(atts, tx);
  }

  /** Filing an attachment elsewhere is detaching it and filing it from the orphan queue. */
  lemma MovingKeepsInv(d: Db, code: string, a: nat, now: int)
    requires Inv(d) && Attached(d, code, a, now).Success? && !TakesLastReceipt(d, code, a)
    requires d.attachments[a].transactionId.Some? && d.attachments[a].transactionId.value in d.transactions
    requires WithCode(d.transactions, code) != d.attachments[a].transactionId
    ensures Inv(Attached(d, code, a, now).value)
  {
    hide Inv, UniqueFiles, WithCode, Receipts;
    var free := d.(attachments := d.attachments[a := d.attachments[a].(transactionId := None)]);
    FreeingKeepsInv(d, a);
    assert free.attachments[a := free.attachments[a].(transactionId := WithCode(d.transactions, code))]
        == d.attachments[a := d.attachments[a].(transactionId := WithCode(d.transactions, code))];
    assert Attached(free, code, a, now) == Attached(d, code, a, now);
    AttachKeepsInv(free, code, a, now);
  }

  lemma FreeingKeepsInv(d: Db, a: nat)
    requires Inv(d) && a in d.attachments
    requires d.attachments[a].transactionId.Some? && d.attachments[a].transactionId.value in d.transactions
    requires d.transactions[d.attachments[a].transactionId.value].status.ReceiptAttached? ==>
               Receipts(d.attachments, d.attachments[a].transactionId.value) != {a}
    ensures Inv(d.(attachments := d.attachments[a := d.attachments[a].(transactionId := None)]))
  {
    hide Identity, Filing, Talk, Work, Receipts;
    LeavingKeepsFiling(d.transactions, d.attachments, a);
    SameSourcesKeepTalk(d.transactions, d.attachments,
                        d.attachments[a := d.attachments[a].(transactionId := None)], d.messages);
  }

  // ---- what one handler does for another ----------------------------------------------------------

  /**
   Detaching an attachment just attached from the orphan queue undoes the attach
   if and only if the charge kept its status, or was `notified` and unmatched: the
   charge comes back as `notified`, whatever it was.
  */
  lemma DetachUndoesAttachExactly(d: Db, code: string, a: nat, now: int)
    requires Inv(d) && Attached(d, code, a, now).Success? && d.attachments[a].transactionId.None?
    ensures var d1 := Attached(d, code, a, now).value;
            var row := d.transactions[WithCode(d.transactions, code).value];
            && Detached(d1, a).Success? && Detached(d1, a).value.attachments == d.attachments
            && (Detached(d1, a).value == d <==>
                  !Unreceipted(row.status) || (row.status.Notified? && row.matchedAt.None?))
  {
    hide Identity, Talk, Work, UniqueFiles, WithCode, Receipts;
    var d1, tx := Attached(d, code, a, now).value, WithCode(d.transactions, code).value;
    assert d1.attachments[a := d1.attachments[a].(transactionId := None)] == d.attachments;
    ReceiptsAfterAttach(d, a, tx);
    var row := d.transactions[tx];
    if Unreceipted(row.status) {
      assert Detached(d1, a).value.transactions[tx] == row.(status := Notified, matchedAt := None);
      assert d.transactions[tx := row] == d.transactions;
    } else {
      assert d1.transactions == d.transactions;
    }
  }

  lemma ReceiptsAfterAttach(d: Db, a: nat, tx: nat)
    requires ReceiptsFit(d.transactions, d.attachments) && a in d.attachments && d.attachments[a].transactionId.None?
    requires tx in d.transactions
    ensures var after := Receipts(d.attachments[a := d.attachments[a].(transactionId := Some(tx))], tx);
            && (Unreceipted(d.transactions[tx].status) ==> after == {a})
            && (d.transactions[tx].status.ReceiptAttached? ==> after != {a})
  {
    var atts' := d.attachments[a := d.attachments[a].(transactionId := Some(tx))];
    assert a in Receipts(atts', tx);
    if d.transactions[tx].status.ReceiptAttached? {
      var b :| b in d.attachments && d.attachments[b].transactionId == Some(tx);
      assert b in Receipts(atts', tx) && b != a;
    }
  }

  /** Asking again always leads to an announcement: the handler will find the charge, and its job is outstanding. */
  lemma ResendAnnounces(d: Db, code: string, stamp: nat, now: int)
    requires Inv(d) && UniqueKeys(d.jobs) && Resent(d, code, stamp, now).Success?
    ensures var d', tx := Resent(d, code, stamp, now).value, WithCode(d.transactions, code).value;
            && ToAnnounce(d'.transactions, tx) && EnsuredOnce(d'.jobs, RenotifyKey(tx, stamp))
            && (forall m | Announced(d', tx, m, now).Success? ::
                  !ToAnnounce(Announced(d', tx, m, now).value.transactions, tx))
  {
    hide Inv, WithCode, Enqueued;
    EnqueueEnsuresOnce(d.jobs, RenotifyJob(WithCode(d.transactions, code).value, stamp, now));
  }
}
