/**
 The mail poller (`poll_once`, `ingest_batch` and `_save_poll_result` in
 app/services/ingest.py, `delta` in app/services/graph.py): fetch everything
 after the saved cursor, ingest message by message, then save the new cursor.
*/
module Polling {
  import opened Schema
  import opened Ordering
  import opened Outbox
  import opened ParseRules
  import opened ShortCodes
  import opened Ingest
  import opened Silencing
  import opened Lapsing
  import opened Withdrawal
  import opened Bot
  import opened Tasks
  import opened Web
  import opened Invariants
  import opened Lifecycle

  /** A message with what the filter, the parse rules and concurrent writers make of its ingest. */
  datatype Delivery = Delivery(
    message: GraphMessage, allowed: bool, parsed: Option<Fields>, rivals: seq<set<string>>)

  ghost predicate Ran(d: Db, d': Db, re: Regex, x: Delivery, currency: string, now: int, r: IngestOutcome) {
    UniqueKeys(d.jobs) && |x.rivals| == ATTEMPTS
    && IngestRan(d, d', re, x.message, x.allowed, x.parsed, currency, x.rivals, now, r)
  }

  // ---- one batch ------------------------------------------------------------------------

  function CountCreated(rs: seq<IngestOutcome>): nat {
    if rs == [] then 0
    else CountCreated(rs[..|rs| - 1]) + (if rs[|rs| - 1].Created? then 1 else 0)
  }

  lemma RanKeepsInv(d: Db, d': Db, re: Regex, x: Delivery, currency: string, now: int, r: IngestOutcome)
    requires Inv(d) && Ran(d, d', re, x, currency, now, r)
    ensures Inv(d')
  {
    hide Inv, Ingested, NextCode, Known;
    if r.Created? { IngestKeepsInv(d, d', re, x.message, x.parsed, currency, now, r.tx); }
  }

  /** Each message in its own session; one that raises is logged and the loop goes on. */
  method IngestBatch(db: Database, re: Regex, batch: seq<Delivery>, currency: string, now: int)
    returns (created: nat, ghost states: seq<Db>, ghost outcomes: seq<IngestOutcome>)
    requires Inv(db.View()) && forall n | 0 <= n < |batch| :: |batch[n].rivals| == ATTEMPTS
    modifies db
    ensures Inv(db.View())
    ensures |states| == |batch| + 1 && |outcomes| == |batch|
    ensures states[0] == old(db.View()) && states[|batch|] == db.View()
    ensures forall n | 0 <= n < |batch| :: Ran(states[n], states[n + 1], re, batch[n], currency, now, outcomes[n])
    ensures created == CountCreated(outcomes)
  {
    hide Inv, UniqueKeys, IngestRan;
    created, states, outcomes := 0, [db.View()], [];
    for n := 0 to |batch|
      invariant Inv(db.View())
      invariant |states| == n + 1 && |outcomes| == n && states[0] == old(db.View()) && states[n] == db.View()
      invariant forall k | 0 <= k < n :: Ran(states[k], states[k + 1], re, batch[k], currency, now, outcomes[k])
      invariant created == CountCreated(outcomes)
    {
      ghost var d := db.View();
      InvKeys(d);
      var x := batch[n];
      var r := IngestMessage(db, re, x.message, x.allowed, x.parsed, currency, x.rivals, now);
      RanKeepsInv(d, db.View(), re, x, currency, now, r);
      if r.Created? {
        created := created + 1;
      }
      states, outcomes := states + [db.View()], outcomes + [r];
      assert outcomes[..n] == outcomes[..|outcomes| - 1];
    }
  }

  // ---- the protocol -----------------------------------------------------------------------

  /** A poll in progress: what it fetched, how far it has got, and the cursor it will save. */
  datatype Poll = Poll(batch: seq<GraphMessage>, done: nat, next: nat)

  /**
   The mailbox grows; `cursor` is the saved delta link, 0 before the first poll.
   The last four are history: ids the filter rejected, ids whose ingest raised,
   ids whose fetch returned nothing, and ids that were stored and then deleted.
  */
  datatype PollWorld = PollWorld(
    db: Db, mailbox: seq<GraphMessage>, cursor: nat, poll: Option<Poll>,
    filtered: set<string>, raised: set<string>, missing: set<string>, erased: set<string>)

  datatype PollAct =
    | DeliverAct(message: GraphMessage)
    | FetchAct(full: bool, absent: set<nat>, batch: seq<GraphMessage>)
    | IngestAct(delivery: Delivery, currency: string, outcome: IngestOutcome)
    | SaveAct
    | StopAct
    | OtherAct(event: Event)

  function Ids(emails: map<nat, RawEmail>): set<string> {
    set e | e in emails :: emails[e].internetMessageId
  }

  /** What one delta answers: the window's messages, less the ones that could not be fetched, oldest first. */
  ghost predicate IsBatch(batch: seq<GraphMessage>, mailbox: seq<GraphMessage>, from: nat, absent: set<nat>) {
    && (forall i | from <= i < |mailbox| && i !in absent :: mailbox[i] in batch)
    && (forall x | x in batch :: x in mailbox)
    && (forall i, j | 0 <= i < j < |batch| :: batch[i].receivedAt <= batch[j].receivedAt)
  }

  function AbsentIds(mailbox: seq<GraphMessage>, absent: set<nat>): set<string> {
    set i | i in absent && i < |mailbox| :: mailbox[i].internetMessageId
  }

  ghost predicate PollStep(w: PollWorld, act: PollAct, now: int, w': PollWorld, re: Regex) {
    match act
    case DeliverAct(m) => w' == w.(mailbox := w.mailbox + [m])
    case FetchAct(full, absent, batch) =>
      && w.poll.None? && IsBatch(batch, w.mailbox, if full then 0 else w.cursor, absent)
      && w' == w.(poll := Some(Poll(batch, 0, |w.mailbox|)), missing := w.missing + AbsentIds(w.mailbox, absent))
    case IngestAct(x, currency, r) =>
      && w.poll.Some? && w.poll.value.done < |w.poll.value.batch|
      && x.message == w.poll.value.batch[w.poll.value.done]
      && Ran(w.db, w'.db, re, x, currency, now, r)
      && var id := x.message.internetMessageId;
         w' == w.(db := w'.db, poll := Some(w.poll.value.(done := w.poll.value.done + 1)),
                  filtered := if r.FilteredOut? then w.filtered + {id} else w.filtered,
                  raised := if r.Raised? then w.raised + {id} else w.raised)
    case SaveAct =>
      && w.poll.Some? && w.poll.value.done == |w.poll.value.batch|
      && w' == w.(cursor := w.poll.value.next, poll := None)
    case StopAct => w' == w.(poll := None)
    case OtherAct(e) =>
      && Step(w.db, e, now, w'.db, re)
      && w' == w.(db := w'.db, erased := w.erased + (Ids(w.db.emails) - Ids(w'.db.emails)))
  }

  /** The message with this id is stored, or there is a reason on record why it is not. */
  predicate Accounted(w: PollWorld, id: string) {
    id in Ids(w.db.emails) || id in w.filtered || id in w.raised || id in w.missing || id in w.erased
  }

  /** Everything behind the cursor is accounted for, and everything a poll has passed or still holds will be. */
  ghost predicate Tracked(w: PollWorld) {
    && w.cursor <= |w.mailbox|
    && (forall i | 0 <= i < w.cursor :: Accounted(w, w.mailbox[i].internetMessageId))
    && (w.poll.Some? ==>
          var p := w.poll.value;
          && p.done <= |p.batch| && p.next <= |w.mailbox| && w.cursor <= p.next
          && (forall k | 0 <= k < p.done :: Accounted(w, p.batch[k].internetMessageId))
          && (forall i | 0 <= i < p.next :: Accounted(w, w.mailbox[i].internetMessageId) || w.mailbox[i] in p.batch))
  }

  // ---- keeping track ------------------------------------------------------------------------

  lemma KnownIds(emails: map<nat, RawEmail>, id: string)
    ensures Known(emails, id) <==> id in Ids(emails)
  {
  }

  /** An ingest leaves its message accounted for. */
  lemma RanAccounts(d: Db, d': Db, re: Regex, x: Delivery, currency: string, now: int, r: IngestOutcome)
    requires Ran(d, d', re, x, currency, now, r)
    ensures Ids(d.emails) <= Ids(d'.emails)
    ensures r.FilteredOut? || r.Raised? || x.message.internetMessageId in Ids(d'.emails)
  {
    hide NextCode, NewCharge, IsRefundChoice, Enqueued, UniqueKeys;
    KnownIds(d.emails, x.message.internetMessageId);
    if r.Created? {
      assert d'.emails == d.emails[NextId(d.emails) := EmailRow(x.message, x.parsed)];
      AddedId(d.emails, NextId(d.emails), EmailRow(x.message, x.parsed));
    }
  }

  lemma AddedId(emails: map<nat, RawEmail>, e: nat, row: RawEmail)
    requires e !in emails
    ensures Ids(emails[e := row]) == Ids(emails) + {row.internetMessageId}
  {
    var after := emails[e := row];
    assert after[e] == row;
    forall id | id in Ids(emails) ensures id in Ids(after) {
      var x :| x in emails && emails[x].internetMessageId == id;
      assert after[x].internetMessageId == id;
    }
  }

  /** Accounts only grow; what was accounted for stays so. */
  ghost predicate Keeps(w: PollWorld, w': PollWorld) {
    && Ids(w.db.emails) <= Ids(w'.db.emails) + w'.erased
    && w.filtered <= w'.filtered && w.raised <= w'.raised && w.missing <= w'.missing && w.erased <= w'.erased
  }

  lemma KeepsAccounts(w: PollWorld, w': PollWorld, id: string)
    requires Keeps(w, w') && Accounted(w, id)
    ensures Accounted(w', id)
  {
  }

  lemma StepKeeps(w: PollWorld, act: PollAct, now: int, w': PollWorld, re: Regex)
    requires PollStep(w, act, now, w', re)
    ensures Keeps(w, w')
  {
    hide Step, Ids, Ran, IsBatch, AbsentIds;
    if act.IngestAct? {
      RanAccounts(w.db, w'.db, re, act.delivery, act.currency, now, act.outcome);
    }
  }

  lemma FetchTracks(w: PollWorld, act: PollAct, now: int, w': PollWorld, re: Regex)
    requires Tracked(w) && PollStep(w, act, now, w', re) && act.FetchAct?
    ensures Tracked(w')
  {
    StepKeeps(w, act, now, w', re);
    hide Accounted, Keeps, Ids;
    forall i | 0 <= i < |w.mailbox|
      ensures Accounted(w', w.mailbox[i].internetMessageId) || w.mailbox[i] in act.batch
    {
      if i < w.cursor {
        KeepsAccounts(w, w', w.mailbox[i].internetMessageId);
      } else if i in act.absent {
        MissingIsAccounted(w', w.mailbox, act.absent, i);
      }
    }
    forall i | 0 <= i < w.cursor ensures Accounted(w', w.mailbox[i].internetMessageId) {
      KeepsAccounts(w, w', w.mailbox[i].internetMessageId);
    }
  }

  lemma MissingIsAccounted(w: PollWorld, mailbox: seq<GraphMessage>, absent: set<nat>, i: nat)
    requires AbsentIds(mailbox, absent) <= w.missing && i < |mailbox| && i in absent
    ensures Accounted(w, mailbox[i].internetMessageId)
  {
  }

  /** What was accounted for stays so, for the mailbox and for what a poll has passed. */
  lemma TrackedStays(w: PollWorld, w': PollWorld)
    requires Tracked(w) && Keeps(w, w') && w.mailbox <= w'.mailbox
    ensures forall i | 0 <= i < |w.mailbox| && Accounted(w, w.mailbox[i].internetMessageId) ::
              Accounted(w', w'.mailbox[i].internetMessageId)
    ensures w.poll.Some? ==> forall k | 0 <= k < w.poll.value.done ::
              Accounted(w', w.poll.value.batch[k].internetMessageId)
  {
    hide Accounted, Keeps;
    forall i | 0 <= i < |w.mailbox| && Accounted(w, w.mailbox[i].internetMessageId)
      ensures Accounted(w', w'.mailbox[i].internetMessageId)
    {
      assert w'.mailbox[i] == w.mailbox[i];
      KeepsAccounts(w, w', w.mailbox[i].internetMessageId);
    }
    if w.poll.Some? {
      forall k | 0 <= k < w.poll.value.done ensures Accounted(w', w.poll.value.batch[k].internetMessageId) {
        KeepsAccounts(w, w', w.poll.value.batch[k].internetMessageId);
      }
    }
  }

  lemma IngestTracks(w: PollWorld, act: PollAct, now: int, w': PollWorld, re: Regex)
    requires Tracked(w) && PollStep(w, act, now, w', re) && act.IngestAct?
    ensures Tracked(w')
  {
    StepKeeps(w, act, now, w', re);
    IngestedIsAccounted(w, act, now, w', re);
    hide Accounted, Keeps, Ran, Ids;
    TrackedStays(w, w');
  }

  lemma StepTracks(w: PollWorld, act: PollAct, now: int, w': PollWorld, re: Regex)
    requires Tracked(w) && PollStep(w, act, now, w', re)
    ensures Tracked(w')
  {
    if act.FetchAct? {
      FetchTracks(w, act, now, w', re);
    } else if act.IngestAct? {
      IngestTracks(w, act, now, w', re);
    } else {
      StepKeeps(w, act, now, w', re);
      hide Accounted, Keeps, Step, Ran, IsBatch, Ids;
      TrackedStays(w, w');
    }
  }

  lemma IngestedIsAccounted(w: PollWorld, act: PollAct, now: int, w': PollWorld, re: Regex)
    requires PollStep(w, act, now, w', re) && act.IngestAct?
    ensures Accounted(w', act.delivery.message.internetMessageId)
  {
    hide Ids, Ran;
    RanAccounts(w.db, w'.db, re, act.delivery, act.currency, now, act.outcome);
  }

  // ---- every history --------------------------------------------------------------------------

  const FRESH := PollWorld(EmptyDb, [], 0, None, {}, {}, {}, {})

  datatype PollRun = PollRun(worlds: seq<PollWorld>, acts: seq<PollAct>, times: seq<int>)

  ghost predicate IsPollRun(t: PollRun, re: Regex) {
    && |t.worlds| == |t.acts| + 1 && |t.times| == |t.acts|
    && t.worlds[0] == FRESH
    && forall k | 0 <= k < |t.acts| :: PollStep(t.worlds[k], t.acts[k], t.times[k], t.worlds[k + 1], re)
  }

  lemma PollStepKeepsInv(w: PollWorld, act: PollAct, now: int, w': PollWorld, re: Regex)
    requires Inv(w.db) && PollStep(w, act, now, w', re)
    ensures Inv(w'.db)
  {
    hide Inv, Step, Ran, Ids, AbsentIds, IsBatch;
    match act
    case IngestAct(x, currency, r) => RanKeepsInv(w.db, w'.db, re, x, currency, now, r);
    case OtherAct(e) => StepKeepsInv(w.db, e, now, w'.db, re);
    case _ =>
  }

  /**
   No loss.  In every interleaving of polls, ingests, crashes, replays, full
   resyncs and other sessions, a message behind the saved cursor is stored, was
   rejected by the filter, or was stored and then deleted, unless its ingest
   raised or its fetch returned nothing.  Whatever the replays, each message id
   has at most one stored email and each stored email exactly one charge.
  */
  lemma {:induction false} NothingIsLost(t: PollRun, re: Regex, k: nat)
    requires IsPollRun(t, re) && k < |t.worlds|
    ensures Tracked(t.worlds[k]) && Inv(t.worlds[k].db)
    ensures var w := t.worlds[k];
            && (forall i | 0 <= i < w.cursor :: Accounted(w, w.mailbox[i].internetMessageId))
            && EmailsDistinct(w.db.emails)
            && forall e | e in w.db.emails ::
                 exists tx :: DerivedFrom(w.db.transactions, e) == {tx}
    decreases k
  {
    hide PollStep, Tracked, Inv, FRESH, Accounted;
    if k == 0 {
      FreshIsTracked();
    } else {
      NothingIsLost(t, re, k - 1);
      StepTracks(t.worlds[k - 1], t.acts[k - 1], t.times[k - 1], t.worlds[k], re);
      PollStepKeepsInv(t.worlds[k - 1], t.acts[k - 1], t.times[k - 1], t.worlds[k], re);
    }
    TrackedMeans(t.worlds[k]);
    OneChargeEach(t.worlds[k].db);
  }

  /**
   A code collision loses a new, wanted message if and only if every one of the
   five allocation attempts collides; the cursor moves on all the same.
  */
  lemma CollisionsLoseOnlyTogether(d: Db, d': Db, re: Regex, x: Delivery, currency: string, now: int, r: IngestOutcome)
    requires Ran(d, d', re, x, currency, now, r) && x.allowed && !Known(d.emails, x.message.internetMessageId)
    ensures Known(d'.emails, x.message.internetMessageId) <==>
            exists n | 0 <= n < ATTEMPTS :: NextCode(d.transactions) !in x.rivals[n]
  {
    hide NextCode, NewCharge, IsRefundChoice, Enqueued, UniqueKeys, Known;
    KnownIds(d.emails, x.message.internetMessageId);
    KnownIds(d'.emails, x.message.internetMessageId);
    RanAccounts(d, d', re, x, currency, now, r);
  }

  /** The act tries to store a message with this id. */
  predicate Brings(act: PollAct, id: string) {
    match act
    case IngestAct(x, _, _) => x.message.internetMessageId == id
    case OtherAct(e) => e.IngestEvent? && e.email.internetMessageId == id
    case _ => false
  }

  lemma RaisedStoresNothing(d: Db, d': Db, re: Regex, x: Delivery, currency: string, now: int)
    requires Ran(d, d', re, x, currency, now, Raised)
    ensures d' == d && x.message.internetMessageId !in Ids(d'.emails)
  {
    hide NextCode, NewCharge, IsRefundChoice, Enqueued, UniqueKeys;
    KnownIds(d.emails, x.message.internetMessageId);
  }

  lemma RanStoresItsOwn(d: Db, d': Db, re: Regex, x: Delivery, currency: string, now: int, r: IngestOutcome)
    requires Ran(d, d', re, x, currency, now, r)
    ensures Ids(d'.emails) <= Ids(d.emails) + {x.message.internetMessageId}
  {
    hide NextCode, NewCharge, IsRefundChoice, Enqueued, UniqueKeys, Known;
    if r.Created? {
      AddedId(d.emails, NextId(d.emails), EmailRow(x.message, x.parsed));
    }
  }

  lemma OnlyItsIngestStores(w: PollWorld, act: PollAct, now: int, w': PollWorld, re: Regex, id: string)
    requires PollStep(w, act, now, w', re) && !Brings(act, id) && id !in Ids(w.db.emails)
    ensures id !in Ids(w'.db.emails)
  {
    hide Ids, Ran, Step, IsBatch, AbsentIds;
    match act
    case IngestAct(x, currency, r) => RanStoresItsOwn(w.db, w'.db, re, x, currency, now, r);
    case OtherAct(e) => OnlyIngestStores(w.db, e, now, w'.db, re, id);
    case _ =>
  }

  lemma OnlyIngestStores(d: Db, e: Event, now: int, d': Db, re: Regex, id: string)
    requires Step(d, e, now, d', re) && id !in Ids(d.emails)
    requires !e.IngestEvent? || e.email.internetMessageId != id
    ensures id !in Ids(d'.emails)
  {
    hide Ids, Swept, Announced, Confirmed, MarkedDeleted, Captured, Linked, Attached, Assigned, Detached, Resent,
      Edited, Skipped, AttachmentDeleted, Enqueued, SameRows, NewCharge, IsRefundChoice, Known, Fixable, WithFields,
      Without, Released, Unrelated, Withdrawn, Silenced, UniqueKeys;
    if e.IngestEvent? {
      AddedId(d.emails, NextId(d.emails), EmailRow(e.email, e.parsed));
    } else if e.ReparseEvent? {
      ClearedIds(d.emails, Fixable(d.emails, e.parse));
    } else if e.DeleteEvent? {
      FewerIds(d.emails, d'.emails);
    } else {
      SameEmails(d, e, now, d', re);
    }
  }

  lemma FewerIds(emails: map<nat, RawEmail>, fewer: map<nat, RawEmail>)
    requires forall e | e in fewer :: e in emails && fewer[e] == emails[e]
    ensures Ids(fewer) <= Ids(emails)
  {
  }

  /** The poll of world `j` still runs in world `n`. */
  ghost predicate SamePoll(t: PollRun, j: nat, n: nat) {
    j <= n < |t.worlds| && n <= |t.acts| && t.worlds[j].poll.Some?
    && forall k | j <= k < n :: !t.acts[k].StopAct? && !t.acts[k].SaveAct?
  }

  lemma {:induction false} PollGoesOn(t: PollRun, re: Regex, j: nat, n: nat, id: string)
    requires IsPollRun(t, re) && SamePoll(t, j, n) && id !in Ids(t.worlds[j].db.emails)
    requires forall k | j <= k < n :: !Brings(t.acts[k], id)
    ensures t.worlds[n].poll.Some? && t.worlds[n].poll.value.next == t.worlds[j].poll.value.next
    ensures t.worlds[j].mailbox <= t.worlds[n].mailbox && id !in Ids(t.worlds[n].db.emails)
    decreases n
  {
    hide Ids, Step, Ran, Brings, IsBatch, AbsentIds, FRESH;
    if j < n {
      PollGoesOn(t, re, j, n - 1, id);
      assert PollStep(t.worlds[n - 1], t.acts[n - 1], t.times[n - 1], t.worlds[n], re);
      OnlyItsIngestStores(t.worlds[n - 1], t.acts[n - 1], t.times[n - 1], t.worlds[n], re, id);
    }
  }

  /**
   A raised ingest is passed: if act `j` raises and the poll it belongs to ends
   by saving its cursor at act `n`, the cursor is past the message, and it is
   not stored, unless something else ingested it in between.
  */
  lemma RaisedIsPassed(t: PollRun, re: Regex, j: nat, n: nat, i: nat)
    requires IsPollRun(t, re) && j < n < |t.acts|
    requires t.acts[j].IngestAct? && t.acts[j].outcome.Raised? && t.acts[n].SaveAct? && SamePoll(t, j, n)
    requires i < |t.worlds[j].mailbox| && i < t.worlds[j].poll.value.next
    requires t.acts[j].delivery.message == t.worlds[j].mailbox[i]
    requires forall k | j < k < n :: !Brings(t.acts[k], t.worlds[j].mailbox[i].internetMessageId)
    ensures i < t.worlds[n + 1].cursor <= |t.worlds[n + 1].mailbox|
    ensures t.worlds[n + 1].mailbox[i] == t.worlds[j].mailbox[i]
    ensures !Known(t.worlds[n + 1].db.emails, t.worlds[j].mailbox[i].internetMessageId)
  {
    var id := t.worlds[j].mailbox[i].internetMessageId;
    NothingIsLost(t, re, n + 1);
    TrackedMeans(t.worlds[n + 1]);
    hide Ids, Known, Brings, Inv, FRESH, Tracked, EmailsDistinct, DerivedFrom, PollStep;
    RaisedGoesOn(t.worlds[j], t.acts[j], t.times[j], t.worlds[j + 1], re);
    PollGoesOn(t, re, j + 1, n, id);
    SavePasses(t.worlds[n], t.times[n], t.worlds[n + 1], re);
    KnownIds(t.worlds[n + 1].db.emails, id);
  }

  lemma RaisedGoesOn(w: PollWorld, act: PollAct, now: int, w': PollWorld, re: Regex)
    requires PollStep(w, act, now, w', re) && act.IngestAct? && act.outcome.Raised?
    ensures w.poll.Some? && w'.poll.Some? && w'.poll.value.next == w.poll.value.next && w'.mailbox == w.mailbox
    ensures act.delivery.message.internetMessageId !in Ids(w'.db.emails)
  {
    hide Ids, Ran;
    RaisedStoresNothing(w.db, w'.db, re, act.delivery, act.currency, now);
  }

  lemma SavePasses(w: PollWorld, now: int, w': PollWorld, re: Regex)
    requires PollStep(w, SaveAct, now, w', re)
    ensures w.poll.Some? && w'.cursor == w.poll.value.next && w'.mailbox == w.mailbox && w'.db == w.db
  {
  }

  /** Only deleting a charge takes a stored email away, and only its own. */
  lemma OnlyDeletionErases(d: Db, e: Event, now: int, d': Db, re: Regex)
    requires Inv(d) && Step(d, e, now, d', re)
    ensures !e.DeleteEvent? ==> Ids(d.emails) <= Ids(d'.emails)
    ensures e.DeleteEvent? ==>
              var mine := d.transactions[e.tx].emailId.value;
              Ids(d.emails) - Ids(d'.emails) == {d.emails[mine].internetMessageId}
  {
    hide Inv, Ids;
    if e.DeleteEvent? {
      DeletedId(d, d', e.tx, e.deleteReceipts, now);
    } else {
      KeptIds(d, e, now, d', re);
    }
  }

  lemma DeletedId(d: Db, d': Db, tx: nat, deleteReceipts: bool, now: int)
    requires Inv(d) && ChargeDeleted(d, d', tx, deleteReceipts, now)
    ensures var mine := d.transactions[tx].emailId.value;
            Ids(d.emails) - Ids(d'.emails) == {d.emails[mine].internetMessageId}
  {
    hide Filing, Talk, Work, Without, Released, Unrelated, EmailsLeft;
    var mine := d.transactions[tx].emailId.value;
    WithoutRows(d.transactions, tx);
    WithoutKeepsEmails(d.transactions, d'.transactions, d.emails, tx);
    RemovedId(d.emails, mine);
  }

  /** Deleting a charge lets its email be ingested again: the same message is no duplicate any more. */
  lemma DeletedMessageCanReturn(d: Db, d1: Db, d2: Db, tx: nat, deleteReceipts: bool, now: int,
                                re: Regex, x: Delivery, currency: string, later: int, r: IngestOutcome)
    requires Inv(d) && ChargeDeleted(d, d1, tx, deleteReceipts, now)
    requires x.message.internetMessageId == d.emails[d.transactions[tx].emailId.value].internetMessageId
    requires Ran(d1, d2, re, x, currency, later, r) && x.allowed
    ensures r.Created? <==> exists n | 0 <= n < ATTEMPTS :: NextCode(d1.transactions) !in x.rivals[n]
  {
    hide Inv, Ids, Known, NextCode, Ingested, ChargeDeleted;
    DeletedId(d, d1, tx, deleteReceipts, now);
    KnownIds(d1.emails, x.message.internetMessageId);
  }

  lemma RemovedId(emails: map<nat, RawEmail>, e: nat)
    requires EmailsDistinct(emails) && e in emails
    ensures Ids(emails) - Ids(emails - {e}) == {emails[e].internetMessageId}
  {
    var rest := emails - {e};
    forall id | id in Ids(emails) && id != emails[e].internetMessageId ensures id in Ids(rest) {
      var x :| x in emails && emails[x].internetMessageId == id;
      assert rest[x].internetMessageId == id;
    }
  }

  lemma KeptIds(d: Db, e: Event, now: int, d': Db, re: Regex)
    requires Step(d, e, now, d', re) && !e.DeleteEvent?
    ensures Ids(d.emails) <= Ids(d'.emails)
  {
    hide Ids, Swept, Announced, Confirmed, MarkedDeleted, Captured, Linked, Attached, Assigned, Detached, Resent,
      Edited, Skipped, AttachmentDeleted, Enqueued, SameRows, NewCharge, IsRefundChoice, Known, Fixable, WithFields;
    if e.IngestEvent? {
      AddedId(d.emails, NextId(d.emails), EmailRow(e.email, e.parsed));
    } else if e.ReparseEvent? {
      ClearedIds(d.emails, Fixable(d.emails, e.parse));
    } else {
      SameEmails(d, e, now, d', re);
    }
  }

  lemma ClearedIds(emails: map<nat, RawEmail>, fixed: set<nat>)
    ensures Ids(Cleared(emails, fixed)) == Ids(emails)
  {
    var after := Cleared(emails, fixed);
    forall id | id in Ids(emails) ensures id in Ids(after) {
      var x :| x in emails && emails[x].internetMessageId == id;
      assert after[x].internetMessageId == id;
    }
  }

  lemma SameEmails(d: Db, e: Event, now: int, d': Db, re: Regex)
    requires Step(d, e, now, d', re) && !e.DeleteEvent? && !e.IngestEvent? && !e.ReparseEvent?
    ensures d'.emails == d.emails
  {
    hide Ids, Swept, FiledUnder, Enqueued, SameRows, WithCode, Linkable, UniqueFiles, Withdrawn, RuleSet, ToFile,
      WithFiled, Receipts, EditedRow, HandReceipted;
    if Background(e) {
      SameEmailsBehind(d, e, now, d', re);
    }
  }

  lemma SameEmailsBehind(d: Db, e: Event, now: int, d': Db, re: Regex)
    requires Step(d, e, now, d', re) && Background(e) && !e.IngestEvent?
    ensures d'.emails == d.emails
  {
    hide Ids, Swept, FiledUnder, Enqueued, SameRows, WithCode, Linkable, UniqueFiles, Withdrawn, RuleSet, ToFile,
      WithFiled, Attached, Assigned, Detached, Resent, Edited, Skipped, ChargeDeleted, AttachmentDeleted, Reparsed;
  }

  lemma FreshIsTracked()
    ensures Tracked(FRESH) && Inv(FRESH.db)
  {
  }

  lemma TrackedMeans(w: PollWorld)
    requires Tracked(w)
    ensures w.cursor <= |w.mailbox| && forall i | 0 <= i < w.cursor :: Accounted(w, w.mailbox[i].internetMessageId)
  {
    hide Accounted;
  }

  lemma OneChargeEach(d: Db)
    requires Inv(d)
    ensures EmailsDistinct(d.emails)
    ensures forall e | e in d.emails :: exists tx :: DerivedFrom(d.transactions, e) == {tx}
  {
    forall e | e in d.emails ensures exists tx :: DerivedFrom(d.transactions, e) == {tx} {
      assert EmailsBack(d.transactions, d.emails);
      var tx :| tx in d.transactions && d.transactions[tx].emailId == Some(e);
      assert DerivedFrom(d.transactions, e) == {tx};
    }
  }
}
