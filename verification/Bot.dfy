/** Capturing an upload and linking it to a charge (app/discordbot/bot.py). */
module Bot {
  import opened Schema
  import opened Ordering
  import opened Outbox
  import opened Storage

  function AttachmentRow(file: StoredFile, message: nat): Attachment {
    Attachment(None, file.path, file.bytes, file.sha256, Some(message), false)
  }

  /** The database after `_persist_capture`; a message already recorded makes the insert fail. */
  function Captured(d: Db, file: StoredFile, message: nat): Result<Db> {
    if message in d.messages then Failure
    else Success(d.(attachments := d.attachments[NextId(d.attachments) := AttachmentRow(file, message)],
                    messages := d.messages[message := DiscordMessage(Receipt, None, None)]))
  }

  method PersistCapture(db: Database, file: StoredFile, message: nat) returns (r: Result<nat>)
    modifies db`attachments, db`messages
    ensures r.Success? <==> Captured(old(db.View()), file, message).Success?
    ensures r.Success? ==> r.value == NextId(old(db.attachments))
                           && db.View() == Captured(old(db.View()), file, message).value
    ensures r.Failure? ==> db.View() == old(db.View())
  {
    if message in db.messages {
      return Failure;
    }
    var id := NextId(db.attachments);
    db.attachments := db.attachments[id := AttachmentRow(file, message)];
    db.messages := db.messages[message := DiscordMessage(Receipt, None, None)];
    return Success(id);
  }

  /** The two rows of a capture; a recorded message makes it fail, nothing else does. */
  lemma CapturedRows(d: Db, file: StoredFile, message: nat)
    ensures var r := Captured(d, file, message);
            && (r.Failure? <==> message in d.messages)
            && (r.Success? ==>
                  var a := NextId(d.attachments);
                  && a !in d.attachments
                  && r.value == Db(d.transactions,
                                   d.attachments[a := Attachment(None, file.path, file.bytes, file.sha256,
                                                                 Some(message), false)],
                                   d.emails, d.messages[message := DiscordMessage(Receipt, None, None)],
                                   d.jobs, d.rules))
  {
  }

  // ---- linking ------------------------------------------------------------------------

  /** The captured, still unassigned attachments among `ids`. */
  function Linkable(atts: map<nat, Attachment>, ids: seq<nat>): set<nat> {
    set a | a in ids && a in atts && atts[a].transactionId.None?
  }

  function FiledUnder(atts: map<nat, Attachment>, linked: set<nat>, tx: nat): map<nat, Attachment> {
    map a | a in atts :: if a in linked then atts[a].(transactionId := Some(tx)) else atts[a]
  }

  function Receipted(tx: Transaction, note: string, now: int): Transaction {
    tx.(status := ReceiptAttached, matchedAt := Some(now),
        notes := if note == "" then tx.notes else Appended(tx.notes, note))
  }

  function Least(ids: seq<nat>): (m: nat)
    requires ids != []
    ensures m in ids && forall a | a in ids :: m <= a
  {
    var s := set a | a in ids;
    assert ids[0] in s && forall a | a in ids :: a in s;
    MinOf(s)
  }

  function FinalizeJob(tx: nat, ids: seq<nat>, now: int): Job
    requires ids != []
  {
    NewJob(Finalize, ForReceipts(tx, ids), Some(FinalizeKey(tx, Least(ids))), now, MAX_ATTEMPTS)
  }

  datatype Link = NoCharge | Link(tx: nat, linked: nat)

  /**
   The database after `_link_attachments`: unchanged when no charge has the code
   or nothing is left to link; a second copy of a file the charge already has
   violates the uniqueness constraint and fails the whole call.
  */
  ghost function Linked(d: Db, ids: seq<nat>, code: string, note: string, now: int): Result<Db>
    requires UniqueKeys(d.jobs)
  {
    match WithCode(d.transactions, code)
    case None => Success(d)
    case Some(tx) =>
      if Linkable(d.attachments, ids) == {} then Success(d)
      else LinkedTo(d, ids, tx, note, now)
  }

  ghost function LinkedTo(d: Db, ids: seq<nat>, tx: nat, note: string, now: int): Result<Db>
    requires UniqueKeys(d.jobs) && tx in d.transactions && Linkable(d.attachments, ids) != {}
  {
    var atts := FiledUnder(d.attachments, Linkable(d.attachments, ids), tx);
    if !UniqueFiles(atts) then Failure
    else
      assert ids != [];
      Success(d.(attachments := atts,
                 transactions := d.transactions[tx := Receipted(d.transactions[tx], note, now)],
                 jobs := Enqueued(d.jobs, FinalizeJob(tx, ids, now)).0))
  }

  function Report(d: Db, ids: seq<nat>, code: string): Link {
    match WithCode(d.transactions, code)
    case None => NoCharge
    case Some(tx) => Link(tx, |Linkable(d.attachments, ids)|)
  }

  /** Attachment `a` is one of those asked for, and of no charge yet. */
  predicate Free(atts: map<nat, Attachment>, ids: seq<nat>, a: nat) {
    a in ids && a in atts && atts[a].transactionId == None
  }

  /** Linking does nothing for an unknown code, or when every attachment is gone or of some charge already. */
  lemma LinksNothing(d: Db, ids: seq<nat>, code: string, note: string, now: int)
    requires UniqueKeys(d.jobs)
    requires (forall i | i in d.transactions :: d.transactions[i].shortCode != code)
             || forall a :: !Free(d.attachments, ids, a)
    ensures Linked(d, ids, code, note, now) == Success(d)
  {
    WithCodeFinds(d.transactions, code);
    assert forall a :: a in Linkable(d.attachments, ids) <==> Free(d.attachments, ids, a);
  }

  /**
   Otherwise the free attachments, and no others, go under the charge, which is
   marked and gets the note on a line of its own; unless two of its files would be
   the same, which fails.
  */
  lemma LinkedRows(d: Db, ids: seq<nat>, code: string, note: string, now: int)
    requires UniqueKeys(d.jobs) && UniqueFiles(d.attachments)
    requires (exists i :: i in d.transactions && d.transactions[i].shortCode == code)
    requires exists a :: Free(d.attachments, ids, a)
    ensures WithCode(d.transactions, code).Some?
    ensures var tx, r, atts := WithCode(d.transactions, code).value, Linked(d, ids, code, note, now), d.attachments;
            && (r.Failure? <==> exists a, b ::
                  && Free(atts, ids, a) && b in atts && b != a && atts[b].sha256 == atts[a].sha256
                  && (Free(atts, ids, b) || atts[b].transactionId == Some(tx)))
            && (r.Success? ==>
                  var d', row := r.value, d.transactions[tx];
                  && d'.attachments.Keys == atts.Keys
                  && (forall a | a in atts ::
                        d'.attachments[a] ==
                        if Free(atts, ids, a) then atts[a].(transactionId := Some(tx)) else atts[a])
                  && d'.transactions == d.transactions[tx :=
                       row.(status := ReceiptAttached, matchedAt := Some(now),
                            notes := if note == "" then row.notes
                                     else if row.notes == "" then note else row.notes + "\n" + note)]
                  && d'.messages == d.messages && d'.emails == d.emails && d'.rules == d.rules)
  {
    WithCodeFinds(d.transactions, code);
    FiledClash(d.attachments, ids, WithCode(d.transactions, code).value);
    hide Enqueued, UniqueKeys, UniqueFiles;
    assert forall a :: a in Linkable(d.attachments, ids) <==> Free(d.attachments, ids, a);
  }

  /** The answer counts the attachments filed. */
  lemma ReportIs(d: Db, ids: seq<nat>, code: string, free: set<nat>)
    requires forall a :: a in free <==> Free(d.attachments, ids, a)
    ensures Report(d, ids, code) == NoCharge <==> forall i | i in d.transactions :: d.transactions[i].shortCode != code
    ensures Report(d, ids, code).Link? ==>
              && Report(d, ids, code).tx in d.transactions && d.transactions[Report(d, ids, code).tx].shortCode == code
              && Report(d, ids, code).linked == |free|
  {
    WithCodeFinds(d.transactions, code);
    assert free == Linkable(d.attachments, ids);
  }

  lemma FiledClash(atts: map<nat, Attachment>, ids: seq<nat>, tx: nat)
    requires UniqueFiles(atts)
    ensures !UniqueFiles(FiledUnder(atts, Linkable(atts, ids), tx)) <==>
            exists a, b ::
              && Free(atts, ids, a) && b in atts && b != a && atts[b].sha256 == atts[a].sha256
              && (Free(atts, ids, b) || atts[b].transactionId == Some(tx))
  {
    var filed := FiledUnder(atts, Linkable(atts, ids), tx);
    forall a: nat ensures a in Linkable(atts, ids) <==> Free(atts, ids, a) { }
    hide Linkable;
    if a, b :|
        && Free(atts, ids, a) && b in atts && b != a && atts[b].sha256 == atts[a].sha256
        && (Free(atts, ids, b) || atts[b].transactionId == Some(tx))
    {
      assert filed[a].transactionId == filed[b].transactionId == Some(tx);
    }
  }

  /** With that one finalize job for all the attachments of the call is ensured, due at once. */
  lemma LinkedJob(d: Db, ids: seq<nat>, code: string, note: string, now: int)
    requires UniqueKeys(d.jobs) && Linked(d, ids, code, note, now).Success?
    requires exists i :: i in d.transactions && d.transactions[i].shortCode == code
    requires exists a :: Free(d.attachments, ids, a)
    ensures ids != [] && WithCode(d.transactions, code).Some?
    ensures var tx, t, t' := WithCode(d.transactions, code).value, d.jobs, Linked(d, ids, code, note, now).value.jobs;
            exists m ::
              && m in ids && (forall a | a in ids :: m <= a)
              && (forall i | i in t && t[i].key != Some(FinalizeKey(tx, m)) :: i in t' && t'[i] == t[i])
              && (forall i | i in t' && !(i in t && t'[i] == t[i]) ::
                    t'[i] == Job(Finalize, ForReceipts(tx, ids), Some(FinalizeKey(tx, m)), Pending, 0, 8, now))
              && exists i :: i in t' && t'[i].key == Some(FinalizeKey(tx, m)) && t'[i].status in {Pending, Running}
  {
    WithCodeFinds(d.transactions, code);
    hide Enqueued, UniqueKeys, UniqueFiles, FiledUnder, Least;
    assert forall a :: a in Linkable(d.attachments, ids) <==> Free(d.attachments, ids, a);
    var tx := WithCode(d.transactions, code).value;
    EnqueueAnswers(d.jobs, FinalizeJob(tx, ids, now));
    var m := Least(ids);
    assert m in ids && forall a | a in ids :: m <= a;
  }

  lemma LinkOneMore(atts: map<nat, Attachment>, ids: seq<nat>, n: nat, tx: nat)
    requires n < |ids|
    ensures var linked := Linkable(atts, ids[..n]);
            var seen := FiledUnder(atts, linked, tx);
            var more := ids[n] in seen && seen[ids[n]].transactionId.None?;
            && Linkable(atts, ids[..n + 1]) == (if more then linked + {ids[n]} else linked)
            && (more ==> ids[n] !in linked)
            && (more ==> seen[ids[n] := seen[ids[n]].(transactionId := Some(tx))]
                         == FiledUnder(atts, linked + {ids[n]}, tx))
  {
    assert ids[..n + 1] == ids[..n] + [ids[n]];
  }

  /** The loop over the attachment ids. */
  method FileAttachments(db: Database, ids: seq<nat>, tx: nat) returns (linked: nat)
    modifies db`attachments
    ensures linked == |Linkable(old(db.attachments), ids)|
    ensures db.attachments == FiledUnder(old(db.attachments), Linkable(old(db.attachments), ids), tx)
  {
    hide Linkable, FiledUnder;
    ghost var before := db.attachments;
    linked := 0;
    LinkNothing(before, ids, tx);
    for n := 0 to |ids|
      invariant linked == |Linkable(before, ids[..n])|
      invariant db.attachments == FiledUnder(before, Linkable(before, ids[..n]), tx)
    {
      LinkOneMore(before, ids, n, tx);
      var a := ids[n];
      if a in db.attachments && db.attachments[a].transactionId.None? {
        db.attachments := db.attachments[a := db.attachments[a].(transactionId := Some(tx))];
        linked := linked + 1;
      }
    }
    assert ids[..|ids|] == ids;
  }

  lemma LinkNothing(atts: map<nat, Attachment>, ids: seq<nat>, tx: nat)
    ensures Linkable(atts, ids[..0]) == {} && FiledUnder(atts, {}, tx) == atts
  {
  }

  /** SQLite's check of UNIQUE (transaction_id, sha256) when the rows are written. */
  predicate Clashes(atts: map<nat, Attachment>) {
    exists a, b | a in atts && b in atts :: a != b && atts[a].transactionId.Some?
      && atts[a].transactionId == atts[b].transactionId && atts[a].sha256 == atts[b].sha256
  }

  lemma ClashesExactly(atts: map<nat, Attachment>)
    ensures Clashes(atts) <==> !UniqueFiles(atts)
  {
  }

  method LinkAttachments(db: Database, ids: seq<nat>, code: string, note: string, now: int)
    returns (r: Result<Link>)
    requires UniqueKeys(db.jobs)
    modifies db`attachments, db`transactions, db`jobs
    ensures r.Success? <==> Linked(old(db.View()), ids, code, note, now).Success?
    ensures r.Success? ==> db.View() == Linked(old(db.View()), ids, code, note, now).value
    ensures r.Failure? ==> db.View() == old(db.View())
    ensures r.Success? ==> r.value == Report(old(db.View()), ids, code)
  {
    hide Linkable, FiledUnder, Receipted, UniqueKeys, UniqueFiles, Clashes, Enqueued, WithCode;
    var found := WithCode(db.transactions, code);
    if found.None? {
      return Success(NoCharge);
    }
    var tx, before := found.value, db.attachments;
    var linked := FileAttachments(db, ids, tx);
    LinkedNone(before, ids, tx);
    if linked > 0 {
      ClashesExactly(db.attachments);
      if Clashes(db.attachments) {
        db.attachments := before;
        return Failure;
      }
      db.transactions := db.transactions[tx := Receipted(db.transactions[tx], note, now)];
      var job := Enqueue(db, Finalize, ForReceipts(tx, ids), Some(FinalizeKey(tx, Least(ids))), now);
    }
    return Success(Link(tx, linked));
  }

  lemma LinkedNone(atts: map<nat, Attachment>, ids: seq<nat>, tx: nat)
    ensures Linkable(atts, ids) == {} ==> FiledUnder(atts, Linkable(atts, ids), tx) == atts
    ensures Linkable(atts, ids) != {} ==> ids != [] && |Linkable(atts, ids)| > 0
  {
    if Linkable(atts, ids) != {} {
      var a :| a in Linkable(atts, ids);
      assert a in ids;
    }
  }

  /** Linking the same attachments again, to any charge, changes nothing: they are taken. */
  lemma LinkingAgainChangesNothing(d: Db, ids: seq<nat>, code: string, note: string, now: int,
                                   code': string, note': string, later: int)
    requires UniqueKeys(d.jobs) && Linked(d, ids, code, note, now).Success? && WithCode(d.transactions, code).Some?
    ensures var d' := Linked(d, ids, code, note, now).value;
            && UniqueKeys(d'.jobs)
            && Linked(d', ids, code', note', later) == Success(d')
  {
    hide WithCode, Enqueued, UniqueFiles;
    var d', tx := Linked(d, ids, code, note, now).value, WithCode(d.transactions, code).value;
    if Linkable(d.attachments, ids) != {} {
      LinkedNone(d.attachments, ids, tx);
      EnqueueEnsuresOnce(d.jobs, FinalizeJob(tx, ids, now));
    }
    assert Linkable(d'.attachments, ids) == {};
  }
}
