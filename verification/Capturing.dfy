/** From an uploaded message to a linked charge (`_capture_message` in app/discordbot/bot.py). */
module Capturing {
  import opened Schema
  import opened Ordering
  import opened Outbox
  import opened Storage
  import opened Bot
  import opened Matching
  import opened Invariants
  import Lapsing
  import Lifecycle

  /** One file of a message, with what the download, the normalization and the disk make of it. */
  datatype Upload = Upload(data: Option<Data>, size: nat, path: string, normalized: Option<Normalized>, landed: Data)

  datatype Outcome =
    | NothingStored
    | Filed(tx: nat)
    | Gone
    | Asked(candidates: seq<nat>, truncated: bool)
    | NoCharges
    | Raised

  function StoredOf(h: Hash, u: Upload): Result<StoredFile> {
    match u.data
    case None => Failure
    case Some(data) => StoreOutcome(h, data, Some(u.size), u.path, u.normalized, u.landed)
  }

  /** The files of a message that can be stored, in order. */
  function Storable(h: Hash, us: seq<Upload>): seq<StoredFile> {
    if us == [] then []
    else
      var n := |us| - 1;
      Storable(h, us[..n]) + (if StoredOf(h, us[n]).Success? then [StoredOf(h, us[n]).value] else [])
  }

  /** The disk once the files of `us` have been stored; a row for each is another matter. */
  function Landed(h: Hash, us: seq<Upload>, files: Files): Files {
    if us == [] then files
    else
      var n := |us| - 1;
      var before := Landed(h, us[..n], files);
      if StoredOf(h, us[n]).Success? then before[us[n].path := us[n].landed] else before
  }

  ghost predicate FreshPaths(us: seq<Upload>, files: Files) {
    && (forall n | 0 <= n < |us| :: us[n].path !in files)
    && (forall m, n | 0 <= m < n < |us| :: us[m].path != us[n].path)
  }

  // ---- the decision -----------------------------------------------------------------------

  /** What happens to the one captured attachment `id`. */
  ghost predicate Decided(d: Db, d': Db, id: nat, referenced: Option<nat>, text: string, note: string,
                          now: int, r: Outcome)
    requires UniqueKeys(d.jobs)
  {
    var m := Resolve(d, referenced, text, now);
    if m.charge.Some? && m.charge.value in d.transactions then
      var code := d.transactions[m.charge.value].shortCode;
      match Linked(d, [id], code, note, now)
      case Failure => d' == d && r == Raised
      case Success(linked) =>
        && d' == linked
        && r == (match Report(d, [id], code) case NoCharge => Gone case Link(tx, _) => Filed(tx))
    else d' == d && r == (if m.candidates == [] then NoCharges else Asked(m.candidates, m.truncated))
  }

  lemma ResolvedIsThere(d: Db, referenced: Option<nat>, text: string, now: int)
    ensures var m := Resolve(d, referenced, text, now); m.charge.Some? ==> m.charge.value in d.transactions
  {
    hide FollowsPriority, Resolve;
    ResolveFollowsPriority(d, referenced, text, now);
    PriorityIsThere(d, referenced, text, now, Resolve(d, referenced, text, now));
  }

  lemma PriorityIsThere(d: Db, referenced: Option<nat>, text: string, now: int, r: MatchResult)
    requires FollowsPriority(d, referenced, text, now, r)
    ensures r.charge.Some? ==> r.charge.value in d.transactions
  {
    hide DecidingCode, IsNewest;
    if |Lapsing.OutstandingCharges(d.transactions)| == 1 && r.charge.Some? && r.how.SoleOpen? {
      assert r.charge.value in Lapsing.OutstandingCharges(d.transactions);
    }
  }

  method Decide(db: Database, id: nat, referenced: Option<nat>, text: string, note: string, now: int)
    returns (r: Outcome)
    requires UniqueKeys(db.jobs)
    modifies db`attachments, db`transactions, db`jobs
    ensures Decided(old(db.View()), db.View(), id, referenced, text, note, now, r)
  {
    hide UniqueKeys, Resolve, Linked, Report;
    var m := Resolve(db.View(), referenced, text, now);
    ResolvedIsThere(db.View(), referenced, text, now);
    if m.charge.Some? {
      var code := db.transactions[m.charge.value].shortCode;
      var linked := LinkAttachments(db, [id], code, note, now);
      r := if linked.Failure? then Raised else if linked.value.NoCharge? then Gone else Filed(linked.value.tx);
    } else {
      r := if m.candidates == [] then NoCharges else Asked(m.candidates, m.truncated);
    }
  }

  // ---- the whole message --------------------------------------------------------------------

  /**
   What a message with files leads to.  None stored: nothing happens.  A record of
   the message exists already, or a second file could be stored: the unique
   message id makes the handler raise, after the first file was captured but
   before anything is linked.  One file: it is captured and then decided on.  The
   file that raised stays on disk without a row.
  */
  ghost predicate CaptureRan(d: Db, d': Db, stored: seq<StoredFile>, message: nat, referenced: Option<nat>,
                             text: string, note: string, now: int, r: Outcome)
    requires UniqueKeys(d.jobs)
  {
    if stored == [] then d' == d && r == NothingStored
    else
      match Captured(d, stored[0], message)
      case Failure => d' == d && r == Raised
      case Success(d1) =>
        if |stored| > 1 then d' == d1 && r == Raised
        else Decided(d1, d', NextId(d.attachments), referenced, text, note, now, r)
  }

  lemma StorableOneMore(h: Hash, us: seq<Upload>, n: nat)
    requires n < |us|
    ensures Storable(h, us[..n + 1]) ==
      (var one := StoredOf(h, us[n]);
       if one.Success? then Storable(h, us[..n]) + [one.value] else Storable(h, us[..n]))
  {
    hide StoredOf;
    assert us[..n + 1][..n] == us[..n];
  }

  /** The loop over the files: what the first storable one leaves, unless a second one raises. */
  method StoreFiles(db: Database, disk: Disk, h: Hash, message: nat, us: seq<Upload>)
    returns (id: Option<nat>, raised: bool, ghost seen: nat)
    requires FreshPaths(us, disk.files)
    modifies db`attachments, db`messages, disk
    ensures seen <= |us| && (!raised ==> seen == |us|)
    ensures StoredSoFar(old(db.View()), db.View(), Storable(h, us[..seen]), message, id, raised)
    ensures disk.files == Landed(h, us[..seen], old(disk.files))
  {
    hide StoreOutcome, Captured, StoredSoFar, Storable, Landed;
    id, raised, seen := None, false, 0;
    NoneStored(db.View(), message);
    assert us[..0] == [];
    NothingStorable(h, disk.files);
    for n := 0 to |us|
      invariant seen == n
      invariant StoredSoFar(old(db.View()), db.View(), Storable(h, us[..n]), message, id, false)
      invariant disk.files == Landed(h, us[..n], old(disk.files))
      invariant forall k | n <= k < |us| :: us[k].path !in disk.files
    {
      seen := n + 1;
      var u := us[n];
      var stored: Result<StoredFile> := Failure;
      if u.data.Some? {
        stored := StoreReceiptBytes(disk, h, u.data.value, Some(u.size), u.path, u.normalized, u.landed);
      }
      assert stored == StoredOf(h, u);
      StorableOneMore(h, us, n);
      LandedOneMore(h, us, n, old(disk.files));
      if stored.Success? {
        OneMoreStored(old(db.View()), db.View(), Storable(h, us[..n]), message, id, stored.value);
        var persisted := PersistCapture(db, stored.value, message);
        if persisted.Failure? {
          return id, true, seen;
        }
        id := Some(persisted.value);
      }
    }
    assert us[..|us|] == us;
  }

  /** The database after some storable files of a message. */
  ghost predicate StoredSoFar(d: Db, d': Db, stored: seq<StoredFile>, message: nat, id: Option<nat>, raised: bool) {
    if stored == [] then d' == d && id.None? && !raised
    else
      match Captured(d, stored[0], message)
      case Failure => d' == d && raised
      case Success(d1) => d' == d1 && (raised <==> |stored| > 1) && id == Some(NextId(d.attachments))
  }

  lemma NothingStorable(h: Hash, files: Files)
    ensures Storable(h, []) == [] && Landed(h, [], files) == files
  {
  }

  lemma LandedOneMore(h: Hash, us: seq<Upload>, n: nat, files: Files)
    requires n < |us|
    ensures Landed(h, us[..n + 1], files) ==
      (var before := Landed(h, us[..n], files);
       if StoredOf(h, us[n]).Success? then before[us[n].path := us[n].landed] else before)
  {
    hide StoredOf;
    assert us[..n + 1][..n] == us[..n];
  }

  lemma NoneStored(d: Db, message: nat)
    ensures StoredSoFar(d, d, [], message, None, false)
  {
  }

  lemma OneMoreStored(d: Db, d': Db, stored: seq<StoredFile>, message: nat, id: Option<nat>, file: StoredFile)
    requires StoredSoFar(d, d', stored, message, id, false)
    ensures Captured(d', file, message).Failure? ==> StoredSoFar(d, d', stored + [file], message, id, true)
    ensures Captured(d', file, message).Success? ==>
              var id' := Some(NextId(d'.attachments));
              StoredSoFar(d, Captured(d', file, message).value, stored + [file], message, id', false)
  {
    hide NextId;
    assert (stored + [file])[0] == if stored == [] then file else stored[0];
  }

  method CaptureMessage(db: Database, disk: Disk, h: Hash, message: nat, us: seq<Upload>,
                        referenced: Option<nat>, text: string, note: string, now: int)
    returns (r: Outcome, ghost seen: nat)
    requires UniqueKeys(db.jobs) && FreshPaths(us, disk.files)
    modifies db`attachments, db`messages, db`transactions, db`jobs, disk
    ensures CaptureRan(old(db.View()), db.View(), Storable(h, us), message, referenced, text, note, now, r)
    ensures seen <= |us| && (r != Raised ==> seen == |us|)
    ensures disk.files == Landed(h, us[..seen], old(disk.files))
  {
    hide UniqueKeys, FreshPaths, Captured, Storable, Decided, StoredSoFar, CaptureRan, Landed;
    ghost var d := db.View();
    var id, raised;
    id, raised, seen := StoreFiles(db, disk, h, message, us);
    assert us[..|us|] == us;
    if raised {
      RaisedRan(d, db.View(), h, us, seen, message, id, referenced, text, note, now);
      r := Raised;
    } else if id.None? {
      NothingRan(d, db.View(), Storable(h, us), message, referenced, text, note, now);
      r := NothingStored;
    } else {
      ghost var d1 := db.View();
      r := Decide(db, id.value, referenced, text, note, now);
      DecidedRan(d, d1, db.View(), Storable(h, us), message, id.value, referenced, text, note, now, r);
    }
  }

  lemma {:induction false} StorablePrefix(h: Hash, us: seq<Upload>, n: nat)
    requires n <= |us|
    ensures Storable(h, us[..n]) <= Storable(h, us)
    decreases |us| - n
  {
    if n < |us| {
      StorableOneMore(h, us, n);
      StorablePrefix(h, us, n + 1);
    } else {
      assert us[..n] == us;
    }
  }

  lemma RaisedRan(d: Db, d': Db, h: Hash, us: seq<Upload>, seen: nat, message: nat, id: Option<nat>,
                  referenced: Option<nat>, text: string, note: string, now: int)
    requires UniqueKeys(d.jobs) && seen <= |us| && StoredSoFar(d, d', Storable(h, us[..seen]), message, id, true)
    ensures CaptureRan(d, d', Storable(h, us), message, referenced, text, note, now, Raised)
  {
    hide Decided, Captured, Storable, UniqueKeys;
    StorablePrefix(h, us, seen);
    var some, all := Storable(h, us[..seen]), Storable(h, us);
    assert some[0] == all[0];
  }

  lemma NothingRan(d: Db, d': Db, stored: seq<StoredFile>, message: nat,
                   referenced: Option<nat>, text: string, note: string, now: int)
    requires UniqueKeys(d.jobs) && StoredSoFar(d, d', stored, message, None, false)
    ensures CaptureRan(d, d', stored, message, referenced, text, note, now, NothingStored)
  {
    hide Decided, Captured, UniqueKeys;
  }

  lemma DecidedRan(d: Db, d1: Db, d': Db, stored: seq<StoredFile>, message: nat, id: nat,
                   referenced: Option<nat>, text: string, note: string, now: int, r: Outcome)
    requires UniqueKeys(d.jobs) && UniqueKeys(d1.jobs) && StoredSoFar(d, d1, stored, message, Some(id), false)
    requires Decided(d1, d', id, referenced, text, note, now, r)
    ensures CaptureRan(d, d', stored, message, referenced, text, note, now, r)
  {
    hide Decided, UniqueKeys;
  }

  // ---- when an upload is filed ----------------------------------------------------------------

  /** The charge already has a receipt with this checksum. */
  predicate HasCopy(atts: map<nat, Attachment>, tx: nat, sha256: string) {
    exists a | a in atts :: atts[a].transactionId == Some(tx) && atts[a].sha256 == sha256
  }

  lemma OneLinkable(atts: map<nat, Attachment>, id: nat)
    requires id in atts && atts[id].transactionId.None?
    ensures Linkable(atts, [id]) == {id}
  {
  }

  lemma UniqueUnlessCopy(atts: map<nat, Attachment>, id: nat, tx: nat)
    requires UniqueFiles(atts) && id in atts && atts[id].transactionId.None?
    ensures UniqueFiles(FiledUnder(atts, {id}, tx)) <==> !HasCopy(atts, tx, atts[id].sha256)
  {
    var atts' := FiledUnder(atts, {id}, tx);
    if HasCopy(atts, tx, atts[id].sha256) {
      var a :| a in atts && atts[a].transactionId == Some(tx) && atts[a].sha256 == atts[id].sha256;
      assert a != id && atts'[a].transactionId == atts'[id].transactionId && atts'[a].sha256 == atts'[id].sha256;
    }
  }

  lemma LinkOne(d: Db, id: nat, tx: nat, note: string, now: int)
    requires Inv(d) && UniqueKeys(d.jobs) && tx in d.transactions
    requires id in d.attachments && d.attachments[id].transactionId.None?
    ensures var code := d.transactions[tx].shortCode;
            var linked := Linked(d, [id], code, note, now);
            && Report(d, [id], code) == Link(tx, 1)
            && (linked.Success? <==> !HasCopy(d.attachments, tx, d.attachments[id].sha256))
            && (linked.Success? ==>
                  && tx in linked.value.transactions && linked.value.transactions[tx].status.ReceiptAttached?
                  && id in linked.value.attachments && linked.value.attachments[id].transactionId == Some(tx))
  {
    hide Inv, UniqueKeys, UniqueFiles, WithCode, Enqueued, HasCopy, Linkable;
    CodeIsTheCharge(d, tx);
    OneLinkable(d.attachments, id);
    FilesAreUnique(d);
    UniqueUnlessCopy(d.attachments, id, tx);
  }

  lemma FilesAreUnique(d: Db)
    requires Inv(d)
    ensures UniqueFiles(d.attachments)
  {
  }

  /**
   In a sound database an upload is filed if and only if it is the only file of
   its message that could be stored, the message is new, the priority rule names
   a charge, and that charge has no copy of the file; a copy makes the handler
   raise and leaves the upload in the orphan queue.  It is filed under the charge
   named, which then is in `receipt_attached`.
  */
  lemma FiledWhereResolved(d: Db, d': Db, stored: seq<StoredFile>, message: nat, referenced: Option<nat>,
                           text: string, note: string, now: int, r: Outcome)
    requires Inv(d) && UniqueKeys(d.jobs) && CaptureRan(d, d', stored, message, referenced, text, note, now, r)
    ensures r.Filed? <==>
      && |stored| == 1 && message !in d.messages
      && var m := Resolve(Captured(d, stored[0], message).value, referenced, text, now);
         m.charge.Some? && !HasCopy(d.attachments, m.charge.value, stored[0].sha256)
    ensures r.Filed? ==>
      var id := NextId(d.attachments);
      && Resolve(Captured(d, stored[0], message).value, referenced, text, now).charge == Some(r.tx)
      && r.tx in d'.transactions && d'.transactions[r.tx].status.ReceiptAttached?
      && id in d'.attachments && d'.attachments[id].transactionId == Some(r.tx)
  {
    hide Inv, UniqueKeys, Resolve, Linked, HasCopy, Report;
    if |stored| == 1 && message !in d.messages {
      var d1 := Captured(d, stored[0], message).value;
      Lifecycle.CaptureKeepsInv(d, stored[0], message);
      ResolvedIsThere(d1, referenced, text, now);
      var m := Resolve(d1, referenced, text, now);
      if m.charge.Some? {
        LinkOne(d1, NextId(d.attachments), m.charge.value, note, now);
        SameCopies(d, stored[0], message, m.charge.value);
      }
    }
  }

  /**
   Every answer, and what it leaves.  The handler raises exactly when the message is
   recorded already, a second file could be stored, or the charge the rule names has
   a copy; it asks for a choice, or finds no charge, exactly when the rule names
   none; a captured file that is not filed is left as an orphan.
  */
  lemma CaptureAnswers(d: Db, d': Db, stored: seq<StoredFile>, message: nat, referenced: Option<nat>,
                       text: string, note: string, now: int, r: Outcome)
    requires Inv(d) && UniqueKeys(d.jobs) && CaptureRan(d, d', stored, message, referenced, text, note, now, r)
    ensures r.NothingStored? <==> stored == []
    ensures stored == [] || message in d.messages ==> d' == d
    ensures stored != [] && message in d.messages ==> r.Raised?
    ensures stored != [] && message !in d.messages ==>
      var d1 := Captured(d, stored[0], message).value;
      var m := Resolve(d1, referenced, text, now);
      && (r.Raised? <==> |stored| > 1 || (m.charge.Some? && HasCopy(d.attachments, m.charge.value, stored[0].sha256)))
      && (r.Filed? <==> |stored| == 1 && m.charge.Some? && !HasCopy(d.attachments, m.charge.value, stored[0].sha256))
      && (!r.Raised? && !r.Filed? ==>
            m.charge.None? && r == if m.candidates == [] then NoCharges else Asked(m.candidates, m.truncated))
      && (!r.Filed? ==> d' == d1)
  {
    hide Inv, UniqueKeys, Resolve, Linked, HasCopy, Report;
    if |stored| == 1 && message !in d.messages {
      var d1 := Captured(d, stored[0], message).value;
      Lifecycle.CaptureKeepsInv(d, stored[0], message);
      ResolvedIsThere(d1, referenced, text, now);
      var m := Resolve(d1, referenced, text, now);
      if m.charge.Some? {
        LinkOne(d1, NextId(d.attachments), m.charge.value, note, now);
        SameCopies(d, stored[0], message, m.charge.value);
      }
    }
  }

  /** The files a message leaves on disk: the old ones, and what landed for each upload that could be stored. */
  lemma {:induction false} LandedAre(h: Hash, us: seq<Upload>, files: Files, path: string)
    requires FreshPaths(us, files)
    ensures path in Landed(h, us, files) <==>
              path in files || exists n :: 0 <= n < |us| && us[n].path == path && StoredOf(h, us[n]).Success?
    ensures path in files ==> path in Landed(h, us, files) && Landed(h, us, files)[path] == files[path]
    ensures forall n | 0 <= n < |us| && StoredOf(h, us[n]).Success? ::
              us[n].path in Landed(h, us, files) && Landed(h, us, files)[us[n].path] == us[n].landed
    decreases |us|
  {
    hide StoredOf;
    if us != [] {
      var n := |us| - 1;
      var init := us[..n];
      assert forall k | 0 <= k < n :: init[k] == us[k];
      LandedAre(h, init, files, path);
    }
  }

  /** The stored files are those of the uploads that could be stored. */
  lemma {:induction false} StorableAre(h: Hash, us: seq<Upload>, file: StoredFile)
    ensures file in Storable(h, us) <==> exists n :: 0 <= n < |us| && StoredOf(h, us[n]) == Success(file)
    decreases |us|
  {
    hide StoredOf;
    if us != [] {
      var n := |us| - 1;
      var init := us[..n];
      assert forall k | 0 <= k < n :: init[k] == us[k];
      StorableAre(h, init, file);
    }
  }

  lemma {:induction false} StorableCount(h: Hash, us: seq<Upload>)
    ensures |Storable(h, us)| <= |us|
    ensures |Storable(h, us)| == |us| <==> forall n | 0 <= n < |us| :: StoredOf(h, us[n]).Success?
    decreases |us|
  {
    hide StoredOf;
    if us != [] {
      var n := |us| - 1;
      StorableCount(h, us[..n]);
      if forall k | 0 <= k < n :: StoredOf(h, us[..n][k]).Success? {
        assert forall k | 0 <= k < n :: us[..n][k] == us[k];
      } else {
        var k :| 0 <= k < n && !StoredOf(h, us[..n][k]).Success?;
        assert us[..n][k] == us[k];
      }
    }
  }

  /**
   A filed message had every file stored if and only if it had one file.  With
   more, the others failed: their uploader is told to send them again, and the
   message is filed, verified and deleted for the one that was stored.
  */
  lemma FiledMessageIsWholeExactly(d: Db, d': Db, h: Hash, us: seq<Upload>, message: nat, referenced: Option<nat>,
                                   text: string, note: string, now: int, r: Outcome)
    requires Inv(d) && UniqueKeys(d.jobs) && r.Filed?
    requires CaptureRan(d, d', Storable(h, us), message, referenced, text, note, now, r)
    ensures |Storable(h, us)| == 1 && us != []
    ensures (forall n | 0 <= n < |us| :: StoredOf(h, us[n]).Success?) <==> |us| == 1
  {
    hide Inv, UniqueKeys, CaptureRan, Resolve, HasCopy, Storable, StoredOf;
    FiledWhereResolved(d, d', Storable(h, us), message, referenced, text, note, now, r);
    StorableCount(h, us);
  }

  lemma SameCopies(d: Db, file: StoredFile, message: nat, tx: nat)
    requires message !in d.messages
    ensures HasCopy(Captured(d, file, message).value.attachments, tx, file.sha256)
            <==> HasCopy(d.attachments, tx, file.sha256)
  {
    hide NextId;
    var atts' := Captured(d, file, message).value.attachments;
    if HasCopy(d.attachments, tx, file.sha256) {
      var a :| a in d.attachments && d.attachments[a].transactionId == Some(tx)
               && d.attachments[a].sha256 == file.sha256;
      assert atts'[a].transactionId == Some(tx) && atts'[a].sha256 == file.sha256;
    }
  }
}
