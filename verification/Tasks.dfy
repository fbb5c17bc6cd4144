/** The database and channel work of the Discord job handlers (app/discordbot/tasks.py). */
module Tasks {
  import opened Schema
  import opened Ordering
  import opened Storage

  // ---- announcing -------------------------------------------------------------------

  /** Whether `_load_notification` finds something to announce. */
  predicate ToAnnounce(txs: Transactions, tx: nat) {
    tx in txs && txs[tx].notifyMessageId.None?
  }

  function AnnouncedRow(tx: Transaction, message: nat, now: int): Transaction {
    tx.(notifyMessageId := Some(message), notifiedAt := Some(now),
        status := if tx.status.New? then Notified else tx.status)
  }

  /** The database after `_record_notification`: a charge deleted meanwhile is ignored. */
  function Announced(d: Db, tx: nat, message: nat, now: int): Result<Db> {
    if tx !in d.transactions then Success(d)
    else if message in d.messages then Failure
    else Success(d.(transactions := d.transactions[tx := AnnouncedRow(d.transactions[tx], message, now)],
                    messages := d.messages[message := DiscordMessage(Announcement, Some(tx), None)]))
  }

  method RecordNotification(db: Database, tx: nat, message: nat, now: int) returns (ok: bool)
    modifies db`transactions, db`messages
    ensures ok <==> Announced(old(db.View()), tx, message, now).Success?
    ensures db.View() == if ok then Announced(old(db.View()), tx, message, now).value else old(db.View())
  {
    if tx !in db.transactions {
      return true;
    }
    if message in db.messages {
      return false;
    }
    var row := db.transactions[tx].(notifyMessageId := Some(message), notifiedAt := Some(now));
    if row.status.New? {
      row := row.(status := Notified);
    }
    db.transactions := db.transactions[tx := row];
    db.messages := db.messages[message := DiscordMessage(Announcement, Some(tx), None)];
    return true;
  }

  /** The rows of an announcement: message, time and status, and the record; a vanished charge changes nothing. */
  lemma AnnouncedRows(d: Db, tx: nat, message: nat, now: int)
    ensures var r := Announced(d, tx, message, now);
            && (tx !in d.transactions ==> r == Success(d))
            && (r.Failure? <==> tx in d.transactions && message in d.messages)
            && (r.Success? && tx in d.transactions ==>
                  var row := d.transactions[tx];
                  r.value == Db(
                    d.transactions[tx := row.(notifyMessageId := Some(message), notifiedAt := Some(now),
                                              status := if row.status == New then Notified else row.status)],
                    d.attachments, d.emails, d.messages[message := DiscordMessage(Announcement, Some(tx), None)],
                    d.jobs, d.rules))
  {
  }

  // ---- finalizing -------------------------------------------------------------------

  /** The message the bot posts once the receipt is verified; its charge must still exist. */
  function Confirmed(d: Db, tx: nat, message: nat): Result<Db> {
    if message in d.messages || tx !in d.transactions then Failure
    else Success(d.(messages := d.messages[message := DiscordMessage(Confirmation, Some(tx), None)]))
  }

  method RecordConfirmation(db: Database, tx: nat, message: nat) returns (ok: bool)
    modifies db`messages
    ensures ok <==> Confirmed(old(db.View()), tx, message).Success?
    ensures db.View() == if ok then Confirmed(old(db.View()), tx, message).value else old(db.View())
  {
    if message in db.messages || tx !in db.transactions {
      return false;
    }
    db.messages := db.messages[message := DiscordMessage(Confirmation, Some(tx), None)];
    return true;
  }

  function WithDeletedAt(rows: map<nat, DiscordMessage>, ids: set<nat>, now: int): map<nat, DiscordMessage> {
    map m | m in rows :: if m in ids then rows[m].(deletedAt := Some(now)) else rows[m]
  }

  function WithSourceDeleted(atts: map<nat, Attachment>, ids: set<nat>): map<nat, Attachment> {
    map a | a in atts :: if a in ids then atts[a].(sourceDeleted := true) else atts[a]
  }

  /** The database after `_mark_deleted`: it flags every attachment of the payload, whatever was deleted. */
  function MarkedDeleted(d: Db, messages: seq<nat>, attachments: seq<nat>, now: int): Db {
    d.(messages := WithDeletedAt(d.messages, (set m | m in messages), now),
       attachments := WithSourceDeleted(d.attachments, (set a | a in attachments)))
  }

  method MarkDeleted(db: Database, messages: seq<nat>, attachments: seq<nat>, now: int)
    modifies db`messages, db`attachments
    ensures db.View() == MarkedDeleted(old(db.View()), messages, attachments, now)
  {
    ghost var rows, atts := db.messages, db.attachments;
    for n := 0 to |messages|
      invariant db.attachments == atts
      invariant db.messages == WithDeletedAt(rows, (set m | m in messages[..n]), now)
    {
      assert messages[..n + 1] == messages[..n] + [messages[n]];
      if messages[n] in db.messages {
        db.messages := db.messages[messages[n] := db.messages[messages[n]].(deletedAt := Some(now))];
      }
    }
    assert messages[..|messages|] == messages;
    for n := 0 to |attachments|
      invariant db.messages == WithDeletedAt(rows, (set m | m in messages), now)
      invariant db.attachments == WithSourceDeleted(atts, (set a | a in attachments[..n]))
    {
      assert attachments[..n + 1] == attachments[..n] + [attachments[n]];
      if attachments[n] in db.attachments {
        db.attachments := db.attachments[attachments[n] := db.attachments[attachments[n]].(sourceDeleted := true)];
      }
    }
    assert attachments[..|attachments|] == attachments;
  }

  /** What a finalize run carries from its check to its deletions. */
  datatype FinalizeData = FinalizeData(receipts: set<nat>, announcement: Option<nat>)

  /** A payload attachment that is still linked to the charge. */
  predicate Checked(atts: map<nat, Attachment>, tx: nat, ids: seq<nat>, a: nat) {
    a in ids && a in atts && atts[a].transactionId == Some(tx)
  }

  predicate StillDurable(h: Hash, files: Files, att: Attachment) {
    Durable(h, files, att.path, att.sha256, att.bytes)
  }

  /** The messages whose receipts the run has checked. */
  function Sources(atts: map<nat, Attachment>, tx: nat, ids: seq<nat>): set<nat> {
    set a | a in ids && Checked(atts, tx, ids, a) && atts[a].sourceMessageId.Some? :: atts[a].sourceMessageId.value
  }

  /**
   `_load_finalize`: nothing to do for a deleted charge, an error if any payload
   attachment still linked to the charge fails its size and checksum test, and
   otherwise exactly the source messages of those attachments.
  */
  function Loaded(d: Db, h: Hash, files: Files, tx: nat, ids: seq<nat>): Result<Option<FinalizeData>> {
    if tx !in d.transactions then Success(None)
    else if forall a | a in ids && Checked(d.attachments, tx, ids, a) :: StillDurable(h, files, d.attachments[a]) then
      Success(Some(FinalizeData(Sources(d.attachments, tx, ids), d.transactions[tx].notifyMessageId)))
    else Failure
  }

  /** The file of a row is on disk with the recorded size and checksum. */
  predicate Intact(h: Hash, files: Files, att: Attachment) {
    att.path in files && |files[att.path]| == att.bytes && h(files[att.path]) == att.sha256
  }

  /** The check passes: the charge exists and every payload attachment that is still its own is intact. */
  ghost predicate Passes(d: Db, h: Hash, files: Files, tx: nat, ids: seq<nat>) {
    && tx in d.transactions
    && forall a | a in ids && a in d.attachments && d.attachments[a].transactionId == Some(tx) ::
         Intact(h, files, d.attachments[a])
  }

  /** What the check answers: nothing for no charge, else the sources and the announcement, or an error. */
  lemma LoadedExactly(d: Db, h: Hash, files: Files, tx: nat, ids: seq<nat>)
    ensures var r := Loaded(d, h, files, tx, ids);
            && (r == Success(None) <==> tx !in d.transactions)
            && (r.Success? && r.value.Some? <==> Passes(d, h, files, tx, ids))
            && (r.Success? && r.value.Some? ==>
                  && r.value.value.announcement == d.transactions[tx].notifyMessageId
                  && forall m :: m in r.value.value.receipts <==>
                       exists a :: a in ids && a in d.attachments && d.attachments[a].transactionId == Some(tx)
                                   && d.attachments[a].sourceMessageId == Some(m))
  {
    assert forall a | a in d.attachments ::
        StillDurable(h, files, d.attachments[a]) <==> Intact(h, files, d.attachments[a]);
    hide StillDurable, Intact;
    forall m: nat
      ensures m in Sources(d.attachments, tx, ids) <==>
              exists a :: a in ids && a in d.attachments && d.attachments[a].transactionId == Some(tx)
                          && d.attachments[a].sourceMessageId == Some(m)
    {
      if a :| a in ids && a in d.attachments && d.attachments[a].transactionId == Some(tx)
              && d.attachments[a].sourceMessageId == Some(m)
      {
        assert Checked(d.attachments, tx, ids, a);
      }
    }
  }

  method LoadFinalize(db: Database, disk: Disk, h: Hash, tx: nat, ids: seq<nat>)
    returns (r: Result<Option<FinalizeData>>)
    ensures r == Loaded(db.View(), h, disk.files, tx, ids)
  {
    hide StillDurable;
    if tx !in db.transactions {
      return Success(None);
    }
    var sources: set<nat> := {};
    for n := 0 to |ids|
      invariant forall a | a in ids[..n] && Checked(db.attachments, tx, ids, a) ::
                  StillDurable(h, disk.files, db.attachments[a])
      invariant sources == Sources(db.attachments, tx, ids[..n])
    {
      assert ids[..n + 1] == ids[..n] + [ids[n]];
      SourcesOneMore(db.attachments, tx, ids, n);
      if ids[n] in db.attachments && db.attachments[ids[n]].transactionId == Some(tx) {
        var att := db.attachments[ids[n]];
        var ok := CheckOne(disk, h, att);
        if !ok {
          assert Checked(db.attachments, tx, ids, ids[n]);
          return Failure;
        }
        if att.sourceMessageId.Some? {
          sources := sources + {att.sourceMessageId.value};
        }
      }
    }
    assert ids[..|ids|] == ids;
    return Success(Some(FinalizeData(sources, db.transactions[tx].notifyMessageId)));
  }

  method CheckOne(disk: Disk, h: Hash, att: Attachment) returns (ok: bool)
    ensures ok == StillDurable(h, disk.files, att)
  {
    ok := AssertDurable(disk, h, att.path, att.sha256, att.bytes);
  }

  lemma SourcesOneMore(atts: map<nat, Attachment>, tx: nat, ids: seq<nat>, n: nat)
    requires n < |ids|
    ensures Sources(atts, tx, ids[..n + 1]) == Sources(atts, tx, ids[..n]) +
              (if ids[n] in atts && atts[ids[n]].transactionId == Some(tx) && atts[ids[n]].sourceMessageId.Some?
               then {atts[ids[n]].sourceMessageId.value} else {})
  {
    assert ids[..n + 1] == ids[..n] + [ids[n]];
    var one := Sources(atts, tx, ids[..n + 1]);
    var rest := Sources(atts, tx, ids[..n]);
    forall m | m in rest ensures m in one {
      var a :| a in ids[..n] && Checked(atts, tx, ids[..n], a) && atts[a].sourceMessageId == Some(m);
      assert a in ids[..n + 1];
    }
    if ids[n] in atts && atts[ids[n]].transactionId == Some(tx) && atts[ids[n]].sourceMessageId.Some? {
      assert ids[n] in ids[..n + 1];
    }
  }

  // ---- the channel --------------------------------------------------------------------

  class Channel {
    var messages: set<nat>
  }

  /** How Discord answers a deletion: it complies or finds nothing, or it refuses. */
  datatype Answer = Complies | Forbidden | HttpError

  function Granted(todo: seq<nat>, answers: seq<Answer>): seq<nat>
    requires |answers| == |todo|
  {
    if todo == [] then []
    else (if answers[0].Complies? then [todo[0]] else []) + Granted(todo[1..], answers[1..])
  }

  lemma {:induction false} GrantedOneMore(todo: seq<nat>, answers: seq<Answer>, n: nat)
    requires |answers| == |todo| && n < |todo|
    ensures Granted(todo[..n + 1], answers[..n + 1])
            == Granted(todo[..n], answers[..n]) + (if answers[n].Complies? then [todo[n]] else [])
  {
    if n == 0 {
      assert todo[..1] == [todo[0]] && answers[..1] == [answers[0]];
      assert Granted(todo[..1][1..], answers[..1][1..]) == [];
    } else {
      GrantedOneMore(todo[1..], answers[1..], n - 1);
      assert todo[..n + 1][1..] == todo[1..][..n] && answers[..n + 1][1..] == answers[1..][..n];
      assert todo[..n][1..] == todo[1..][..n - 1] && answers[..n][1..] == answers[1..][..n - 1];
    }
  }

  /** The deletion loop of `finalize`: a refusal is logged and skipped, never raised. */
  method DeleteEach(channel: Channel, todo: seq<nat>, answers: seq<Answer>) returns (deleted: seq<nat>)
    requires |answers| == |todo|
    modifies channel
    ensures deleted == Granted(todo, answers)
    ensures channel.messages == old(channel.messages) - (set m | m in deleted)
  {
    deleted := [];
    for n := 0 to |todo|
      invariant deleted == Granted(todo[..n], answers[..n])
      invariant channel.messages == old(channel.messages) - (set m | m in deleted)
    {
      GrantedOneMore(todo, answers, n);
      if answers[n].Complies? {
        channel.messages := channel.messages - {todo[n]};
        deleted := deleted + [todo[n]];
      }
    }
    assert todo[..|todo|] == todo && answers[..|answers|] == answers;
  }

  // ---- the handler ------------------------------------------------------------------------

  /** What a finalize run sets out to delete, by the two settings that govern it. */
  function Queue(data: FinalizeData, receipts: bool, announcement: bool): set<nat> {
    (if receipts then data.receipts else {}) +
    (if announcement && data.announcement.Some? then {data.announcement.value} else {})
  }

  /**
   Message `m` is one a run is to delete: with receipts to go, the source of a
   payload attachment still linked to the charge; with announcements to go, the
   charge's announcement.
  */
  ghost predicate MayGo(d: Db, tx: nat, ids: seq<nat>, receipts: bool, announcement: bool, m: nat) {
    || (receipts && exists a :: a in ids && a in d.attachments && d.attachments[a].transactionId == Some(tx)
                                && d.attachments[a].sourceMessageId == Some(m))
    || (announcement && tx in d.transactions && d.transactions[tx].notifyMessageId == Some(m))
  }

  lemma QueueExactly(d: Db, h: Hash, files: Files, tx: nat, ids: seq<nat>, receipts: bool, announcement: bool, m: nat)
    requires Passes(d, h, files, tx, ids)
    ensures var r := Loaded(d, h, files, tx, ids);
            && r.Success? && r.value.Some?
            && (m in Queue(r.value.value, receipts, announcement) <==> MayGo(d, tx, ids, receipts, announcement, m))
  {
    LoadedExactly(d, h, files, tx, ids);
    hide Loaded;
  }

  function ToDelete(data: FinalizeData, receipts: bool, announcement: bool): (todo: seq<nat>)
    ensures forall m :: m in todo <==> m in Queue(data, receipts, announcement)
  {
    (if receipts then Ascending(data.receipts) else []) +
    (if announcement && data.announcement.Some? then [data.announcement.value] else [])
  }

  function Answers(todo: seq<nat>, answer: nat -> Answer): (answers: seq<Answer>)
    ensures |answers| == |todo|
  {
    seq(|todo|, n requires 0 <= n < |todo| => answer(todo[n]))
  }

  /** The records of a run that passed its check: the confirmation, then what was deleted. */
  function Finalized(d: Db, tx: nat, ids: seq<nat>, keep: bool, confirmation: nat, deleted: seq<nat>,
                     now: int): Result<Db>
  {
    match (if keep then Confirmed(d, tx, confirmation) else Success(d))
    case Failure => Failure
    case Success(d1) => Success(if deleted == [] then d1 else MarkedDeleted(d1, deleted, ids, now))
  }

  /**
   What `finalize` does when nothing interrupts it.  Without a passed check,
   nothing; with one, it may post a confirmation, deletes what Discord lets go of
   its queue and nothing else, and records both.
  */
  ghost predicate RanFinalize(d: Db, channel: set<nat>, d': Db, channel': set<nat>, ok: bool,
                              checked: Result<Option<FinalizeData>>, tx: nat, ids: seq<nat>, keep: bool,
                              receipts: bool, announcement: bool, confirmation: nat, answer: nat -> Answer, now: int) {
    match checked
    case Failure => !ok && d' == d && channel' == channel
    case Success(None) => ok && d' == d && channel' == channel
    case Success(Some(data)) =>
      var todo := ToDelete(data, receipts, announcement);
      var deleted := Granted(todo, Answers(todo, answer));
      var outcome := Finalized(d, tx, ids, keep, confirmation, deleted, now);
      var posted := channel + (if keep then {confirmation} else {});
      if outcome.Success? then ok && d' == outcome.value && channel' == posted - (set m | m in deleted)
      else !ok && d' == d && channel' == posted
  }

  /** `confirmation` is the id Discord gives the confirmation, and `answer` how it answers each deletion. */
  method RunFinalize(db: Database, disk: Disk, channel: Channel, h: Hash, tx: nat, ids: seq<nat>, keep: bool,
                     receipts: bool, announcement: bool, confirmation: nat, answer: nat -> Answer, now: int)
    returns (ok: bool)
    modifies db`messages, db`attachments, channel
    ensures RanFinalize(old(db.View()), old(channel.messages), db.View(), channel.messages, ok,
                        Loaded(old(db.View()), h, disk.files, tx, ids), tx, ids, keep,
                        receipts, announcement, confirmation, answer, now)
  {
    hide Loaded, Confirmed, MarkedDeleted, Queue, ToDelete, Granted, Answers;
    var checked := LoadFinalize(db, disk, h, tx, ids);
    if checked.Failure? {
      return false;
    }
    if checked.value.None? {
      return true;
    }
    if keep {
      channel.messages := channel.messages + {confirmation};
      var recorded := RecordConfirmation(db, tx, confirmation);
      if !recorded {
        return false;
      }
    }
    var todo := ToDelete(checked.value.value, receipts, announcement);
    var deleted := DeleteEach(channel, todo, Answers(todo, answer));
    if deleted != [] {
      MarkDeleted(db, deleted, ids, now);
    }
    return true;
  }

  lemma FinalizeEnds(d: Db, channel: set<nat>, d': Db, channel': set<nat>, ok: bool,
                     checked: Result<Option<FinalizeData>>, tx: nat, ids: seq<nat>, keep: bool,
                     receipts: bool, announcement: bool, confirmation: nat, answer: nat -> Answer, now: int)
    requires RanFinalize(d, channel, d', channel', ok, checked, tx, ids, keep, receipts, announcement,
                         confirmation, answer, now)
    ensures ok <==>
      checked.Success? && (checked.value.Some? && keep ==> confirmation !in d.messages && tx in d.transactions)
    ensures ok && checked.value.Some? ==>
              forall m :: (m in channel || (keep && m == confirmation)) && m !in channel' <==>
                (m in channel || (keep && m == confirmation))
                && answer(m).Complies? && m in Queue(checked.value.value, receipts, announcement)
    ensures !ok || checked.value.None? ==> channel <= channel'
    ensures channel' <= channel + (if keep then {confirmation} else {})
    ensures checked.Failure? || checked.value.None? ==> channel' == channel
  {
    hide Queue, ToDelete, Granted, MarkedDeleted;
    if checked.Success? && checked.value.Some? {
      var todo := ToDelete(checked.value.value, receipts, announcement);
      GrantedIffComplies(todo, answer);
    }
  }

  lemma {:induction false} GrantedIffComplies(todo: seq<nat>, answer: nat -> Answer)
    ensures forall m :: m in Granted(todo, Answers(todo, answer)) <==> m in todo && answer(m).Complies?
    decreases |todo|
  {
    if todo != [] {
      var answers := Answers(todo, answer);
      assert answers[1..] == Answers(todo[1..], answer);
      assert answers[0] == answer(todo[0]);
      GrantedIffComplies(todo[1..], answer);
    }
  }

  /**
   What a whole run does to the channel, told by the rows.  A message is gone after
   it exactly when the check passed, the confirmation, if there is one, could be
   recorded, Discord let the message go, and it was one to delete under the two
   settings.  Nothing appears but the confirmation.
  */
  lemma FinalizeDeletesExactly(d: Db, channel: set<nat>, d': Db, channel': set<nat>, ok: bool, h: Hash, files: Files,
                               tx: nat, ids: seq<nat>, keep: bool, receipts: bool, announcement: bool,
                               confirmation: nat, answer: nat -> Answer, now: int)
    requires RanFinalize(d, channel, d', channel', ok, Loaded(d, h, files, tx, ids), tx, ids, keep, receipts,
                         announcement, confirmation, answer, now)
    ensures ok <==> tx !in d.transactions
                    || (Passes(d, h, files, tx, ids) && (keep ==> confirmation !in d.messages))
    ensures forall m | m in channel ::
              m !in channel' <==> ok && Passes(d, h, files, tx, ids) && answer(m) == Complies
                                  && MayGo(d, tx, ids, receipts, announcement, m)
    ensures forall m | m in channel' && m !in channel :: keep && m == confirmation && Passes(d, h, files, tx, ids)
  {
    var checked := Loaded(d, h, files, tx, ids);
    FinalizeEnds(d, channel, d', channel', ok, checked, tx, ids, keep, receipts, announcement,
                 confirmation, answer, now);
    LoadedExactly(d, h, files, tx, ids);
    if Passes(d, h, files, tx, ids) {
      forall m: nat ensures m in Queue(checked.value.value, receipts, announcement)
                            <==> MayGo(d, tx, ids, receipts, announcement, m)
      {
        QueueExactly(d, h, files, tx, ids, receipts, announcement, m);
      }
    }
    hide Loaded, Queue, MayGo, Passes, RanFinalize;
  }

  lemma FinalizedRows(d: Db, tx: nat, ids: seq<nat>, keep: bool, confirmation: nat, deleted: seq<nat>, now: int)
    requires Finalized(d, tx, ids, keep, confirmation, deleted, now).Success?
    ensures var d' := Finalized(d, tx, ids, keep, confirmation, deleted, now).value;
            && d' == d.(messages := d'.messages, attachments := d'.attachments)
            && d'.messages.Keys == d.messages.Keys + (if keep then {confirmation} else {})
            && (forall m | m in d'.messages ::
                  var row := if m in d.messages then d.messages[m] else DiscordMessage(Confirmation, Some(tx), None);
                  d'.messages[m] == if m in deleted then row.(deletedAt := Some(now)) else row)
            && d'.attachments.Keys == d.attachments.Keys
            && (forall a | a in d.attachments ::
                  d'.attachments[a] == if deleted != [] && a in ids then d.attachments[a].(sourceDeleted := true)
                                       else d.attachments[a])
  {
  }

  /** Message `m` was one to delete, and Discord let it go. */
  ghost predicate Goes(d: Db, tx: nat, ids: seq<nat>, receipts: bool, announcement: bool, answer: nat -> Answer,
                       m: nat) {
    answer(m) == Complies && MayGo(d, tx, ids, receipts, announcement, m)
  }

  lemma FinalizeDeleted(d: Db, h: Hash, files: Files, tx: nat, ids: seq<nat>, receipts: bool, announcement: bool,
                        answer: nat -> Answer)
    requires Passes(d, h, files, tx, ids)
    ensures var r := Loaded(d, h, files, tx, ids);
            r.Success? && r.value.Some? &&
            var todo := ToDelete(r.value.value, receipts, announcement);
            var deleted := Granted(todo, Answers(todo, answer));
            && (forall m :: m in deleted <==> Goes(d, tx, ids, receipts, announcement, answer, m))
            && (deleted == [] <==> forall m :: !Goes(d, tx, ids, receipts, announcement, answer, m))
  {
    hide *;
    var r := Loaded(d, h, files, tx, ids);
    LoadedExactly(d, h, files, tx, ids);
    var data := r.value.value;
    var todo := ToDelete(data, receipts, announcement);
    GrantedIffComplies(todo, answer);
    var deleted := Granted(todo, Answers(todo, answer));
    forall m: nat ensures m in deleted <==> Goes(d, tx, ids, receipts, announcement, answer, m) {
      QueueExactly(d, h, files, tx, ids, receipts, announcement, m);
      GoesMeans(d, tx, ids, receipts, announcement, answer, m);
    }
    if deleted != [] { assert deleted[0] in deleted; }
  }

  lemma GoesMeans(d: Db, tx: nat, ids: seq<nat>, receipts: bool, announcement: bool, answer: nat -> Answer, m: nat)
    ensures Goes(d, tx, ids, receipts, announcement, answer, m) <==>
            answer(m).Complies? && MayGo(d, tx, ids, receipts, announcement, m)
  {
    hide MayGo;
  }

  /** What it leaves in the tables: the confirmation, the time on each message deleted, and the flags. */
  lemma FinalizeRecords(d: Db, channel: set<nat>, d': Db, channel': set<nat>, ok: bool, h: Hash, files: Files,
                        tx: nat, ids: seq<nat>, keep: bool, receipts: bool, announcement: bool,
                        confirmation: nat, answer: nat -> Answer, now: int)
    requires RanFinalize(d, channel, d', channel', ok, Loaded(d, h, files, tx, ids), tx, ids, keep, receipts,
                         announcement, confirmation, answer, now)
    requires ok && Passes(d, h, files, tx, ids)
    ensures d' == d.(messages := d'.messages, attachments := d'.attachments)
    ensures d'.messages.Keys == d.messages.Keys + (if keep then {confirmation} else {})
    ensures forall m | m in d'.messages ::
              var row := if m in d.messages then d.messages[m] else DiscordMessage(Confirmation, Some(tx), None);
              d'.messages[m] == if Goes(d, tx, ids, receipts, announcement, answer, m)
                                then row.(deletedAt := Some(now)) else row
    ensures d'.attachments.Keys == d.attachments.Keys
    ensures var some := exists m :: Goes(d, tx, ids, receipts, announcement, answer, m);
            forall a | a in d.attachments ::
              d'.attachments[a] == if some && a in ids then d.attachments[a].(sourceDeleted := true)
                                   else d.attachments[a]
  {
    FinalizeDeleted(d, h, files, tx, ids, receipts, announcement, answer);
    hide Loaded, Granted, ToDelete, Answers, Goes, Passes, Finalized;
    var data := Loaded(d, h, files, tx, ids).value.value;
    var todo := ToDelete(data, receipts, announcement);
    FinalizedRows(d, tx, ids, keep, confirmation, Granted(todo, Answers(todo, answer)), now);
  }

  /**
   The messages a run deletes are exactly those of its queue that Discord lets
   go; without a passed check there are none.
  */
  lemma FinalizeDeletesItsQueue(d: Db, channel: set<nat>, d': Db, channel': set<nat>, ok: bool,
                                checked: Result<Option<FinalizeData>>, tx: nat, ids: seq<nat>, keep: bool,
                                receipts: bool, announcement: bool, confirmation: nat, answer: nat -> Answer, now: int)
    requires RanFinalize(d, channel, d', channel', ok, checked, tx, ids, keep, receipts, announcement,
                         confirmation, answer, now)
    ensures forall m | m in channel && m !in channel' ::
              checked.Success? && checked.value.Some? && m in Queue(checked.value.value, receipts, announcement)
    ensures ok && checked.value.Some? ==>
              forall m | m in Queue(checked.value.value, receipts, announcement) && answer(m).Complies? ::
                m !in channel'
  {
    hide Queue, ToDelete, Finalized, Granted;
    if checked.Success? && checked.value.Some? {
      var todo := ToDelete(checked.value.value, receipts, announcement);
      GrantedExactly(todo, Answers(todo, answer));
      forall m | m in Queue(checked.value.value, receipts, announcement) && answer(m).Complies?
        ensures m in Granted(todo, Answers(todo, answer))
      {
        var n :| 0 <= n < |todo| && todo[n] == m;
        assert Answers(todo, answer)[n] == answer(m);
      }
    }
  }

  lemma {:induction false} GrantedExactly(todo: seq<nat>, answers: seq<Answer>)
    requires |answers| == |todo|
    ensures forall m | m in Granted(todo, answers) :: m in todo
    ensures forall n | 0 <= n < |todo| && answers[n].Complies? :: todo[n] in Granted(todo, answers)
    decreases |todo|
  {
    if todo != [] {
      GrantedExactly(todo[1..], answers[1..]);
      forall n | 0 <= n < |todo| && answers[n].Complies? ensures todo[n] in Granted(todo, answers) {
        if n > 0 { assert todo[1..][n - 1] == todo[n] && answers[1..][n - 1] == answers[n]; }
      }
    }
  }
}
