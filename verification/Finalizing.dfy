/**
 The path of a receipt from upload to deletion of the uploader's message: capture
 (app/discordbot/bot.py), finalize (app/discordbot/tasks.py) and the disk
 (app/services/storage.py), interleaved with everything else, with crashes,
 retries, refusals and disk faults.
*/
module Finalizing {
  import opened Schema
  import opened Storage
  import opened Ingest
  import opened Bot
  import opened Tasks
  import opened Web
  import opened Invariants
  import opened Lifecycle
  import opened Custody

  /** A file on disk whose row is not committed yet. */
  datatype Capture = Capture(message: nat, file: StoredFile)

  /** A finalize handler between its check and its end; `evidence` is what it checked. */
  datatype FinalizeRun = FinalizeRun(
    tx: nat, ids: seq<nat>, evidence: map<nat, Attachment>, queue: set<nat>, deleted: seq<nat>)

  datatype World = World(
    db: Db, files: Files, ledger: Ledger, present: set<nat>,
    captures: map<nat, Capture>, runs: map<nat, FinalizeRun>)

  datatype Act =
    | UploadAct(message: nat, sent: seq<Data>)
    | StoreAct(capture: nat, message: nat, index: nat, data: Data, path: string,
               normalized: Option<Normalized>, landed: Data)
    | PersistAct(capture: nat)
    | SendAct(message: nat)
    | AnnounceAct(tx: nat, message: nat)
    | ConfirmAct(run: nat, message: nat)
    | CheckAct(run: nat, tx: nat, ids: seq<nat>, deleteReceipts: bool, deleteAnnouncement: bool)
    | RemoveAct(run: nat, message: nat)
    | RefuseAct(run: nat, message: nat)
    | FinishAct(run: nat)
    | AbandonAct(run: nat)
    | RemoveAskedAct(job: nat)
    | CrashAct
    | DamageAct(path: string, left: Option<Data>)
    | RemoveChargeAct(tx: nat, withFiles: bool)
    | RemoveReceiptAct(attachment: nat)
    | SessionAct(event: Event)

  /** The attachments a finalize run checks. */
  function Evidence(atts: map<nat, Attachment>, tx: nat, ids: seq<nat>): map<nat, Attachment> {
    map a | a in atts && Checked(atts, tx, ids, a) :: atts[a]
  }

  function Recorded(w: World, d: Db): World {
    w.(db := d)
  }

  /** Storing one file of an upload; Discord reports the file's size. */
  function StoredWorld(w: World, h: Hash, c: nat, m: nat, i: nat, data: Data, path: string,
                       normalized: Option<Normalized>, landed: Data): World
    requires m in w.ledger.uploads && i < |w.ledger.uploads[m]|
  {
    match StoreOutcome(h, data, Some(|w.ledger.uploads[m][i]|), path, normalized, landed)
    case Failure => w
    case Success(file) => w.(files := w.files[path := landed], captures := w.captures[c := Capture(m, file)])
  }

  function PersistedWorld(w: World, c: nat): World
    requires c in w.captures
  {
    var (file, m) := (w.captures[c].file, w.captures[c].message);
    match Captured(w.db, file, m)
    case Failure => w.(captures := w.captures - {c})
    case Success(d) =>
      w.(db := d, captures := w.captures - {c},
         ledger := if file.converted then w.ledger.(converted := w.ledger.converted + {m}) else w.ledger)
  }

  /** The check of a finalize run, which starts the run only if every checked file is durable. */
  function CheckedWorld(w: World, h: Hash, run: nat, tx: nat, ids: seq<nat>,
                        receipts: bool, announcement: bool): World {
    match Loaded(w.db, h, w.files, tx, ids)
    case Failure => w
    case Success(None) => w
    case Success(Some(data)) =>
      w.(runs := w.runs[run :=
        FinalizeRun(tx, ids, Evidence(w.db.attachments, tx, ids), Queue(data, receipts, announcement), [])])
  }

  ghost predicate Next(w: World, act: Act, now: int, w': World, h: Hash, re: Regex) {
    match act
    case UploadAct(m, sent) =>
      && m !in w.ledger.uploads && m !in w.ledger.sent
      && w' == w.(ledger := w.ledger.(uploads := w.ledger.uploads[m := sent]), present := w.present + {m})
    case StoreAct(c, m, i, data, path, normalized, landed) =>
      && c !in w.captures && path !in w.files
      && m in w.ledger.uploads && i < |w.ledger.uploads[m]| && data <= w.ledger.uploads[m][i]
      && w' == StoredWorld(w, h, c, m, i, data, path, normalized, landed)
    case PersistAct(c) => c in w.captures && w' == PersistedWorld(w, c)
    case SendAct(m) =>
      && m !in w.ledger.uploads && m !in w.ledger.sent
      && w' == w.(ledger := w.ledger.(sent := w.ledger.sent + {m}), present := w.present + {m})
    case AnnounceAct(tx, m) =>
      m in w.ledger.sent && w' == Recorded(w, Committed(w.db, Announced(w.db, tx, m, now)))
    case ConfirmAct(run, m) =>
      && run in w.runs && m in w.ledger.sent
      && w' == Recorded(w, Committed(w.db, Confirmed(w.db, w.runs[run].tx, m)))
    case CheckAct(run, tx, ids, receipts, announcement) =>
      run !in w.runs && w' == CheckedWorld(w, h, run, tx, ids, receipts, announcement)
    case RemoveAct(run, m) =>
      && run in w.runs && m in w.runs[run].queue
      && var r := w.runs[run];
         w' == w.(present := w.present - {m},
                  runs := w.runs[run := r.(queue := r.queue - {m}, deleted := r.deleted + [m])])
    case RefuseAct(run, m) =>
      && run in w.runs && m in w.runs[run].queue
      && w' == w.(runs := w.runs[run := w.runs[run].(queue := w.runs[run].queue - {m})])
    case FinishAct(run) =>
      && run in w.runs && w.runs[run].queue == {}
      && var r := w.runs[run];
         w' == w.(runs := w.runs - {run},
                  db := if r.deleted == [] then w.db else MarkedDeleted(w.db, r.deleted, r.ids, now))
    case AbandonAct(run) => run in w.runs && w' == w.(runs := w.runs - {run})
    case RemoveAskedAct(j) =>
      && j in w.db.jobs && w.db.jobs[j].payload.ForMessage?
      && w' == w.(present := w.present - {w.db.jobs[j].payload.message})
    case CrashAct => w' == w.(captures := map[], runs := map[])
    case DamageAct(path, left) =>
      w' == w.(files := if left.Some? then w.files[path := left.value] else w.files - {path})
    case RemoveChargeAct(tx, withFiles) =>
      && ChargeDeleted(w.db, w'.db, tx, withFiles, now)
      && w' == w.(db := w'.db, files := FilesKept(w.files, w.db.attachments, Receipts(w.db.attachments, tx), withFiles))
    case RemoveReceiptAct(a) =>
      w' == w.(db := AttachmentDeleted(w.db, w.files, a).0, files := AttachmentDeleted(w.db, w.files, a).1)
    case SessionAct(e) =>
      && !Records(e) && !e.MarkEvent? && !e.DeleteEvent? && !e.DeleteReceiptEvent?
      && Step(w.db, e, now, w'.db, re) && w' == w.(db := w'.db)
  }

  // ---- the invariant --------------------------------------------------------------------------

  predicate CaptureOwns(h: Hash, c: Capture, l: Ledger) {
    c.message in l.uploads && (c.file.converted || Carries(h, l, c.message, c.file.sha256))
  }

  /** What a run may delete: messages of the bot, and sources of files it has checked. */
  ghost predicate RunOwns(h: Hash, r: FinalizeRun, l: Ledger) {
    && (forall m | m in r.queue ::
          m in l.sent || exists a | a in r.evidence :: r.evidence[a].sourceMessageId == Some(m))
    && (forall a | a in r.evidence :: Faithful(h, r.evidence[a], l))
  }

  ghost predicate Separate(l: Ledger) {
    forall m | m in l.uploads :: m !in l.sent
  }

  ghost predicate HandlersOwn(h: Hash, w: World) {
    && (forall c | c in w.captures :: CaptureOwns(h, w.captures[c], w.ledger))
    && (forall r | r in w.runs :: RunOwns(h, w.runs[r], w.ledger))
  }

  ghost predicate Sound(w: World, h: Hash) {
    Inv(w.db) && Owned(h, w.db, w.ledger) && Separate(w.ledger) && HandlersOwn(h, w)
  }

  lemma GrowthKeepsHandlers(h: Hash, w: World, w': World)
    requires HandlersOwn(h, w) && Grows(w.ledger, w'.ledger)
    requires w'.captures.Keys <= w.captures.Keys && forall c | c in w'.captures :: w'.captures[c] == w.captures[c]
    requires w'.runs.Keys <= w.runs.Keys
    requires forall r | r in w'.runs :: w'.runs[r].evidence == w.runs[r].evidence && w'.runs[r].queue <= w.runs[r].queue
    ensures HandlersOwn(h, w')
  {
    forall r | r in w'.runs ensures RunOwns(h, w'.runs[r], w'.ledger) {
      assert RunOwns(h, w.runs[r], w.ledger);
    }
  }

  /** A whole download has the length Discord reported, so it is the file that was sent. */
  lemma StoreIsSound(w: World, h: Hash, c: nat, m: nat, i: nat, data: Data, path: string,
                     normalized: Option<Normalized>, landed: Data)
    requires Sound(w, h) && c !in w.captures && path !in w.files
    requires m in w.ledger.uploads && i < |w.ledger.uploads[m]| && data <= w.ledger.uploads[m][i]
    ensures Sound(StoredWorld(w, h, c, m, i, data, path, normalized, landed), h)
  {
    hide Inv, Owned, RunOwns;
    var file := w.ledger.uploads[m][i];
    var outcome := StoreOutcome(h, data, Some(|file|), path, normalized, landed);
    if outcome.Success? {
      assert data == file[..|data|] == file;
      assert outcome.value.converted || h(file) == outcome.value.sha256;
      assert CaptureOwns(h, Capture(m, outcome.value), w.ledger);
    }
  }

  lemma PersistIsSound(w: World, h: Hash, c: nat)
    requires Sound(w, h) && c in w.captures
    ensures Sound(PersistedWorld(w, c), h)
  {
    hide Inv, Owned, RunOwns;
    var cap, w' := w.captures[c], PersistedWorld(w, c);
    GrowthOwned(h, w.db, w.ledger, w'.ledger);
    assert CaptureOwns(h, cap, w.ledger);
    GrowthKeepsHandlers(h, w, w');
    if Captured(w.db, cap.file, cap.message).Success? {
      CaptureKeepsInv(w.db, cap.file, cap.message);
      CaptureOwned(h, w.db, cap.file, cap.message, w'.ledger);
    }
  }

  lemma CheckIsSound(w: World, h: Hash, run: nat, tx: nat, ids: seq<nat>, receipts: bool, announcement: bool)
    requires Sound(w, h) && run !in w.runs
    ensures Sound(CheckedWorld(w, h, run, tx, ids, receipts, announcement), h)
  {
    hide Inv, StillDurable, CaptureOwns;
    var r := Loaded(w.db, h, w.files, tx, ids);
    if r.Success? && r.value.Some? {
      var data := r.value.value;
      if data.announcement.Some? { AnnouncementIsSent(h, w.db, w.ledger, tx); }
      CheckOwns(w, h, tx, ids, data, receipts, announcement);
    }
  }

  lemma CheckOwns(w: World, h: Hash, tx: nat, ids: seq<nat>, data: FinalizeData, receipts: bool, announcement: bool)
    requires FilesOwned(h, w.db.attachments, w.ledger) && data.receipts == Sources(w.db.attachments, tx, ids)
    requires data.announcement.Some? ==> data.announcement.value in w.ledger.sent
    ensures RunOwns(h, FinalizeRun(tx, ids, Evidence(w.db.attachments, tx, ids),
                                   Queue(data, receipts, announcement), []), w.ledger)
  {
    var evidence := Evidence(w.db.attachments, tx, ids);
    forall m | m in data.receipts ensures exists a | a in evidence :: evidence[a].sourceMessageId == Some(m) {
      var a :| a in ids && Checked(w.db.attachments, tx, ids, a) && w.db.attachments[a].sourceMessageId == Some(m);
      assert a in evidence && evidence[a].sourceMessageId == Some(m);
    }
  }

  lemma SessionIsSound(w: World, h: Hash, e: Event, now: int, d: Db, re: Regex)
    requires Sound(w, h) && Step(w.db, e, now, d, re) && !Records(e)
    ensures Sound(w.(db := d), h)
  {
    hide Inv, Owned, Step, RunOwns, CaptureOwns;
    StepKeepsInv(w.db, e, now, d, re);
    StepOwned(h, w.db, e, now, d, re, w.ledger);
  }

  lemma RecordIsSound(w: World, h: Hash, tx: nat, m: nat, now: int)
    requires Sound(w, h) && m in w.ledger.sent
    ensures Sound(Recorded(w, Committed(w.db, Announced(w.db, tx, m, now))), h)
    ensures Sound(Recorded(w, Committed(w.db, Confirmed(w.db, tx, m))), h)
  {
    hide Inv, Owned, RunOwns, CaptureOwns, Announced, Confirmed;
    AnnounceOwned(h, w.db, tx, m, now, w.ledger);
    if Announced(w.db, tx, m, now).Success? { AnnounceKeepsInv(w.db, tx, m, now); }
    if Confirmed(w.db, tx, m).Success? { ConfirmKeepsInv(w.db, tx, m); }
  }

  /** Handlers end, deletions happen, messages appear: the database stays. */
  lemma HandlersAreSound(w: World, w': World, h: Hash)
    requires Sound(w, h) && w'.db == w.db && Grows(w.ledger, w'.ledger) && Separate(w'.ledger)
    requires w'.captures.Keys <= w.captures.Keys && forall c | c in w'.captures :: w'.captures[c] == w.captures[c]
    requires w'.runs.Keys <= w.runs.Keys
    requires forall r | r in w'.runs :: w'.runs[r].evidence == w.runs[r].evidence && w'.runs[r].queue <= w.runs[r].queue
    ensures Sound(w', h)
  {
    hide Inv, Owned, HandlersOwn;
    GrowthOwned(h, w.db, w.ledger, w'.ledger);
    GrowthKeepsHandlers(h, w, w');
  }

  lemma FinishIsSound(w: World, h: Hash, run: nat, now: int)
    requires Sound(w, h) && run in w.runs
    ensures var r := w.runs[run];
            Sound(w.(runs := w.runs - {run},
                     db := if r.deleted == [] then w.db else MarkedDeleted(w.db, r.deleted, r.ids, now)), h)
  {
    hide Inv, Owned, RunOwns, CaptureOwns, MarkedDeleted;
    var r := w.runs[run];
    MarkKeepsInv(w.db, r.deleted, r.ids, now);
    MarkOwned(h, w.db, r.deleted, r.ids, now, w.ledger);
  }

  lemma RemovalIsSound(w: World, h: Hash, tx: nat, withFiles: bool, now: int, d: Db, files: Files)
    requires Sound(w, h) && ChargeDeleted(w.db, d, tx, withFiles, now)
    ensures Sound(w.(db := d, files := files), h)
  {
    hide Inv, Owned, RunOwns, CaptureOwns, ChargeDeleted;
    DeleteKeepsInv(w.db, d, tx, withFiles, now);
    DeleteOwned(h, w.db, d, tx, withFiles, now, w.ledger);
  }

  lemma DropIsSound(w: World, h: Hash, a: nat)
    requires Sound(w, h)
    ensures Sound(w.(db := AttachmentDeleted(w.db, w.files, a).0, files := AttachmentDeleted(w.db, w.files, a).1), h)
  {
    hide Inv, Owned, RunOwns, CaptureOwns;
    DeleteReceiptKeepsInv(w.db, a);
    DropOwned(h, w.db, a, w.ledger);
  }

  /** Acts that leave the database alone and only add messages or take handlers away. */
  predicate Light(act: Act) {
    || act.UploadAct? || act.SendAct? || act.RemoveAct? || act.RefuseAct? || act.AbandonAct? || act.RemoveAskedAct?
    || act.CrashAct? || act.DamageAct?
  }

  lemma LightIsSound(w: World, act: Act, now: int, w': World, h: Hash, re: Regex)
    requires Sound(w, h) && Next(w, act, now, w', h, re) && Light(act)
    ensures Sound(w', h)
  {
    hide Sound, StoredWorld, PersistedWorld, CheckedWorld, Recorded, Step, ChargeDeleted, AttachmentDeleted,
      MarkedDeleted, FilesKept, Receipts, Announced, Confirmed;
    SoundParts(w, h);
    HandlersAreSound(w, w', h);
  }

  lemma NextIsSound(w: World, act: Act, now: int, w': World, h: Hash, re: Regex)
    requires Sound(w, h) && Next(w, act, now, w', h, re)
    ensures Sound(w', h)
  {
    hide Sound, StoredWorld, PersistedWorld, CheckedWorld, Recorded, Step, ChargeDeleted,
      AttachmentDeleted, MarkedDeleted, FilesKept, Receipts;
    match act
    case StoreAct(c, m, i, data, path, normalized, landed) =>
      StoreIsSound(w, h, c, m, i, data, path, normalized, landed);
    case PersistAct(c) => PersistIsSound(w, h, c);
    case AnnounceAct(tx, m) => RecordIsSound(w, h, tx, m, now);
    case ConfirmAct(run, m) => RecordIsSound(w, h, w.runs[run].tx, m, now);
    case CheckAct(run, tx, ids, receipts, announcement) => CheckIsSound(w, h, run, tx, ids, receipts, announcement);
    case FinishAct(run) => FinishIsSound(w, h, run, now);
    case RemoveChargeAct(tx, withFiles) => RemovalIsSound(w, h, tx, withFiles, now, w'.db, w'.files);
    case RemoveReceiptAct(a) => DropIsSound(w, h, a);
    case SessionAct(e) => SessionIsSound(w, h, e, now, w'.db, re);
    case _ => LightIsSound(w, act, now, w', h, re);
  }

  lemma SoundParts(w: World, h: Hash)
    requires Sound(w, h)
    ensures Separate(w.ledger)
  {
  }

  // ---- whole histories --------------------------------------------------------------------------

  const START := World(EmptyDb, map[], Ledger(map[], {}, {}), {}, map[], map[])

  datatype History = History(worlds: seq<World>, acts: seq<Act>, times: seq<int>)

  ghost predicate IsHistory(t: History, h: Hash, re: Regex) {
    && |t.worlds| == |t.acts| + 1 && |t.times| == |t.acts|
    && t.worlds[0] == START
    && forall k | 0 <= k < |t.acts| :: Next(t.worlds[k], t.acts[k], t.times[k], t.worlds[k + 1], h, re)
  }

  lemma StartIsSound(h: Hash)
    ensures Sound(START, h)
  {
  }

  lemma {:induction false} AlwaysSound(t: History, h: Hash, re: Regex, k: nat)
    requires IsHistory(t, h, re) && k < |t.worlds|
    ensures Sound(t.worlds[k], h)
    decreases k
  {
    hide Sound, Next, START;
    if k == 0 {
      StartIsSound(h);
    } else {
      AlwaysSound(t, h, re, k - 1);
      NextIsSound(t.worlds[k - 1], t.acts[k - 1], t.times[k - 1], t.worlds[k], h, re);
    }
  }

  /** Act `j` is a check that started run `run` with every checked file durable. */
  ghost predicate StartsRun(t: History, h: Hash, j: nat, run: nat, r: FinalizeRun)
    requires j < |t.acts| && j < |t.worlds|
  {
    && t.acts[j].CheckAct? && t.acts[j].run == run && t.acts[j].tx == r.tx && t.acts[j].ids == r.ids
    && r.tx in t.worlds[j].db.transactions
    && r.evidence == Evidence(t.worlds[j].db.attachments, r.tx, r.ids)
    && (forall a | a in r.evidence :: StillDurable(h, t.worlds[j].files, r.evidence[a]))
    && (forall m | m in r.queue ::
          MayGo(t.worlds[j].db, r.tx, r.ids, t.acts[j].deleteReceipts, t.acts[j].deleteAnnouncement, m))
  }

  /** A run that is there after an act was there before it, or the act is a check that starts it. */
  lemma RunStep(w: World, act: Act, now: int, w': World, h: Hash, re: Regex, run: nat)
    requires Next(w, act, now, w', h, re) && run in w'.runs
    ensures run in w.runs || act.CheckAct?
    ensures run in w.runs ==>
              && w'.runs[run].evidence == w.runs[run].evidence
              && w'.runs[run].tx == w.runs[run].tx && w'.runs[run].ids == w.runs[run].ids
              && w'.runs[run].queue <= w.runs[run].queue
  {
    hide StillDurable, Loaded, Evidence, Queue, StoreOutcome, Captured, ChargeDeleted, Step, AttachmentDeleted,
      MarkedDeleted, Announced, Confirmed, FilesKept, Receipts;
  }

  lemma CheckStarts(w: World, h: Hash, act: Act, now: int, w': World, re: Regex, run: nat)
    requires Next(w, act, now, w', h, re) && act.CheckAct? && run in w'.runs && run !in w.runs
    ensures var r := w'.runs[run];
            && act.run == run && act.tx == r.tx && act.ids == r.ids
            && r.tx in w.db.transactions && r.evidence == Evidence(w.db.attachments, r.tx, r.ids)
            && (forall a | a in r.evidence :: StillDurable(h, w.files, r.evidence[a]))
            && (forall m | m in r.queue ::
                  MayGo(w.db, r.tx, r.ids, act.deleteReceipts, act.deleteAnnouncement, m))
  {
    LoadedExactly(w.db, h, w.files, act.tx, act.ids);
    hide StillDurable, Queue, MayGo, Passes, Loaded;
    forall m | m in w'.runs[run].queue
      ensures MayGo(w.db, act.tx, act.ids, act.deleteReceipts, act.deleteAnnouncement, m)
    {
      QueueExactly(w.db, h, w.files, act.tx, act.ids, act.deleteReceipts, act.deleteAnnouncement, m);
    }
    CheckedEvidence(w, h, act.tx, act.ids);
  }

  lemma CheckedEvidence(w: World, h: Hash, tx: nat, ids: seq<nat>)
    ensures var r := Loaded(w.db, h, w.files, tx, ids);
            r.Success? && r.value.Some? ==>
              && tx in w.db.transactions
              && forall a | a in Evidence(w.db.attachments, tx, ids) ::
                   StillDurable(h, w.files, Evidence(w.db.attachments, tx, ids)[a])
  {
    hide StillDurable;
  }

  /** A run in progress was started by a check that passed, and has been in progress since. */
  lemma {:induction false} RunsWereChecked(t: History, h: Hash, re: Regex, k: nat, run: nat) returns (j: nat)
    requires IsHistory(t, h, re) && k < |t.worlds| && run in t.worlds[k].runs
    ensures j < k && StartsRun(t, h, j, run, t.worlds[k].runs[run])
    ensures forall i | j < i <= k :: run in t.worlds[i].runs
    decreases k
  {
    hide Next, START;
    StartHasNoRuns();
    var w, act, w' := t.worlds[k - 1], t.acts[k - 1], t.worlds[k];
    RunStep(w, act, t.times[k - 1], w', h, re, run);
    if run !in w.runs { CheckStarts(w, h, act, t.times[k - 1], w', re, run); }
    if run in t.worlds[k - 1].runs {
      j := RunsWereChecked(t, h, re, k - 1, run);
      assert StartsRun(t, h, j, run, t.worlds[k].runs[run]);
    } else {
      j := k - 1;
    }
  }

  lemma StartHasNoRuns()
    ensures START.runs == map[]
  {
  }

  /**
   The settings are obeyed: whatever a finalize run deletes was, at the check that
   started it, the source of an attachment it checked while receipts were to be
   deleted, or the charge's announcement while announcements were.
  */
  lemma DeletionsFollowTheSettings(t: History, h: Hash, re: Regex, k: nat) returns (j: nat)
    requires IsHistory(t, h, re) && k < |t.acts| && t.acts[k].RemoveAct?
    ensures |t.worlds| == |t.acts| + 1 && j < k && t.acts[j].CheckAct? && t.acts[j].run == t.acts[k].run
    ensures forall i | j < i <= k :: t.acts[k].run in t.worlds[i].runs
    ensures var check := t.acts[j];
            MayGo(t.worlds[j].db, check.tx, check.ids, check.deleteReceipts, check.deleteAnnouncement,
                  t.acts[k].message)
  {
    hide MayGo, START;
    assert Next(t.worlds[k], t.acts[k], t.times[k], t.worlds[k + 1], h, re);
    QueuedRemoval(t.worlds[k], t.acts[k], t.times[k], t.worlds[k + 1], h, re);
    hide Next;
    j := RunsWereChecked(t, h, re, k, t.acts[k].run);
  }

  lemma QueuedRemoval(w: World, act: Act, now: int, w': World, h: Hash, re: Regex)
    requires Next(w, act, now, w', h, re) && act.RemoveAct?
    ensures act.run in w.runs && act.message in w.runs[act.run].queue
  {
  }

  /** An upload is never a charge's announcement, so it goes only when receipts are to be deleted. */
  lemma SourceIsNoAnnouncement(d: Db, tx: nat, ids: seq<nat>, receipts: bool, announcement: bool, m: nat, a: nat)
    requires Inv(d) && a in d.attachments && d.attachments[a].sourceMessageId == Some(m)
    requires MayGo(d, tx, ids, receipts, announcement, m)
    ensures receipts
  {
    hide Identity, Filing, Work;
    assert SourcesFit(d.attachments, d.messages) && AnnouncementsFit(d.transactions, d.messages);
  }

  /** Acts that may change or remove the file at `path`. */
  predicate Touches(w: World, act: Act, path: string) {
    match act
    case DamageAct(p, _) => p == path
    case RemoveChargeAct(tx, withFiles) =>
      withFiles && path in PathsOf(w.db.attachments, Receipts(w.db.attachments, tx))
    case RemoveReceiptAct(a) => a in w.db.attachments && w.db.attachments[a].path == path
    case _ => false
  }

  lemma UntouchedStep(w: World, act: Act, now: int, w': World, h: Hash, re: Regex, path: string)
    requires Next(w, act, now, w', h, re) && path in w.files && !Touches(w, act, path)
    ensures path in w'.files && w'.files[path] == w.files[path]
  {
    hide StillDurable, Loaded, Captured, ChargeDeleted, Step, MarkedDeleted, Announced, Confirmed, PathsOf, Receipts;
  }

  lemma {:induction false} Untouched(t: History, h: Hash, re: Regex, j: nat, k: nat, path: string)
    requires IsHistory(t, h, re) && j <= k < |t.worlds| && path in t.worlds[j].files
    requires forall i | j <= i < k :: !Touches(t.worlds[i], t.acts[i], path)
    ensures path in t.worlds[k].files && t.worlds[k].files[path] == t.worlds[j].files[path]
    decreases k
  {
    hide Next, Touches, START;
    if j < k {
      Untouched(t, h, re, j, k - 1, path);
      UntouchedStep(t.worlds[k - 1], t.acts[k - 1], t.times[k - 1], t.worlds[k], h, re, path);
    }
  }

  /** The message the application deletes in an act, if any. */
  function Removed(w: World, act: Act): Option<nat> {
    match act
    case RemoveAct(_, m) => Some(m)
    case RemoveAskedAct(j) =>
      if j in w.db.jobs && w.db.jobs[j].payload.ForMessage? then Some(w.db.jobs[j].payload.message) else None
    case _ => None
  }

  /**
   Check `j` covers the deletion of upload `m` by act `k`: the same finalize run,
   still in progress, found every payload attachment linked to its charge durable,
   and one of them, `a`, is the receipt captured from `m`.
  */
  ghost predicate Covers(t: History, h: Hash, j: nat, k: nat, m: nat, a: nat)
    requires j < k < |t.acts| && |t.worlds| == |t.acts| + 1
  {
    && t.acts[k].RemoveAct? && t.acts[k].message == m
    && t.acts[j].CheckAct? && t.acts[j].run == t.acts[k].run
    && (forall i | j < i <= k :: t.acts[k].run in t.worlds[i].runs)
    && var atts := t.worlds[j].db.attachments;
       && (forall b | b in atts && Checked(atts, t.acts[j].tx, t.acts[j].ids, b) ::
             StillDurable(h, t.worlds[j].files, atts[b]))
       && a in atts && Checked(atts, t.acts[j].tx, t.acts[j].ids, a)
       && atts[a].sourceMessageId == Some(m)
  }

  /** An upload the application deletes is deleted by a finalize run, from its queue of checked sources. */
  lemma DeletedUploadWasQueued(t: History, h: Hash, re: Regex, k: nat, m: nat) returns (a: nat)
    requires IsHistory(t, h, re) && k < |t.acts|
    requires Removed(t.worlds[k], t.acts[k]) == Some(m) && m in t.worlds[k].ledger.uploads
    ensures t.acts[k].RemoveAct? && t.acts[k].message == m && t.acts[k].run in t.worlds[k].runs
    ensures var r := t.worlds[k].runs[t.acts[k].run];
            && a in r.evidence && r.evidence[a].sourceMessageId == Some(m)
            && (m in t.worlds[k].ledger.converted || Carries(h, t.worlds[k].ledger, m, r.evidence[a].sha256))
  {
    var w := t.worlds[k];
    AlwaysSound(t, h, re, k);
    assert Next(w, t.acts[k], t.times[k], t.worlds[k + 1], h, re);
    a := QueuedSource(w, h, t.acts[k], m);
  }

  lemma QueuedSource(w: World, h: Hash, act: Act, m: nat) returns (a: nat)
    requires Sound(w, h) && Removed(w, act) == Some(m) && m in w.ledger.uploads
    requires act.RemoveAct? ==> act.run in w.runs && m in w.runs[act.run].queue
    ensures act.RemoveAct? && act.message == m && act.run in w.runs
    ensures a in w.runs[act.run].evidence && w.runs[act.run].evidence[a].sourceMessageId == Some(m)
    ensures m in w.ledger.converted || Carries(h, w.ledger, m, w.runs[act.run].evidence[a].sha256)
  {
    hide Inv;
    assert JobsOwned(w.db.jobs, w.ledger);
    assert m !in w.ledger.sent;
    var r := w.runs[act.run];
    assert RunOwns(h, r, w.ledger);
    a :| a in r.evidence && r.evidence[a].sourceMessageId == Some(m);
    assert Faithful(h, r.evidence[a], w.ledger);
  }

  /**
   In every history with crashes, retries, refusals and disk faults: if the
   application deletes an uploader's message, then a finalize run does it, after
   its own check found the size and checksum of every payload attachment still
   linked to the charge in order, the receipt captured from that very message
   among them.  If since that check no fault and no user removed the file, it is
   still durable at the deletion; and if its capture was not a declared
   conversion, a collision-free checksum makes it one of the message's files,
   byte for byte.
  */
  lemma UploadsAreDeletedOnlyAfterTheirCheck(t: History, h: Hash, re: Regex, k: nat, m: nat)
    returns (j: nat, a: nat)
    requires IsHistory(t, h, re) && k < |t.acts|
    requires Removed(t.worlds[k], t.acts[k]) == Some(m) && m in t.worlds[k].ledger.uploads
    ensures j < k && Covers(t, h, j, k, m, a) && t.acts[j].deleteReceipts
    ensures var att := t.worlds[j].db.attachments[a];
            (forall i | j <= i < k :: !Touches(t.worlds[i], t.acts[i], att.path)) ==>
              && StillDurable(h, t.worlds[k].files, att)
              && (CollisionFree(h) && m !in t.worlds[k].ledger.converted ==>
                    t.worlds[k].files[att.path] in t.worlds[k].ledger.uploads[m])
  {
    hide IsHistory, CollisionFree, Touches, Covers, StartsRun;
    HistoryShape(t, h, re);
    a := DeletedUploadWasQueued(t, h, re, k, m);
    var run := t.acts[k].run;
    j := RunsWereChecked(t, h, re, k, run);
    CheckCovers(t, h, j, k, m, a);
    UploadAsReceipt(t, h, re, j, k, m, a);
    var att := t.worlds[j].db.attachments[a];
    if forall i | j <= i < k :: !Touches(t.worlds[i], t.acts[i], att.path) {
      Untouched(t, h, re, j, k, att.path);
      if CollisionFree(h) && m !in t.worlds[k].ledger.converted {
        var sent := t.worlds[k].ledger.uploads[m];
        var i :| 0 <= i < |sent| && h(sent[i]) == att.sha256;
        DurableIsTheUpload(h, t.worlds[k].files, att.path, att.sha256, att.bytes, sent[i]);
      }
    }
  }

  lemma UploadAsReceipt(t: History, h: Hash, re: Regex, j: nat, k: nat, m: nat, a: nat)
    requires IsHistory(t, h, re) && j < k < |t.acts| && t.acts[k].RemoveAct? && t.acts[k].message == m
    requires t.acts[k].run in t.worlds[k].runs && |t.worlds| == |t.acts| + 1
    requires StartsRun(t, h, j, t.acts[k].run, t.worlds[k].runs[t.acts[k].run])
    requires a in t.worlds[j].db.attachments && t.worlds[j].db.attachments[a].sourceMessageId == Some(m)
    ensures t.acts[j].deleteReceipts
  {
    AlwaysSound(t, h, re, j);
    assert Next(t.worlds[k], t.acts[k], t.times[k], t.worlds[k + 1], h, re);
    QueuedRemoval(t.worlds[k], t.acts[k], t.times[k], t.worlds[k + 1], h, re);
    hide IsHistory, Next, MayGo, Inv, Owned, HandlersOwn, Separate;
    var check := t.acts[j];
    SourceIsNoAnnouncement(t.worlds[j].db, check.tx, check.ids, check.deleteReceipts, check.deleteAnnouncement, m, a);
  }

  /** Each file of message `m` is the content, at act `k`, of a file the database had captured from it at check `j`. */
  ghost predicate AllKept(t: History, j: nat, k: nat, m: nat)
    requires j < |t.worlds| && k < |t.worlds| && m in t.worlds[k].ledger.uploads
  {
    var atts, files, sent := t.worlds[j].db.attachments, t.worlds[k].files, t.worlds[k].ledger.uploads[m];
    forall i | 0 <= i < |sent| :: KeptCopy(atts, files, m, sent[i])
  }

  predicate KeptCopy(atts: map<nat, Attachment>, files: Files, m: nat, data: Data) {
    exists a | a in atts ::
      atts[a].sourceMessageId == Some(m) && atts[a].path in files && files[atts[a].path] == data
  }

  /**
   What a deleted message loses.  A message is captured once, whatever it carries,
   so every file of a deleted message is kept if and only if all its files are the
   same bytes: a message with one file loses nothing, and of different files all
   but one are gone with the message.
  */
  lemma DeletedMessageKeepsAllExactly(t: History, h: Hash, re: Regex, k: nat, m: nat, j: nat, a: nat)
    requires IsHistory(t, h, re) && j < k < |t.acts| && m in t.worlds[k].ledger.uploads
    requires |t.worlds| == |t.acts| + 1 && Covers(t, h, j, k, m, a)
    requires var att := t.worlds[j].db.attachments[a];
             att.path in t.worlds[k].files && t.worlds[k].files[att.path] in t.worlds[k].ledger.uploads[m]
    ensures var sent := t.worlds[k].ledger.uploads[m];
            AllKept(t, j, k, m) <==> forall i, i' | 0 <= i < |sent| && 0 <= i' < |sent| :: sent[i] == sent[i']
  {
    hide IsHistory, CollisionFree;
    AlwaysSound(t, h, re, j);
    OneCapture(t.worlds[j], h, m, a);
    hide Sound;
    KeptIsTheCapture(t.worlds[j].db.attachments, t.worlds[k].files, m, a, t.worlds[k].ledger.uploads[m]);
  }

  lemma KeptIsTheCapture(atts: map<nat, Attachment>, files: Files, m: nat, a: nat, sent: seq<Data>)
    requires a in atts && atts[a].sourceMessageId == Some(m)
    requires forall b | b in atts && atts[b].sourceMessageId == Some(m) :: b == a
    requires atts[a].path in files && files[atts[a].path] in sent
    ensures (forall i | 0 <= i < |sent| :: KeptCopy(atts, files, m, sent[i]))
            <==> forall i, i' | 0 <= i < |sent| && 0 <= i' < |sent| :: sent[i] == sent[i']
  {
    var kept := files[atts[a].path];
    forall i | 0 <= i < |sent| ensures KeptCopy(atts, files, m, sent[i]) <==> sent[i] == kept { }
    var n :| 0 <= n < |sent| && sent[n] == kept;
  }

  /** No two rows are captured from one message. */
  lemma OneCapture(w: World, h: Hash, m: nat, a: nat)
    requires Sound(w, h) && a in w.db.attachments && w.db.attachments[a].sourceMessageId == Some(m)
    ensures forall b | b in w.db.attachments && w.db.attachments[b].sourceMessageId == Some(m) :: b == a
  {
    assert SourcesFit(w.db.attachments, w.db.messages);
  }

  /** The theorem below is about something: where the check passes, every checked source can be deleted next. */
  lemma PassedCheckCanDelete(w: World, h: Hash, re: Regex, run: nat, tx: nat, ids: seq<nat>, now: int, m: nat)
    returns (w1: World, w2: World)
    requires run !in w.runs && Loaded(w.db, h, w.files, tx, ids).Success? && tx in w.db.transactions
    requires m in Sources(w.db.attachments, tx, ids)
    ensures Next(w, CheckAct(run, tx, ids, true, false), now, w1, h, re)
    ensures Next(w1, RemoveAct(run, m), now, w2, h, re) && m !in w2.present && w2.db == w.db
  {
    hide StillDurable, Sources;
    w1 := CheckedWorld(w, h, run, tx, ids, true, false);
    var r := w1.runs[run];
    w2 := w1.(present := w1.present - {m},
              runs := w1.runs[run := r.(queue := r.queue - {m}, deleted := r.deleted + [m])]);
  }

  /** A check that finds a single linked payload attachment wanting leaves everything as it was. */
  lemma FailedCheckStartsNothing(w: World, act: Act, now: int, w': World, h: Hash, re: Regex, a: nat)
    requires Next(w, act, now, w', h, re) && act.CheckAct?
    requires Checked(w.db.attachments, act.tx, act.ids, a) && act.tx in w.db.transactions
    requires !StillDurable(h, w.files, w.db.attachments[a])
    ensures w' == w && act.run !in w'.runs
  {
    hide StillDurable;
  }

  /**
   A run whose check found a payload attachment wanting deletes nothing: whatever
   is later deleted under its number is deleted after another check, made since,
   that found every file in order.
  */
  lemma FailedCheckDeletesNothing(t: History, h: Hash, re: Regex, j: nat, k: nat, a: nat) returns (again: nat)
    requires IsHistory(t, h, re) && j < k < |t.acts| && t.acts[j].CheckAct?
    requires var w := t.worlds[j];
             && Checked(w.db.attachments, t.acts[j].tx, t.acts[j].ids, a) && t.acts[j].tx in w.db.transactions
             && !StillDurable(h, w.files, w.db.attachments[a])
    requires t.acts[k].RemoveAct? && t.acts[k].run == t.acts[j].run
    ensures j < again < k && t.acts[k].run in t.worlds[k].runs
    ensures StartsRun(t, h, again, t.acts[k].run, t.worlds[k].runs[t.acts[k].run])
  {
    hide StillDurable, Next, StartsRun;
    FailedCheckStartsNothing(t.worlds[j], t.acts[j], t.times[j], t.worlds[j + 1], h, re, a);
    RemovalIsOfARun(t.worlds[k], t.acts[k], t.times[k], t.worlds[k + 1], h, re);
    again := RunsWereChecked(t, h, re, k, t.acts[k].run);
    assert t.acts[k].run !in t.worlds[j + 1].runs;
  }

  lemma RemovalIsOfARun(w: World, act: Act, now: int, w': World, h: Hash, re: Regex)
    requires Next(w, act, now, w', h, re) && act.RemoveAct?
    ensures act.run in w.runs
  {
  }

  lemma CheckCovers(t: History, h: Hash, j: nat, k: nat, m: nat, a: nat)
    requires |t.worlds| == |t.acts| + 1 && j < k < |t.acts|
    requires t.acts[k].RemoveAct? && t.acts[k].message == m && t.acts[k].run in t.worlds[k].runs
    requires StartsRun(t, h, j, t.acts[k].run, t.worlds[k].runs[t.acts[k].run])
    requires forall i | j < i <= k :: t.acts[k].run in t.worlds[i].runs
    requires var r := t.worlds[k].runs[t.acts[k].run];
             a in r.evidence && r.evidence[a].sourceMessageId == Some(m)
    ensures Covers(t, h, j, k, m, a) && a in t.worlds[j].db.attachments
    ensures t.worlds[j].db.attachments[a] == t.worlds[k].runs[t.acts[k].run].evidence[a]
    ensures StillDurable(h, t.worlds[j].files, t.worlds[j].db.attachments[a])
  {
    hide StillDurable;
    var r, atts := t.worlds[k].runs[t.acts[k].run], t.worlds[j].db.attachments;
    assert r.evidence == Evidence(atts, r.tx, r.ids);
    forall b | b in atts && Checked(atts, r.tx, r.ids, b) ensures StillDurable(h, t.worlds[j].files, atts[b]) {
      assert b in r.evidence;
    }
  }

  lemma HistoryShape(t: History, h: Hash, re: Regex)
    requires IsHistory(t, h, re)
    ensures |t.worlds| == |t.acts| + 1 && |t.times| == |t.acts|
  {
  }
}
