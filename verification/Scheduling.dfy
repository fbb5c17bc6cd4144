/** The daily tasks (app/services/scheduler.py). */
module Scheduling {
  import opened Schema
  import opened Outbox
  import Queue = OutboxRuns

  // ---- which date has run ----------------------------------------------------------------

  /** The `runtime.last_digest_date` setting; dates are day numbers. */
  class Settings {
    var lastDigest: Option<nat>
  }

  /** What one tick reads: the local date and hour, and the configuration. */
  datatype Tick = Tick(today: nat, hour: nat, digestHour: nat, digestEnabled: bool, connected: bool)

  predicate Fires(last: Option<nat>, k: Tick) {
    k.hour >= k.digestHour && last != Some(k.today)
  }

  function Tasks(k: Tick): seq<Kind> {
    (if k.digestEnabled then [Digest] else []) + [LapseSweep] + (if k.connected then [SyncAccounts] else [])
  }

  /** `_due_tasks`: the date is committed before any job is. */
  method DueTasks(settings: Settings, k: Tick) returns (due: seq<Kind>)
    modifies settings
    ensures due == if Fires(old(settings.lastDigest), k) then Tasks(k) else []
    ensures due == if k.hour < k.digestHour || old(settings.lastDigest) == Some(k.today) then []
                   else if !k.digestEnabled && !k.connected then [LapseSweep]
                   else if !k.digestEnabled then [LapseSweep, SyncAccounts]
                   else if !k.connected then [Digest, LapseSweep]
                   else [Digest, LapseSweep, SyncAccounts]
    ensures settings.lastDigest
            == if k.hour < k.digestHour then old(settings.lastDigest) else Some(k.today)
  {
    due := [];
    if k.hour >= k.digestHour {
      if settings.lastDigest != Some(k.today) {
        settings.lastDigest := Some(k.today);
        if k.digestEnabled {
          due := due + [Digest];
        }
        due := due + [LapseSweep];
        if k.connected {
          due := due + [SyncAccounts];
        }
      }
    }
  }

  /** The setting after some ticks. */
  function Last(ticks: seq<Tick>): Option<nat> {
    if ticks == [] then None
    else
      var before := Last(ticks[..|ticks| - 1]);
      if Fires(before, ticks[|ticks| - 1]) then Some(ticks[|ticks| - 1].today) else before
  }

  predicate FiresAt(ticks: seq<Tick>, n: nat)
    requires n < |ticks|
  {
    Fires(Last(ticks[..n]), ticks[n])
  }

  ghost predicate Forward(ticks: seq<Tick>) {
    forall i, j | 0 <= i <= j < |ticks| :: ticks[i].today <= ticks[j].today
  }

  /** With dates moving forward, the setting is the latest date that fired. */
  lemma {:induction false} LastIsLatest(ticks: seq<Tick>, n: nat)
    requires Forward(ticks) && n <= |ticks|
    ensures forall i | 0 <= i < n && FiresAt(ticks, i) ::
              Last(ticks[..n]).Some? && ticks[i].today <= Last(ticks[..n]).value
    ensures Last(ticks[..n]).Some? ==>
              exists i :: 0 <= i < n && FiresAt(ticks, i) && ticks[i].today == Last(ticks[..n]).value
    decreases n
  {
    if n > 0 {
      var m := n - 1;
      LastIsLatest(ticks, m);
      assert ticks[..n][..m] == ticks[..m] && ticks[..n][m] == ticks[m];
      if FiresAt(ticks, m) {
        assert Last(ticks[..n]) == Some(ticks[m].today);
      } else {
        assert Last(ticks[..n]) == Last(ticks[..m]);
      }
    }
  }

  /**
   While local dates do not go back, a tick schedules the daily tasks if and only
   if its hour has come and no earlier tick scheduled them on its date; so no
   date schedules twice, and a date is skipped only if no tick sees its hour.
  */
  lemma EachDateFiresOnce(ticks: seq<Tick>, n: nat)
    requires Forward(ticks) && n < |ticks|
    ensures FiresAt(ticks, n) <==>
      && ticks[n].hour >= ticks[n].digestHour
      && forall i | 0 <= i < n && FiresAt(ticks, i) :: ticks[i].today != ticks[n].today
  {
    LastIsLatest(ticks, n);
  }

  /** Whatever the dates do, the setting is the date of the latest firing. */
  lemma {:induction false} LastIsLatestFiring(ticks: seq<Tick>, n: nat)
    requires n <= |ticks|
    ensures Last(ticks[..n]).None? <==> forall i | 0 <= i < n :: !FiresAt(ticks, i)
    ensures forall i | 0 <= i < n && FiresAt(ticks, i) && (forall k | i < k < n :: !FiresAt(ticks, k)) ::
              Last(ticks[..n]) == Some(ticks[i].today)
    decreases n
  {
    if n > 0 {
      var m := n - 1;
      LastIsLatestFiring(ticks, m);
      assert ticks[..n][..m] == ticks[..m] && ticks[..n][m] == ticks[m];
      if FiresAt(ticks, m) {
        assert Last(ticks[..n]) == Some(ticks[m].today);
      } else {
        assert Last(ticks[..n]) == Last(ticks[..m]);
      }
    }
  }

  lemma {:induction false} LatestFiring(ticks: seq<Tick>, lo: nat, n: nat) returns (i: nat)
    requires lo < n <= |ticks| && exists k | lo <= k < n :: FiresAt(ticks, k)
    ensures lo <= i < n && FiresAt(ticks, i) && forall k | i < k < n :: !FiresAt(ticks, k)
    decreases n
  {
    if FiresAt(ticks, n - 1) {
      i := n - 1;
    } else {
      i := LatestFiring(ticks, lo, n - 1);
    }
  }

  /**
   Exactly when a date fires again.  Tick `i` is the latest before `n` that fired on
   the date of `n`.  Tick `n` fires again if and only if its hour has come and some
   tick in between fired, for another date: only the last date is remembered.
  */
  lemma DateRepeatsExactly(ticks: seq<Tick>, i: nat, n: nat)
    requires i < n < |ticks| && FiresAt(ticks, i) && ticks[i].today == ticks[n].today
    requires forall k | i < k < n && FiresAt(ticks, k) :: ticks[k].today != ticks[n].today
    ensures FiresAt(ticks, n) <==>
      ticks[n].hour >= ticks[n].digestHour && exists k | i < k < n :: FiresAt(ticks, k)
  {
    LastIsLatestFiring(ticks, n);
    if exists k | i < k < n :: FiresAt(ticks, k) {
      var k := LatestFiring(ticks, i + 1, n);
      assert Last(ticks[..n]) == Some(ticks[k].today);
    } else {
      assert Last(ticks[..n]) == Some(ticks[i].today);
    }
  }

  /** A tick of a date that has not fired yet fires if and only if its hour has come. */
  lemma FreshDateFires(ticks: seq<Tick>, n: nat)
    requires n < |ticks| && forall i | 0 <= i < n && FiresAt(ticks, i) :: ticks[i].today != ticks[n].today
    ensures FiresAt(ticks, n) <==> ticks[n].hour >= ticks[n].digestHour
  {
    LastIsLatestFiring(ticks, n);
    if exists k | 0 <= k < n :: FiresAt(ticks, k) {
      var k := LatestFiring(ticks, 0, n);
      assert Last(ticks[..n]) == Some(ticks[k].today);
    }
  }

  /** So going back a day, as a change of time zone can, repeats it. */
  lemma GoingBackRepeats(k: Tick)
    requires k.hour >= k.digestHour
    ensures var ticks := [k, k.(today := k.today + 1), k];
            FiresAt(ticks, 0) && FiresAt(ticks, 1) && FiresAt(ticks, 2)
  {
    var ticks := [k, k.(today := k.today + 1), k];
    FreshDateFires(ticks, 0);
    FreshDateFires(ticks, 1);
    DateRepeatsExactly(ticks, 0, 2);
  }

  // ---- the jobs -----------------------------------------------------------------------------

  const STAGGER: nat := 20

  function DailyJob(kind: Kind, stamp: nat, at: int): Job {
    NewJob(kind, NoPayload, Some(DailyKey(kind, stamp)), at, MAX_ATTEMPTS)
  }

  lemma EnqueueKeepsKeys(t: Jobs, j: Job)
    requires UniqueKeys(t)
    ensures UniqueKeys(Enqueued(t, j).0)
  {
    if j.key.Some? && Holders(t, j.key.value) != {} {
      var held :| held in Holders(t, j.key.value);
    } else if j.key.Some? {
      forall i | i in t ensures t[i].key != j.key { assert i !in Holders(t, j.key.value); }
    }
  }

  /** The queue after `_enqueue`: one job for each kind, each due 20 seconds after the one before. */
  ghost function EnqueuedAll(t: Jobs, kinds: seq<Kind>, stamp: nat, now: int): (r: Jobs)
    requires UniqueKeys(t)
    ensures UniqueKeys(r)
  {
    if kinds == [] then t
    else
      var n := |kinds| - 1;
      var before := EnqueuedAll(t, kinds[..n], stamp, now);
      EnqueueKeepsKeys(before, DailyJob(kinds[n], stamp, now + n * STAGGER));
      Enqueued(before, DailyJob(kinds[n], stamp, now + n * STAGGER)).0
  }

  /** A freshly enqueued daily job, pending since `at`. */
  ghost predicate FreshAt(t: Jobs, kind: Kind, stamp: nat, at: int, i: nat) {
    Holders(t, DailyKey(kind, stamp)) == {i} && i in t && t[i] == DailyJob(kind, stamp, at)
  }

  lemma EnqueueIsFresh(t: Jobs, kind: Kind, stamp: nat, at: int) returns (i: nat)
    requires UniqueKeys(t) && !EnsuredOnce(t, DailyKey(kind, stamp))
    ensures FreshAt(Enqueued(t, DailyJob(kind, stamp, at)).0, kind, stamp, at, i)
  {
    hide Enqueued;
    var job := DailyJob(kind, stamp, at);
    EnqueueEnsuresOnce(t, job);
    var (t', id) := Enqueued(t, job);
    i := id.value;
    var x :| Holders(t', DailyKey(kind, stamp)) == {x};
    assert i in Holders(t', DailyKey(kind, stamp));
  }

  lemma EnqueueKeepsFresh(t: Jobs, j: Job, kind: Kind, stamp: nat, at: int, i: nat)
    requires UniqueKeys(t) && FreshAt(t, kind, stamp, at, i)
    requires j.key.Some? && Live(j) && j.key != Some(DailyKey(kind, stamp))
    ensures FreshAt(Enqueued(t, j).0, kind, stamp, at, i)
  {
    hide Enqueued;
    EnqueueEnsuresOnce(t, j);
    var t' := Enqueued(t, j).0;
    var k := DailyKey(kind, stamp);
    assert i in Holders(t, k);
    forall x | x in Holders(t', k) ensures x in Holders(t, k) { assert t'[x].key != j.key; }
    assert Holders(t', k) == {i};
  }

  /** Enqueueing under another key neither adds nor removes outstanding work under this one. */
  lemma EnqueueKeepsAbsence(t: Jobs, j: Job, k: Key)
    requires UniqueKeys(t) && j.key.Some? && Live(j) && j.key != Some(k) && !EnsuredOnce(t, k)
    ensures !EnsuredOnce(Enqueued(t, j).0, k)
  {
    hide Enqueued;
    EnqueueEnsuresOnce(t, j);
    var t' := Enqueued(t, j).0;
    assert Holders(t', k) == Holders(t, k) by {
      forall x | x in Holders(t', k) ensures x in Holders(t, k) { assert t'[x].key != j.key; }
      forall x | x in Holders(t, k) ensures x in Holders(t', k) { assert t[x].key != j.key; }
    }
    forall i | Holders(t', k) == {i} ensures !Live(t'[i]) { assert i in Holders(t, k); }
  }

  // ---- what a tick leaves in the queue -----------------------------------------------------------

  predicate IsDaily(key: Option<Key>, kinds: seq<Kind>, stamp: nat) {
    key.Some? && key.value.DailyKey? && key.value.kind in kinds && key.value.stamp == stamp
  }

  ghost predicate SameUnder(t: Jobs, t': Jobs, k: Key) {
    Holders(t', k) == Holders(t, k) && forall i | i in Holders(t, k) :: t'[i] == t[i]
  }

  ghost predicate OneQueued(t: Jobs, t': Jobs, kind: Kind, stamp: nat, at: int) {
    if EnsuredOnce(t, DailyKey(kind, stamp)) then SameUnder(t, t', DailyKey(kind, stamp))
    else exists i :: FreshAt(t', kind, stamp, at, i)
  }

  /**
   A task of the day that was outstanding stays as it was, any other has one new
   job, due its turn of 20 seconds later; jobs under other keys are the same jobs.
  */
  ghost predicate TasksQueued(t: Jobs, t': Jobs, kinds: seq<Kind>, stamp: nat, now: int) {
    && UniqueKeys(t')
    && (forall n | 0 <= n < |kinds| :: OneQueued(t, t', kinds[n], stamp, now + n * STAGGER))
    && (forall i | i in t && !IsDaily(t[i].key, kinds, stamp) :: i in t' && t'[i] == t[i])
    && (forall i | i in t' && !IsDaily(t'[i].key, kinds, stamp) :: i in t && t'[i] == t[i])
  }

  /** The row of each task: the outstanding one it had, or one of its own, due 20 seconds after the task before. */
  lemma TaskRows(t: Jobs, t': Jobs, kinds: seq<Kind>, stamp: nat, now: int, n: nat)
    requires UniqueKeys(t) && TasksQueued(t, t', kinds, stamp, now) && n < |kinds|
    ensures var key := Some(DailyKey(kinds[n], stamp));
            if exists i :: i in t && t[i].key == key && t[i].status in {Pending, Running} then
              forall i :: (i in t' && t'[i].key == key) <==> (i in t && t[i].key == key && i in t' && t'[i] == t[i])
            else
              exists i ::
                && i in t' && t'[i] == Job(kinds[n], NoPayload, key, Pending, 0, 8, now + 20 * n)
                && forall j | j in t' && t'[j].key == key :: j == i
  {
    hide UniqueKeys;
    var key := DailyKey(kinds[n], stamp);
    assert OneQueued(t, t', kinds[n], stamp, now + n * STAGGER);
    assert forall i :: i in Holders(t, key) <==> i in t && t[i].key == Some(key);
    assert forall i :: i in Holders(t', key) <==> i in t' && t'[i].key == Some(key);
    OutstandingTask(t, key);
    if !EnsuredOnce(t, key) {
      var i :| FreshAt(t', kinds[n], stamp, now + n * STAGGER, i);
    }
  }

  lemma OutstandingTask(t: Jobs, key: Key)
    requires UniqueKeys(t)
    ensures EnsuredOnce(t, key) <==> exists i :: i in t && t[i].key == Some(key) && t[i].status in {Pending, Running}
  {
    if i :| i in t && t[i].key == Some(key) && t[i].status in {Pending, Running} {
      assert Holders(t, key) == {i};
    }
    if EnsuredOnce(t, key) {
      var i :| Holders(t, key) == {i} && Live(t[i]);
      assert i in Holders(t, key);
    }
  }

  lemma EnqueueKeepsUnder(t: Jobs, j: Job, k: Key)
    requires UniqueKeys(t) && j.key.Some? && Live(j) && j.key != Some(k)
    ensures SameUnder(t, Enqueued(t, j).0, k)
  {
    hide Enqueued;
    EnqueueEnsuresOnce(t, j);
    var t' := Enqueued(t, j).0;
    forall x | x in Holders(t', k) ensures x in Holders(t, k) { assert t'[x].key != j.key; }
    forall x | x in Holders(t, k) ensures x in Holders(t', k) && t'[x] == t[x] { assert t[x].key != j.key; }
  }

  lemma SameUnderChains(t: Jobs, t1: Jobs, t2: Jobs, k: Key)
    requires SameUnder(t, t1, k) && SameUnder(t1, t2, k)
    ensures SameUnder(t, t2, k)
  {
  }

  lemma SameUnderKeepsOnce(t: Jobs, t': Jobs, k: Key)
    requires SameUnder(t, t', k)
    ensures EnsuredOnce(t, k) <==> EnsuredOnce(t', k)
  {
    if EnsuredOnce(t, k) {
      var i :| Holders(t, k) == {i} && Live(t[i]);
      assert i in Holders(t, k);
    }
    if EnsuredOnce(t', k) {
      var i :| Holders(t', k) == {i} && Live(t'[i]);
      assert i in Holders(t, k);
    }
  }

  /** A task whose jobs are still those of `t`, queued now. */
  lemma TaskIsQueued(t: Jobs, t1: Jobs, kind: Kind, stamp: nat, at: int)
    requires UniqueKeys(t1) && SameUnder(t, t1, DailyKey(kind, stamp))
    ensures OneQueued(t, Enqueued(t1, DailyJob(kind, stamp, at)).0, kind, stamp, at)
  {
    hide Enqueued, FreshAt, SameUnder, EnsuredOnce;
    SameUnderKeepsOnce(t, t1, DailyKey(kind, stamp));
    EnqueueEnsuresOnce(t1, DailyJob(kind, stamp, at));
    if !EnsuredOnce(t, DailyKey(kind, stamp)) {
      var i := EnqueueIsFresh(t1, kind, stamp, at);
    }
  }

  /** One kind more, queued after the others. */
  lemma QueueOneMore(t: Jobs, t1: Jobs, kinds: seq<Kind>, kind: Kind, stamp: nat, now: int)
    requires TasksQueued(t, t1, kinds, stamp, now) && kind !in kinds
    ensures TasksQueued(t, Enqueued(t1, DailyJob(kind, stamp, now + |kinds| * STAGGER)).0, kinds + [kind], stamp, now)
  {
    hide Enqueued, OneQueued, UniqueKeys;
    var n, all := |kinds|, kinds + [kind];
    var job := DailyJob(kind, stamp, now + n * STAGGER);
    var t2 := Enqueued(t1, job).0;
    EnqueueKeepsKeys(t1, job);
    forall m | 0 <= m < |all| ensures OneQueued(t, t2, all[m], stamp, now + m * STAGGER) {
      if m < n {
        assert all[m] == kinds[m] && kinds[m] in kinds;
        EarlierTaskStays(t, t1, job, kinds[m], kind, stamp, now + m * STAGGER);
      } else {
        UntouchedUnder(t, t1, kinds, kind, stamp, now);
        TaskIsQueued(t, t1, kind, stamp, now + n * STAGGER);
      }
    }
    OtherRowsStay(t1, job);
    forall i | i in t2 && !IsDaily(t2[i].key, all, stamp) ensures i in t && t2[i] == t[i] {
      assert t2[i].key != job.key;
      assert i in t1 && t1[i] == t2[i] && !IsDaily(t1[i].key, kinds, stamp);
    }
    forall i | i in t && !IsDaily(t[i].key, all, stamp) ensures i in t2 && t2[i] == t[i] {
      assert !IsDaily(t[i].key, kinds, stamp);
      assert i in t1 && t1[i] == t[i] && t1[i].key != job.key;
    }
  }

  lemma OtherRowsStay(t: Jobs, j: Job)
    requires UniqueKeys(t) && j.key.Some? && Live(j)
    ensures var t' := Enqueued(t, j).0;
            && (forall i | i in t && t[i].key != j.key :: i in t' && t'[i] == t[i])
            && (forall i | i in t' && t'[i].key != j.key :: i in t && t'[i] == t[i])
  {
    EnqueueEnsuresOnce(t, j);
  }

  /** A task queued before another keeps its job. */
  lemma EarlierTaskStays(t: Jobs, t1: Jobs, job: Job, earlier: Kind, kind: Kind, stamp: nat, at: int)
    requires UniqueKeys(t1) && Live(job) && job.key == Some(DailyKey(kind, stamp)) && earlier != kind
    requires OneQueued(t, t1, earlier, stamp, at)
    ensures OneQueued(t, Enqueued(t1, job).0, earlier, stamp, at)
  {
    hide Enqueued, EnsuredOnce, FreshAt, SameUnder;
    if EnsuredOnce(t, DailyKey(earlier, stamp)) {
      EnqueueKeepsUnder(t1, job, DailyKey(earlier, stamp));
      SameUnderChains(t, t1, Enqueued(t1, job).0, DailyKey(earlier, stamp));
    } else {
      var i :| FreshAt(t1, earlier, stamp, at, i);
      EnqueueKeepsFresh(t1, job, earlier, stamp, at, i);
    }
  }

  lemma UntouchedUnder(t: Jobs, t1: Jobs, kinds: seq<Kind>, kind: Kind, stamp: nat, now: int)
    requires TasksQueued(t, t1, kinds, stamp, now) && kind !in kinds
    ensures SameUnder(t, t1, DailyKey(kind, stamp))
  {
    hide OneQueued, UniqueKeys;
    var k := DailyKey(kind, stamp);
    forall i | i in Holders(t, k) ensures i in Holders(t1, k) && t1[i] == t[i] {
      assert !IsDaily(t[i].key, kinds, stamp);
    }
    forall i | i in Holders(t1, k) ensures i in Holders(t, k) { assert !IsDaily(t1[i].key, kinds, stamp); }
  }

  ghost predicate Distinct(kinds: seq<Kind>) {
    forall m, n | 0 <= m < n < |kinds| :: kinds[m] != kinds[n]
  }

  /** The fold of enqueues does what a tick needs, task by task. */
  lemma {:induction false} EnqueuedAllQueues(t: Jobs, kinds: seq<Kind>, stamp: nat, now: int)
    requires UniqueKeys(t) && Distinct(kinds)
    ensures TasksQueued(t, EnqueuedAll(t, kinds, stamp, now), kinds, stamp, now)
    decreases |kinds|
  {
    hide TasksQueued, Enqueued, UniqueKeys;
    if kinds == [] {
      NothingQueued(t, stamp, now);
    } else {
      var n := |kinds| - 1;
      EnqueuedAllQueues(t, kinds[..n], stamp, now);
      assert kinds[..n] + [kinds[n]] == kinds;
      assert kinds[n] !in kinds[..n];
      QueueOneMore(t, EnqueuedAll(t, kinds[..n], stamp, now), kinds[..n], kinds[n], stamp, now);
    }
  }

  lemma NothingQueued(t: Jobs, stamp: nat, now: int)
    requires UniqueKeys(t)
    ensures TasksQueued(t, t, [], stamp, now)
  {
  }

  /** The tasks of a tick are distinct. */
  lemma TasksAreDistinct(k: Tick)
    ensures Distinct(Tasks(k))
  {
  }

  method EnqueueTasks(db: Database, kinds: seq<Kind>, stamp: nat, now: int)
    requires UniqueKeys(db.jobs)
    modifies db`jobs
    ensures db.jobs == EnqueuedAll(old(db.jobs), kinds, stamp, now)
    ensures Distinct(kinds) ==> TasksQueued(old(db.jobs), db.jobs, kinds, stamp, now)
  {
    hide UniqueKeys, Enqueued, TasksQueued, Distinct;
    ghost var t := db.jobs;
    for n := 0 to |kinds|
      invariant db.jobs == EnqueuedAll(t, kinds[..n], stamp, now)
    {
      assert kinds[..n + 1][..n] == kinds[..n];
      var id := Enqueue(db, kinds[n], NoPayload, Some(DailyKey(kinds[n], stamp)), now, n * STAGGER);
    }
    assert kinds[..|kinds|] == kinds;
    if Distinct(kinds) { EnqueuedAllQueues(t, kinds, stamp, now); }
  }

  /**
   When a tick enqueues digest and sweep and neither was outstanding, the two new
   jobs are such that in every run that leaves them alone the sweep is never
   started before the digest has been.
  */
  lemma DigestGoesFirst(t: Jobs, k: Tick, stamp: nat, now: int, es: seq<Queue.Event>) returns (digest: nat, sweep: nat)
    requires UniqueKeys(t) && k.digestEnabled
    requires !EnsuredOnce(t, DailyKey(Digest, stamp)) && !EnsuredOnce(t, DailyKey(LapseSweep, stamp))
    ensures var t' := EnqueuedAll(t, Tasks(k), stamp, now);
            && FreshAt(t', Digest, stamp, now, digest) && FreshAt(t', LapseSweep, stamp, now + STAGGER, sweep)
            && (Queue.Valid(t', es) && Queue.Undisturbed(t', es, digest) && Queue.Undisturbed(t', es, sweep) ==>
                  var after := Queue.Exec(t', es);
                  && digest in after && sweep in after
                  && (after[sweep].attempts > 0 ==> after[digest].attempts > 0))
  {
    hide Enqueued, UniqueKeys, EnsuredOnce;
    digest, sweep := FreshTasks(t, k, stamp, now);
    var t' := EnqueuedAll(t, Tasks(k), stamp, now);
    if Queue.Valid(t', es) && Queue.Undisturbed(t', es, digest) && Queue.Undisturbed(t', es, sweep) {
      Queue.EarlierDueStartsNoLater(t', es, digest, sweep);
    }
  }

  lemma FreshTasks(t: Jobs, k: Tick, stamp: nat, now: int) returns (digest: nat, sweep: nat)
    requires UniqueKeys(t) && k.digestEnabled
    requires !EnsuredOnce(t, DailyKey(Digest, stamp)) && !EnsuredOnce(t, DailyKey(LapseSweep, stamp))
    ensures var t' := EnqueuedAll(t, Tasks(k), stamp, now);
            FreshAt(t', Digest, stamp, now, digest) && FreshAt(t', LapseSweep, stamp, now + STAGGER, sweep)
  {
    hide Enqueued, UniqueKeys, EnsuredOnce, FreshAt;
    var first, second := DailyJob(Digest, stamp, now), DailyJob(LapseSweep, stamp, now + STAGGER);
    var t1 := Enqueued(t, first).0;
    EnqueueKeepsKeys(t, first);
    digest := EnqueueIsFresh(t, Digest, stamp, now);
    EnqueueKeepsAbsence(t, first, DailyKey(LapseSweep, stamp));
    var t2 := Enqueued(t1, second).0;
    EnqueueKeepsKeys(t1, second);
    sweep := EnqueueIsFresh(t1, LapseSweep, stamp, now + STAGGER);
    EnqueueKeepsFresh(t1, second, Digest, stamp, now, digest);
    var two := [Digest, LapseSweep];
    assert two[..1] == [Digest] && [Digest][..0] == [];
    assert EnqueuedAll(t, [], stamp, now) == t;
    assert EnqueuedAll(t, [Digest], stamp, now) == t1;
    assert EnqueuedAll(t, two, stamp, now) == t2;
    if k.connected {
      var third := DailyJob(SyncAccounts, stamp, now + 2 * STAGGER);
      EnqueueKeepsFresh(t2, third, Digest, stamp, now, digest);
      EnqueueKeepsFresh(t2, third, LapseSweep, stamp, now + STAGGER, sweep);
      var three := [Digest, LapseSweep, SyncAccounts];
      assert Tasks(k) == three && three[..2] == two;
    } else {
      assert Tasks(k) == two;
    }
  }
}
