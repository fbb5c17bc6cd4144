/** The durable job queue (app/services/jobs.py). */
module Outbox {
  import opened Schema
  import opened Ordering

  const MAX_ATTEMPTS: nat := 8
  const MAX_BACKOFF: nat := 600

  predicate Live(j: Job) {
    j.status.Pending? || j.status.Running?
  }

  /** The UNIQUE constraint on idempotency_key; NULL keys never collide. */
  ghost predicate UniqueKeys(t: Jobs) {
    forall a, b | a in t && b in t && t[a].key.Some? && t[a].key == t[b].key :: a == b
  }

  function Holders(t: Jobs, k: Key): set<nat> {
    set i | i in t && t[i].key == Some(k)
  }

  function NewJob(kind: Kind, payload: Payload, key: Option<Key>, at: int, maxAttempts: nat): Job {
    Job(kind, payload, key, Pending, 0, maxAttempts, at)
  }

  // ---- enqueue ------------------------------------------------------------

  /** What `enqueue` does to the table, and the id of the row it inserted, if any. */
  function Enqueued(t: Jobs, j: Job): (r: (Jobs, Option<nat>))
    requires UniqueKeys(t)
  {
    if j.key.None? || Holders(t, j.key.value) == {} then
      (t[NextId(t) := j], Some(NextId(t)))
    else
      var held :| held in Holders(t, j.key.value);
      if Live(t[held]) then (t, None)
      else
        var kept := t - {held};
        (kept[NextId(kept) := j], Some(NextId(kept)))
  }

  method Enqueue(db: Database, kind: Kind, payload: Payload, key: Option<Key>,
                 now: int, delay: nat := 0, maxAttempts: nat := MAX_ATTEMPTS)
    returns (id: Option<nat>)
    requires UniqueKeys(db.jobs)
    modifies db`jobs
    ensures (db.jobs, id) == Enqueued(old(db.jobs), NewJob(kind, payload, key, now + delay, maxAttempts))
    ensures id.Some? ==> id.value in db.jobs
    ensures id.Some? ==> db.jobs[id.value] == Job(kind, payload, key, Pending, 0, maxAttempts, now + delay)
  {
    var job := NewJob(kind, payload, key, now + delay, maxAttempts);
    var clash := if key.None? then {} else Holders(db.jobs, key.value);
    if clash == {} {
      id := Some(NextId(db.jobs));
      db.jobs := db.jobs[id.value := job];
      return;
    }
    var existing :| existing in clash;
    if Live(db.jobs[existing]) {
      return None;
    }
    db.jobs := db.jobs - {existing};
    id := Some(NextId(db.jobs));
    db.jobs := db.jobs[id.value := job];
  }

  /** Exactly one row has the key, and its work is still to be done. */
  ghost predicate EnsuredOnce(t: Jobs, k: Key) {
    exists i :: Holders(t, k) == {i} && Live(t[i])
  }

  /**
   Enqueueing under a key refines "ensure exactly one outstanding job for this
   key": it reports None exactly when one was outstanding before, and it leaves
   every row under another key, or under none, as it was.
  */
  lemma EnqueueEnsuresOnce(t: Jobs, j: Job)
    requires UniqueKeys(t) && j.key.Some? && Live(j)
    ensures var (t', id) := Enqueued(t, j);
            && UniqueKeys(t')
            && EnsuredOnce(t', j.key.value)
            && (id.None? <==> EnsuredOnce(t, j.key.value))
            && (id.None? ==> t' == t)
            && (id.Some? ==> id.value in t' && t'[id.value] == j)
            && (forall i | i in t && t[i].key != j.key :: i in t' && t'[i] == t[i])
            && (forall i | i in t' && t'[i].key != j.key :: i in t && t'[i] == t[i])
  {
    var k := j.key.value;
    var (t', id) := Enqueued(t, j);
    if Holders(t, k) == {} {
      assert forall i | i in t :: t[i].key != Some(k) by {
        forall i | i in t ensures t[i].key != Some(k) { assert i !in Holders(t, k); }
      }
      assert Holders(t', k) == {id.value};
    } else {
      var held :| held in Holders(t, k);
      assert Holders(t, k) == {held};
      if !Live(t[held]) {
        assert Holders(t', k) == {id.value};
      }
    }
  }

  /**
   Row by row: nothing is added exactly when a pending or running job has the key;
   otherwise the job gets a row of its own, a finished job with the key goes, and
   all other rows stay.
  */
  lemma EnqueueAnswers(t: Jobs, j: Job)
    requires UniqueKeys(t)
    ensures var (t', id) := Enqueued(t, j);
            && (id.None? <==>
                  j.key.Some? && exists i :: i in t && t[i].key == j.key && t[i].status in {Pending, Running})
            && (id.None? ==> t' == t)
            && (id.Some? ==>
                  && id.value in t' && t'[id.value] == j
                  && (forall i | i in t' && i != id.value ::
                        i in t && t'[i] == t[i] && (j.key.Some? ==> t[i].key != j.key))
                  && (forall i | i in t && (j.key.None? || t[i].key != j.key) ::
                        i != id.value && i in t' && t'[i] == t[i]))
  {
    if j.key.Some? {
      var held := Holders(t, j.key.value);
      assert forall i :: i in held <==> i in t && t[i].key == j.key;
    }
  }

  /** A job without a key is always added, and nothing else changes. */
  lemma EnqueueUnkeyed(t: Jobs, j: Job)
    requires UniqueKeys(t) && j.key.None?
    ensures var (t', id) := Enqueued(t, j);
            UniqueKeys(t') && id.Some? && id.value !in t && t' == t[id.value := j]
  {
  }

  // ---- claim --------------------------------------------------------------

  predicate Due(j: Job, now: int) {
    j.status.Pending? && j.nextRunAt <= now
  }

  function DueJobs(t: Jobs, now: int): set<nat> {
    set i | i in t && Due(t[i], now)
  }

  function RunTimes(t: Jobs): map<nat, int> {
    map i | i in t :: t[i].nextRunAt
  }

  function DueList(t: Jobs, now: int): seq<nat> {
    Ordered(RunTimes(t), DueJobs(t, now))
  }

  lemma DueInOrder(t: Jobs, now: int)
    ensures var due := DueList(t, now);
            && |due| == |DueJobs(t, now)| && (forall i :: i in due <==> i in t && Due(t[i], now))
            && forall m, n | 0 <= m < n < |due| :: due[m] in t && due[n] in t && due[m] != due[n]
                 && Precedes(RunTimes(t), due[m], due[n])
  {
    hide Ordered, Due;
    var due := DueList(t, now);
    forall n | 0 <= n < |due| ensures due[n] in t { assert due[n] in due; }
  }

  /** SELECT ... WHERE pending AND next_run_at <= now ORDER BY next_run_at, id LIMIT limit. */
  function Claimable(t: Jobs, limit: nat, now: int): seq<nat> {
    var due := DueList(t, now);
    if |due| <= limit then due else due[..limit]
  }

  function Started(j: Job): Job {
    j.(status := Running, attempts := j.attempts + 1)
  }

  function Claimed(t: Jobs, ids: seq<nat>): Jobs {
    map i | i in t :: if i in ids then Started(t[i]) else t[i]
  }

  /** What the worker is handed for each claimed row. */
  function Tickets(t: Jobs, ids: seq<nat>): seq<(nat, Kind, Payload)>
    requires forall i | i in ids :: i in t
  {
    seq(|ids|, n requires 0 <= n < |ids| => (ids[n], t[ids[n]].kind, t[ids[n]].payload))
  }

  lemma ClaimableRows(t: Jobs, limit: nat, now: int)
    ensures var ids := Claimable(t, limit, now);
            && (forall i | i in ids :: i in t && Due(t[i], now))
            && (forall m, n | 0 <= m < n < |ids| :: ids[m] != ids[n])
  {
    hide DueList, Due;
    DueInOrder(t, now);
    var due := DueList(t, now);
    forall i | i in Claimable(t, limit, now) ensures i in t && Due(t[i], now) { assert i in due; }
  }

  lemma ClaimOneMore(t: Jobs, ids: seq<nat>, id: nat)
    requires id in t && id !in ids && forall i | i in ids :: i in t
    ensures Claimed(t, ids)[id := Started(t[id])] == Claimed(t, ids + [id])
    ensures forall i | i in ids + [id] :: i in t
    ensures Tickets(t, ids) + [(id, t[id].kind, t[id].payload)] == Tickets(t, ids + [id])
    ensures id in Claimed(t, ids) && Claimed(t, ids)[id] == t[id]
    ensures Started(t[id]).kind == t[id].kind && Started(t[id]).payload == t[id].payload
  {
  }

  lemma ClaimNothing(t: Jobs)
    ensures Claimed(t, []) == t && Tickets(t, []) == []
  {
  }

  method Claim(db: Database, limit: nat, now: int) returns (claimed: seq<(nat, Kind, Payload)>)
    modifies db`jobs
    ensures forall i | i in Claimable(old(db.jobs), limit, now) :: i in old(db.jobs)
    ensures db.jobs == Claimed(old(db.jobs), Claimable(old(db.jobs), limit, now))
    ensures claimed == Tickets(old(db.jobs), Claimable(old(db.jobs), limit, now))
  {
    hide *;
    ghost var before := db.jobs;
    var rows := Claimable(db.jobs, limit, now);
    ClaimableRows(before, limit, now);
    ClaimNothing(before);
    claimed := [];
    assert rows[..0] == [];
    for n := 0 to |rows|
      invariant db.jobs == Claimed(before, rows[..n])
      invariant claimed == Tickets(before, rows[..n])
    {
      var id := rows[n];
      assert id !in rows[..n] && rows[..n + 1] == rows[..n] + [id];
      ClaimOneMore(before, rows[..n], id);
      db.jobs := db.jobs[id := Started(db.jobs[id])];
      claimed := claimed + [(id, db.jobs[id].kind, db.jobs[id].payload)];
    }
    assert rows[..|rows|] == rows;
  }

  /**
   A claim takes the first `limit` due jobs: they are due and in strictly
   ascending (next_run_at, id) order, fewer than `limit` only when no due job
   is left behind, and every due job left behind comes after every job taken.
  */
  lemma ClaimableIsPrefix(t: Jobs, limit: nat, now: int)
    ensures var ids := Claimable(t, limit, now);
            && (forall i | i in ids :: i in t && Due(t[i], now))
            && (forall m, n | 0 <= m < n < |ids| :: ids[m] != ids[n] && Precedes(RunTimes(t), ids[m], ids[n]))
            && |ids| == (if |DueJobs(t, now)| <= limit then |DueJobs(t, now)| else limit)
            && (forall i, n | i in t && Due(t[i], now) && i !in ids && 0 <= n < |ids| ::
                  Precedes(RunTimes(t), ids[n], i))
            && (|ids| < limit ==> forall i | i in t && Due(t[i], now) :: i in ids)
  {
    hide Ordered, Precedes, Due;
    ClaimableRows(t, limit, now);
    DueInOrder(t, now);
    var due := DueList(t, now);
    var ids := Claimable(t, limit, now);
    assert forall x | 0 <= x < |ids| :: ids[x] == due[x];
    forall i, n | i in t && Due(t[i], now) && i !in ids && 0 <= n < |ids|
      ensures Precedes(RunTimes(t), ids[n], i)
    {
      LeftOut(due, ids, i, n);
      var m :| n < m < |due| && due[m] == i;
    }
  }

  /**
   What that does to the rows: every row stays but the taken ones, which were
   pending and due and are running with one more attempt.
  */
  lemma ClaimTakesDueRows(t: Jobs, limit: nat, now: int)
    ensures var t' := Claimed(t, Claimable(t, limit, now));
            && t'.Keys == t.Keys
            && (forall i | i in t ::
                  t'[i] != t[i] ==> t[i].status == Pending && t[i].nextRunAt <= now
                                    && t'[i] == t[i].(status := Running, attempts := t[i].attempts + 1))
  {
    ClaimableRows(t, limit, now);
    hide Claimable;
  }

  /** What the worker is handed: each taken row with its kind and payload, earliest first. */
  lemma ClaimHandsOut(t: Jobs, limit: nat, now: int)
    ensures var ids := Claimable(t, limit, now);
            && (forall i | i in ids :: i in t)
            && var claimed := Tickets(t, ids);
               && (forall i | i in t ::
                     (exists n :: 0 <= n < |claimed| && claimed[n].0 == i) <==> Claimed(t, ids)[i] != t[i])
               && (forall n | 0 <= n < |claimed| ::
                     && claimed[n].0 in t
                     && claimed[n].1 == t[claimed[n].0].kind && claimed[n].2 == t[claimed[n].0].payload)
               && (forall m, n | 0 <= m < n < |claimed| ::
                     t[claimed[m].0].nextRunAt < t[claimed[n].0].nextRunAt
                     || (t[claimed[m].0].nextRunAt == t[claimed[n].0].nextRunAt && claimed[m].0 < claimed[n].0))
  {
    ClaimableIsPrefix(t, limit, now);
    TakenRows(t, limit, now);
    hide Claimable, Claimed;
    var ids := Claimable(t, limit, now);
    var claimed := Tickets(t, ids);
    assert forall n | 0 <= n < |claimed| :: claimed[n].0 == ids[n];
    forall m, n | 0 <= m < n < |claimed|
      ensures t[claimed[m].0].nextRunAt < t[claimed[n].0].nextRunAt
              || (t[claimed[m].0].nextRunAt == t[claimed[n].0].nextRunAt && claimed[m].0 < claimed[n].0)
    {
      assert Precedes(RunTimes(t), ids[m], ids[n]);
    }
  }

  function Changed(t: Jobs, t': Jobs): (ids: set<nat>)
    requires t'.Keys == t.Keys
    ensures forall i :: i in ids <==> i in t && t'[i] != t[i]
  {
    set i | i in t && t'[i] != t[i]
  }

  lemma TakenRows(t: Jobs, limit: nat, now: int)
    ensures var ids := Claimable(t, limit, now);
            Claimed(t, ids).Keys == t.Keys && forall i | i in t :: Claimed(t, ids)[i] != t[i] <==> i in ids
  {
    hide Claimable;
  }

  /**
   Of two due rows the one with the earlier time, or the same time and the smaller
   id, is taken first, and a due row is left only when `limit` rows were taken.
  */
  lemma ClaimTakesTheFirst(t: Jobs, limit: nat, now: int, a: nat)
    requires a in t && t[a].status == Pending && t[a].nextRunAt <= now
    ensures var t' := Claimed(t, Claimable(t, limit, now));
            t'.Keys == t.Keys &&
            var taken := Changed(t, t');
            && |taken| <= limit
            && (a in taken || |taken| == limit)
            && forall b | b in taken && b != a && a !in taken ::
                 t[b].nextRunAt < t[a].nextRunAt || (t[b].nextRunAt == t[a].nextRunAt && b < a)
  {
    ClaimableIsPrefix(t, limit, now);
    TakenRows(t, limit, now);
    hide Claimable;
    var ids := Claimable(t, limit, now);
    var t' := Claimed(t, ids);
    hide Claimed;
    var taken := Changed(t, t');
    assert a in DueJobs(t, now);
    assert forall i :: i in taken <==> i in ids;
    DistinctCount(ids, taken);
    forall b | b in taken && b != a && a !in taken ensures Precedes(RunTimes(t), b, a) {
      var n :| 0 <= n < |ids| && ids[n] == b;
    }
  }

  // ---- finish, recovery, revival, discard ---------------------------------

  function Pow2(n: nat): (p: nat)
    ensures p > 0
  {
    if n == 0 then 1 else 2 * Pow2(n - 1)
  }

  function Backoff(attempts: nat): nat {
    if Pow2(attempts) < MAX_BACKOFF then Pow2(attempts) else MAX_BACKOFF
  }

  function Settled(j: Job, ok: bool, now: int): Job {
    if ok then j.(status := Done)
    else if j.attempts >= j.maxAttempts then j.(status := Dead)
    else j.(status := Pending, nextRunAt := now + Backoff(j.attempts))
  }

  function Finished(t: Jobs, id: nat, ok: bool, now: int): Jobs {
    if id in t then t[id := Settled(t[id], ok, now)] else t
  }

  lemma Pow2Grows(m: nat, n: nat)
    requires m <= n
    ensures Pow2(m) <= Pow2(n)
    decreases n
  {
    if m < n { Pow2Grows(m, n - 1); }
  }

  /** The waits before the retries, in seconds. */
  const WAITS: seq<nat> := [1, 2, 4, 8, 16, 32, 64, 128, 256, 512]

  lemma BackoffTable(n: nat)
    ensures Backoff(n) == if n < 10 then WAITS[n] else 600
  {
    if n < 10 {
      assert Pow2(0) == 1 && Pow2(1) == 2 && Pow2(2) == 4 && Pow2(3) == 8 && Pow2(4) == 16;
      assert Pow2(5) == 32 && Pow2(6) == 64 && Pow2(7) == 128 && Pow2(8) == 256 && Pow2(9) == 512;
    } else {
      assert Pow2(9) == 512 && Pow2(10) == 1024;
      Pow2Grows(10, n);
    }
  }

  /**
   What an outcome does: success is the end; so is a failure when the attempts are
   used up; any other failure is tried again after 2, 4, 8, ... 512 seconds, and
   after 600 from the tenth attempt on.  No other row changes.
  */
  lemma FailureIsRetried(t: Jobs, id: nat, ok: bool, now: int)
    requires id in t
    ensures var j, t' := t[id], Finished(t, id, ok, now);
            && t'.Keys == t.Keys && (forall i | i in t && i != id :: t'[i] == t[i])
            && (ok ==> t'[id] == j.(status := Done))
            && (!ok && j.attempts >= j.maxAttempts ==> t'[id] == j.(status := Dead))
            && (!ok && j.attempts < j.maxAttempts ==>
                  && t'[id] == j.(status := Pending, nextRunAt := t'[id].nextRunAt)
                  && t'[id].nextRunAt - now ==
                     (if j.attempts < 10 then [1, 2, 4, 8, 16, 32, 64, 128, 256, 512][j.attempts] else 600))
  {
    BackoffTable(t[id].attempts);
    hide Backoff;
  }

  method Finish(db: Database, id: nat, ok: bool, now: int)
    modifies db`jobs
    ensures db.jobs == Finished(old(db.jobs), id, ok, now)
  {
    if id !in db.jobs {
      return;
    }
    var job := db.jobs[id];
    if ok {
      job := job.(status := Done);
    } else if job.attempts >= job.maxAttempts {
      job := job.(status := Dead);
    } else {
      var backoff := if Pow2(job.attempts) < MAX_BACKOFF then Pow2(job.attempts) else MAX_BACKOFF;
      job := job.(status := Pending, nextRunAt := now + backoff);
    }
    db.jobs := db.jobs[id := job];
  }

  function Recovered(t: Jobs, now: int): Jobs {
    map i | i in t :: if t[i].status.Running? then t[i].(status := Pending, nextRunAt := now) else t[i]
  }

  /** One UPDATE statement, run at boot. */
  method ResetOrphanedJobs(db: Database, now: int) returns (count: nat)
    modifies db`jobs
    ensures db.jobs == Recovered(old(db.jobs), now)
    ensures count == |WithStatus(old(db.jobs), Running)|
    ensures db.jobs.Keys == old(db.jobs).Keys
    ensures forall i | i in db.jobs :: db.jobs[i] ==
              if old(db.jobs)[i].status != Running then old(db.jobs)[i]
              else old(db.jobs)[i].(status := Pending, nextRunAt := now)
  {
    count := |WithStatus(db.jobs, Running)|;
    db.jobs := Recovered(db.jobs, now);
  }

  function Revived(t: Jobs, now: int): Jobs {
    map i | i in t ::
      if t[i].status.Dead? then t[i].(status := Pending, attempts := 0, nextRunAt := now) else t[i]
  }

  function WithStatus(t: Jobs, s: JobStatus): (r: set<nat>)
    ensures forall i :: i in r <==> i in t && t[i].status == s
  {
    set i | i in t && t[i].status == s
  }

  method ReviveDead(db: Database, now: int) returns (revived: nat)
    modifies db`jobs
    ensures db.jobs == Revived(old(db.jobs), now)
    ensures revived == |WithStatus(old(db.jobs), Dead)|
    ensures db.jobs.Keys == old(db.jobs).Keys
    ensures forall i | i in db.jobs :: db.jobs[i] ==
              if old(db.jobs)[i].status != Dead then old(db.jobs)[i]
              else old(db.jobs)[i].(status := Pending, attempts := 0, nextRunAt := now)
  {
    ghost var before := db.jobs;
    var todo := WithStatus(db.jobs, Dead);
    revived := 0;
    while todo != {}
      invariant todo <= WithStatus(before, Dead) && revived + |todo| == |WithStatus(before, Dead)|
      invariant db.jobs.Keys == before.Keys
      invariant forall i | i in before && i in todo :: db.jobs[i] == before[i]
      invariant forall i | i in before && i !in todo :: db.jobs[i] == Revived(before, now)[i]
      decreases |todo|
    {
      var i :| i in todo;
      db.jobs := db.jobs[i := db.jobs[i].(status := Pending, attempts := 0, nextRunAt := now)];
      todo := todo - {i};
      revived := revived + 1;
    }
  }

  function Discarded(t: Jobs, tx: nat): Jobs {
    map i | i in t && ChargeOf(t[i].payload) != Some(tx) :: t[i]
  }

  method DiscardForTransaction(db: Database, tx: nat) returns (removed: nat)
    modifies db`jobs
    ensures db.jobs == Discarded(old(db.jobs), tx)
    ensures removed == |old(db.jobs)| - |db.jobs|
    ensures forall i :: i in db.jobs <==>
              && i in old(db.jobs)
              && !(old(db.jobs)[i].payload.ForCharge? && old(db.jobs)[i].payload.tx == tx)
              && !(old(db.jobs)[i].payload.ForReceipts? && old(db.jobs)[i].payload.tx == tx)
    ensures forall i | i in db.jobs :: db.jobs[i] == old(db.jobs)[i]
  {
    ghost var before := db.jobs;
    var rows := db.jobs.Keys;
    removed := 0;
    while rows != {}
      invariant rows <= db.jobs.Keys <= before.Keys
      invariant forall i | i in db.jobs :: db.jobs[i] == before[i]
      invariant forall i | i in before && i !in rows :: i in db.jobs <==> ChargeOf(before[i].payload) != Some(tx)
      invariant removed == |before| - |db.jobs|
      decreases |rows|
    {
      var i :| i in rows;
      if ChargeOf(db.jobs[i].payload) == Some(tx) {
        assert (db.jobs - {i}).Keys == db.jobs.Keys - {i};
        db.jobs := db.jobs - {i};
        removed := removed + 1;
      }
      rows := rows - {i};
    }
    assert db.jobs == Discarded(before, tx);
  }

  /** Claiming, finishing, recovering and reviving never add, remove or rename a row. */
  ghost predicate SameRows(t: Jobs, t': Jobs) {
    && t'.Keys == t.Keys
    && forall i | i in t ::
         && t'[i].key == t[i].key && t'[i].payload == t[i].payload && t'[i].kind == t[i].kind
         && t'[i].maxAttempts == t[i].maxAttempts
  }

  lemma WorkKeepsRows(t: Jobs, ids: seq<nat>, id: nat, ok: bool, now: int)
    ensures SameRows(t, Claimed(t, ids))
    ensures SameRows(t, Finished(t, id, ok, now))
    ensures SameRows(t, Recovered(t, now))
    ensures SameRows(t, Revived(t, now))
  {
  }
}
