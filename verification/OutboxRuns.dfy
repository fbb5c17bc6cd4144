/**
 Runs of the job queue: any interleaving of enqueues, claims, handler outcomes,
 crashes followed by a restart, revivals and discards.
*/
module OutboxRuns {
  import opened Schema
  import opened Ordering
  import opened Outbox

  datatype Event =
    | Enqueue(job: Job, now: int)
    | Claim(limit: nat, now: int)
    | Finish(id: nat, ok: bool, now: int)
    | Crash(now: int)
    | Revive(now: int)
    | Discard(tx: nat, now: int)

  ghost function Apply(t: Jobs, e: Event): Jobs
    requires UniqueKeys(t)
  {
    match e
    case Enqueue(j, _) => Enqueued(t, j).0
    case Claim(limit, now) => Claimed(t, Claimable(t, limit, now))
    case Finish(id, ok, now) => Finished(t, id, ok, now)
    case Crash(now) => Recovered(t, now)
    case Revive(now) => Revived(t, now)
    case Discard(tx, _) => Discarded(t, tx)
  }

  /** Only a running handler reports back, and no running job is discarded. */
  ghost predicate Allowed(t: Jobs, e: Event) {
    match e
    case Enqueue(j, _) => j.status.Pending? && j.attempts == 0
    case Finish(id, _, _) => id in t && t[id].status.Running?
    case Discard(tx, _) => forall i | i in t && t[i].status.Running? :: ChargeOf(t[i].payload) != Some(tx)
    case _ => true
  }

  lemma ApplyKeepsUniqueKeys(t: Jobs, e: Event)
    requires UniqueKeys(t) && Allowed(t, e)
    ensures UniqueKeys(Apply(t, e))
  {
    if e.Enqueue? && e.job.key.Some? { EnqueueEnsuresOnce(t, e.job); }
  }

  ghost predicate Valid(t: Jobs, es: seq<Event>)
    decreases |es|
  {
    && UniqueKeys(t)
    && (es != [] ==> Allowed(t, es[0]) && Valid(Apply(t, es[0]), es[1..]))
  }

  ghost function Exec(t: Jobs, es: seq<Event>): (r: Jobs)
    requires Valid(t, es)
    ensures UniqueKeys(r)
    decreases |es|
  {
    if es == [] then t else Exec(Apply(t, es[0]), es[1..])
  }

  /** Any allowed event can follow a valid run: the key constraint never stands in its way. */
  lemma {:induction false} ValidExtends(t: Jobs, es: seq<Event>, e: Event)
    requires Valid(t, es) && Allowed(Exec(t, es), e)
    ensures Valid(t, es + [e]) && Exec(t, es + [e]) == Apply(Exec(t, es), e)
    decreases |es|
  {
    hide Allowed, Apply;
    if es == [] {
      ApplyKeepsUniqueKeys(t, e);
      assert ([] + [e])[1..] == [];
      assert Valid(Apply(t, e), []);
    } else {
      ValidExtends(Apply(t, es[0]), es[1..], e);
      assert (es + [e])[1..] == es[1..] + [e];
    }
  }

  // ---- how often a handler starts ------------------------------------------

  ghost predicate Starts(t: Jobs, e: Event, id: nat) {
    e.Claim? && id in Claimable(t, e.limit, e.now)
  }

  ghost predicate Caught(t: Jobs, e: Event, id: nat) {
    e.Crash? && id in t && t[id].status.Running?
  }

  /** The row is replaced by a re-used key, revived, or discarded with its charge. */
  ghost predicate Disturbs(t: Jobs, e: Event, id: nat)
    requires id in t
  {
    match e
    case Enqueue(j, _) => j.key.Some? && t[id].key == j.key && !Live(t[id])
    case Revive(_) => t[id].status.Dead?
    case Discard(tx, _) => ChargeOf(t[id].payload) == Some(tx)
    case _ => false
  }

  ghost predicate Undisturbed(t: Jobs, es: seq<Event>, id: nat)
    requires Valid(t, es)
    decreases |es|
  {
    && id in t
    && (es != [] ==> !Disturbs(t, es[0], id) && Undisturbed(Apply(t, es[0]), es[1..], id))
  }

  ghost function StartCount(t: Jobs, es: seq<Event>, id: nat): nat
    requires Valid(t, es)
    decreases |es|
  {
    if es == [] then 0 else
      (if Starts(t, es[0], id) then 1 else 0) + StartCount(Apply(t, es[0]), es[1..], id)
  }

  ghost function CaughtCount(t: Jobs, es: seq<Event>, id: nat): nat
    requires Valid(t, es)
    decreases |es|
  {
    if es == [] then 0 else
      (if Caught(t, es[0], id) then 1 else 0) + CaughtCount(Apply(t, es[0]), es[1..], id)
  }

  function Budget(j: Job): nat {
    if j.maxAttempts == 0 then 1 else j.maxAttempts
  }

  ghost predicate WithinBudget(j: Job, caught: nat) {
    j.attempts <= Budget(j) + caught && (j.status.Pending? ==> j.attempts < Budget(j) + caught)
  }

  /** One event, seen from one row it does not disturb. */
  lemma EffectOnRow(t: Jobs, e: Event, id: nat)
    requires UniqueKeys(t) && Allowed(t, e) && id in t && !Disturbs(t, e, id)
    ensures var t' := Apply(t, e);
            && id in t'
            && t'[id] == (if Starts(t, e, id) then Started(t[id])
                          else if Caught(t, e, id) then t[id].(status := Pending, nextRunAt := e.now)
                          else if e.Finish? && e.id == id then Settled(t[id], e.ok, e.now)
                          else t[id])
            && (Starts(t, e, id) ==> Due(t[id], e.now))
  {
    if e.Claim? { ClaimableRows(t, e.limit, e.now); }
    if e.Enqueue? {
      if e.job.key.Some? && t[id].key == e.job.key {
        assert id in Holders(t, e.job.key.value);
        EnqueueEnsuresOnce(t, e.job);
      } else if e.job.key.Some? {
        EnqueueEnsuresOnce(t, e.job);
      }
    }
  }

  lemma {:induction false} BudgetHolds(t: Jobs, es: seq<Event>, id: nat, caught: nat)
    requires Valid(t, es) && Undisturbed(t, es, id) && WithinBudget(t[id], caught)
    ensures t[id].attempts + StartCount(t, es, id) <= Budget(t[id]) + caught + CaughtCount(t, es, id)
    decreases |es|
  {
    if es != [] {
      EffectOnRow(t, es[0], id);
      var more := if Caught(t, es[0], id) then 1 else 0;
      BudgetHolds(Apply(t, es[0]), es[1..], id, caught + more);
    }
  }

  /**
   Bounded work: however the queue runs, from the moment a job is enqueued (or
   revived) its handler starts at most `max_attempts` times, plus once for each
   crash that caught it running.
  */
  lemma StartsAreBounded(t: Jobs, es: seq<Event>, id: nat)
    requires Valid(t, es) && Undisturbed(t, es, id)
    requires t[id].status.Pending? && t[id].attempts == 0
    ensures StartCount(t, es, id) <= Budget(t[id]) + CaughtCount(t, es, id)
  {
    BudgetHolds(t, es, id, 0);
  }

  function CrashLoop(n: nat, now: int): seq<Event> {
    if n == 0 then [Claim(1, now)] else [Claim(1, now), Crash(now)] + CrashLoop(n - 1, now)
  }

  /** Claiming from a table of one due row. */
  lemma ClaimSingle(j: Job, now: int)
    requires Due(j, now)
    ensures UniqueKeys(map[1 := j])
    ensures Claimable(map[1 := j], 1, now) == [1]
    ensures Apply(map[1 := j], Claim(1, now)) == map[1 := Started(j)]
  {
    var t: Jobs := map[1 := j];
    assert DueJobs(t, now) == {1};
    var ids := Ordered(RunTimes(t), DueJobs(t, now));
    assert |ids| == 1 && ids[0] in ids;
  }

  lemma CrashedStart(j: Job, es: seq<Event>, now: int)
    requires Due(j, now)
    requires var again: Jobs := map[1 := Started(j).(status := Pending, nextRunAt := now)]; Valid(again, es)
    ensures var t: Jobs := map[1 := j];
            var again: Jobs := map[1 := Started(j).(status := Pending, nextRunAt := now)];
            var run := [Claim(1, now), Crash(now)] + es;
            && Valid(t, run)
            && StartCount(t, run, 1) == 1 + StartCount(again, es, 1)
            && CaughtCount(t, run, 1) == 1 + CaughtCount(again, es, 1)
  {
    ClaimSingle(j, now);
    var run := [Claim(1, now), Crash(now)] + es;
    var running: Jobs := map[1 := Started(j)];
    assert run[1..][0] == Crash(now) && run[1..][1..] == es;
    assert Apply(running, Crash(now)) == map[1 := Started(j).(status := Pending, nextRunAt := now)];
    assert Valid(running, run[1..]);
  }

  /** The bound is attained: recovery never compares attempts with the limit. */
  lemma {:induction false} BoundIsAttained(j: Job, n: nat, now: int)
    requires j.status.Pending? && j.nextRunAt <= now
    ensures var t: Jobs := map[1 := j];
            && Valid(t, CrashLoop(n, now))
            && StartCount(t, CrashLoop(n, now), 1) == n + 1
            && CaughtCount(t, CrashLoop(n, now), 1) == n
    decreases n
  {
    if n == 0 {
      ClaimSingle(j, now);
      assert CrashLoop(n, now)[1..] == [];
    } else {
      var again := Started(j).(status := Pending, nextRunAt := now);
      BoundIsAttained(again, n - 1, now);
      CrashedStart(j, CrashLoop(n - 1, now), now);
    }
  }

  // ---- termination ----------------------------------------------------------

  ghost function Sum(w: map<nat, nat>): nat
    decreases |w|
  {
    if w == map[] then 0 else
      var i :| i in w;
      assert (w - {i}).Keys == w.Keys - {i};
      w[i] + Sum(w - {i})
  }

  lemma {:induction false} SumSplit(w: map<nat, nat>, i: nat)
    requires i in w
    ensures Sum(w) == w[i] + Sum(w - {i})
    decreases |w|
  {
    var k :| k in w && Sum(w) == w[k] + Sum(w - {k});
    if k != i {
      assert (w - {k}).Keys == w.Keys - {k} && (w - {i}).Keys == w.Keys - {i};
      SumSplit(w - {k}, i);
      assert w - {k} - {i} == w - {i} - {k};
      SumSplit(w - {i}, k);
    }
  }

  lemma {:induction false} SumDrops(w: map<nat, nat>, w': map<nat, nat>, s: set<nat>)
    requires w.Keys == w'.Keys && s <= w.Keys
    requires forall i | i in w :: w'[i] + (if i in s then 1 else 0) <= w[i]
    ensures Sum(w') + |s| <= Sum(w)
    decreases |w|
  {
    if w == map[] {
      assert s == {};
    } else {
      var i :| i in w;
      SumSplit(w, i);
      SumSplit(w', i);
      assert (w - {i}).Keys == w.Keys - {i};
      SumDrops(w - {i}, w' - {i}, s - {i});
      if i in s { assert |s - {i}| == |s| - 1; } else { assert s - {i} == s; }
    }
  }

  /** How many more times the handler can start if nothing crashes. */
  function StartsLeft(j: Job): nat {
    match j.status
    case Pending => if j.attempts < j.maxAttempts then j.maxAttempts - j.attempts else 1
    case Running => if j.attempts < j.maxAttempts then j.maxAttempts - j.attempts else 0
    case _ => 0
  }

  function WorkLeft(j: Job): nat {
    2 * StartsLeft(j) + if j.status.Running? then 1 else 0
  }

  ghost function TotalWork(t: Jobs): nat {
    Sum(map i | i in t :: WorkLeft(t[i]))
  }

  ghost function TotalStarts(t: Jobs): nat {
    Sum(map i | i in t :: StartsLeft(t[i]))
  }

  /** A claim that takes something, or a handler reporting back. */
  ghost predicate Work(t: Jobs, e: Event) {
    || (e.Claim? && Claimable(t, e.limit, e.now) != [])
    || e.Finish?
  }

  ghost predicate OnlyWork(t: Jobs, es: seq<Event>)
    requires Valid(t, es)
    decreases |es|
  {
    es != [] ==> Work(t, es[0]) && OnlyWork(Apply(t, es[0]), es[1..])
  }

  lemma {:induction false} SumDropsExactly(w: map<nat, nat>, w': map<nat, nat>, s: set<nat>)
    requires w.Keys == w'.Keys && s <= w.Keys
    requires forall i | i in w :: w'[i] + (if i in s then 1 else 0) == w[i]
    ensures Sum(w') + |s| == Sum(w)
    decreases |w|
  {
    if w == map[] {
      assert s == {};
    } else {
      var i :| i in w;
      SumSplit(w, i);
      SumSplit(w', i);
      assert (w - {i}).Keys == w.Keys - {i};
      SumDropsExactly(w - {i}, w' - {i}, s - {i});
      if i in s { assert |s - {i}| == |s| - 1; } else { assert s - {i} == s; }
    }
  }

  /** A claim spends exactly one start, and one unit of work, for every job it takes. */
  lemma ClaimSpendsStarts(t: Jobs, limit: nat, now: int)
    ensures var t' := Claimed(t, Claimable(t, limit, now));
            && TotalStarts(t') + |Claimable(t, limit, now)| == TotalStarts(t)
            && TotalWork(t') + |Claimable(t, limit, now)| == TotalWork(t)
  {
    ClaimableRows(t, limit, now);
    var ids := Claimable(t, limit, now);
    var t' := Claimed(t, ids);
    var s := set i | i in ids;
    DistinctCount(ids, s);
    SumDropsExactly(map i | i in t :: WorkLeft(t[i]), map i | i in t' :: WorkLeft(t'[i]), s);
    SumDropsExactly(map i | i in t :: StartsLeft(t[i]), map i | i in t' :: StartsLeft(t'[i]), s);
  }

  /** A handler reporting back earns no start back, and is work done. */
  lemma FinishSpendsWork(t: Jobs, id: nat, ok: bool, now: int)
    requires id in t && t[id].status.Running?
    ensures var t' := Finished(t, id, ok, now);
            TotalStarts(t') <= TotalStarts(t) && TotalWork(t') < TotalWork(t)
  {
    var t' := Finished(t, id, ok, now);
    SumDrops(map i | i in t :: WorkLeft(t[i]), map i | i in t' :: WorkLeft(t'[i]), {id});
    SumDrops(map i | i in t :: StartsLeft(t[i]), map i | i in t' :: StartsLeft(t'[i]), {});
  }

  /**
   Termination: with no crash, revival or new job, a run of claims and handler
   outcomes is no longer than the work the table holds.
  */
  lemma {:induction false} WorkTerminates(t: Jobs, es: seq<Event>)
    requires Valid(t, es) && OnlyWork(t, es)
    ensures |es| + TotalWork(Exec(t, es)) <= TotalWork(t)
    decreases |es|
  {
    if es != [] {
      match es[0] {
        case Claim(limit, now) => ClaimSpendsStarts(t, limit, now);
        case Finish(id, ok, now) => FinishSpendsWork(t, id, ok, now);
      }
      WorkTerminates(Apply(t, es[0]), es[1..]);
    }
  }

  ghost predicate AllSettled(t: Jobs) {
    forall i | i in t :: t[i].status.Done? || t[i].status.Dead?
  }

  /** Such a run can go on, with any job that is not yet done or dead. */
  lemma LiveJobHasWork(t: Jobs, i: nat) returns (e: Event)
    requires i in t && Live(t[i])
    ensures Allowed(t, e) && Work(t, e)
  {
    if t[i].status.Running? {
      e := Finish(i, true, 0);
    } else {
      e := Claim(1, t[i].nextRunAt);
      ClaimableIsPrefix(t, 1, e.now);
      assert i in DueJobs(t, e.now);
    }
  }

  lemma SettledHasNoWork(t: Jobs, e: Event)
    requires AllSettled(t) && Allowed(t, e)
    ensures !Work(t, e)
  {
    if e.Claim? {
      assert DueJobs(t, e.now) == {};
    }
  }

  /** So a run of work steps that cannot go on has left every job done or dead. */
  lemma WorkRemainsUntilSettled(t: Jobs)
    requires UniqueKeys(t)
    ensures AllSettled(t) <==> !exists e :: Allowed(t, e) && Work(t, e)
  {
    if !AllSettled(t) {
      var i :| i in t && Live(t[i]);
      var e := LiveJobHasWork(t, i);
      assert Allowed(t, e) && Work(t, e);
    } else {
      forall e | Allowed(t, e) ensures !Work(t, e) { SettledHasNoWork(t, e); }
    }
  }

  // ---- backoff --------------------------------------------------------------

  function TwoTo(n: nat): (p: nat)
    ensures p > 0
  {
    if n == 0 then 1 else 2 * TwoTo(n - 1)
  }

  /** The seconds a job of `n` attempts spends waiting before it dies, in closed form. */
  function Lifetime(n: nat): nat {
    if n == 0 then 0 else if n <= 10 then TwoTo(n) - 2 else 1022 + 600 * (n - 10)
  }

  /** A job of the default eight attempts waits 254 seconds in all. */
  lemma LifetimeTable(n: nat)
    requires 1 <= n
    ensures n <= 10 ==> Lifetime(n) == [0, 2, 6, 14, 30, 62, 126, 254, 510, 1022][n - 1]
    ensures n > 10 ==> Lifetime(n) == 1022 + 600 * (n - 10)
  {
    assert TwoTo(1) == 2 && TwoTo(2) == 4 && TwoTo(3) == 8 && TwoTo(4) == 16 && TwoTo(5) == 32;
    assert TwoTo(6) == 64 && TwoTo(7) == 128 && TwoTo(8) == 256 && TwoTo(9) == 512 && TwoTo(10) == 1024;
  }

  lemma {:induction false} LifetimeIsTotalBackoff(n: nat)
    ensures Lifetime(n + 1) == TotalBackoff(n)
    decreases n
  {
    LifetimeTable(n + 1);
    BackoffTable(n);
    if n > 0 {
      LifetimeIsTotalBackoff(n - 1);
      LifetimeTable(n);
    }
  }

  /** Backoff(1) + ... + Backoff(n). */
  function TotalBackoff(n: nat): nat {
    if n == 0 then 0 else TotalBackoff(n - 1) + Backoff(n)
  }

  lemma {:induction false} TotalBackoffGrows(m: nat, n: nat)
    requires m <= n
    ensures TotalBackoff(m) <= TotalBackoff(n)
    decreases n
  {
    if m < n { TotalBackoffGrows(m, n - 1); }
  }

  ghost predicate Clocked(clock: int, es: seq<Event>)
    decreases |es|
  {
    es != [] ==> clock <= es[0].now && Clocked(es[0].now, es[1..])
  }

  function EndTime(clock: int, es: seq<Event>): int
    decreases |es|
  {
    if es == [] then clock else EndTime(es[0].now, es[1..])
  }

  function FailuresBeforeDeath(j: Job): nat {
    if j.maxAttempts == 0 then 0 else j.maxAttempts - 1
  }

  /** The waiting that a job first due at `due` has already been through. */
  ghost predicate Waited(j: Job, due: int, clock: int) {
    match j.status
    case Pending => j.nextRunAt >= due + TotalBackoff(j.attempts)
    case Running => j.attempts > 0 && clock >= due + TotalBackoff(j.attempts - 1)
    case Done => true
    case Dead => clock >= due + TotalBackoff(FailuresBeforeDeath(j))
  }

  lemma WaitedOn(j: Job, ok: bool, due: int, clock: int, now: int)
    requires clock <= now && Waited(j, due, clock)
    ensures Waited(j, due, now)
    ensures Due(j, now) ==> Waited(Started(j), due, now)
    ensures j.status.Running? ==> Waited(Settled(j, ok, now), due, now)
  {
    if j.status.Running? && j.attempts >= j.maxAttempts {
      TotalBackoffGrows(FailuresBeforeDeath(j), j.attempts - 1);
    }
  }

  lemma WaitingStep(t: Jobs, e: Event, id: nat, due: int, clock: int)
    requires UniqueKeys(t) && Allowed(t, e) && id in t && !Disturbs(t, e, id) && !Caught(t, e, id)
    requires clock <= e.now && Waited(t[id], due, clock)
    ensures id in Apply(t, e) && Apply(t, e)[id].maxAttempts == t[id].maxAttempts
    ensures Waited(Apply(t, e)[id], due, e.now)
  {
    hide Apply, Pow2, TotalBackoff, Waited;
    EffectOnRow(t, e, id);
    WaitedOn(t[id], e.Finish? && e.ok, due, clock, e.now);
  }

  lemma {:induction false} WaitingHolds(t: Jobs, es: seq<Event>, id: nat, due: int, clock: int)
    requires Valid(t, es) && Undisturbed(t, es, id) && CaughtCount(t, es, id) == 0
    requires Clocked(clock, es) && Waited(t[id], due, clock)
    ensures id in Exec(t, es) && Exec(t, es)[id].maxAttempts == t[id].maxAttempts
    ensures Waited(Exec(t, es)[id], due, EndTime(clock, es))
    decreases |es|
  {
    if es != [] {
      WaitingStep(t, es[0], id, due, clock);
      WaitingHolds(Apply(t, es[0]), es[1..], id, due, es[0].now);
    }
  }

  /**
   A job that no crash interrupts is not dead before every one of its
   `max_attempts - 1` retries has waited out its backoff: 2^n - 2 seconds for n
   attempts up to ten, and 600 more for each one beyond.
  */
  lemma DeathTakesItsTime(t: Jobs, es: seq<Event>, id: nat, clock: int)
    requires Valid(t, es) && Undisturbed(t, es, id) && CaughtCount(t, es, id) == 0
    requires Clocked(clock, es) && t[id].status.Pending? && t[id].attempts == 0
    ensures id in Exec(t, es)
    ensures Exec(t, es)[id].status.Dead? ==>
              EndTime(clock, es) >= t[id].nextRunAt + Lifetime(t[id].maxAttempts)
  {
    assert id in t;
    hide *;
    FreshWaited(t[id], clock);
    WaitingHolds(t, es, id, t[id].nextRunAt, clock);
    if Exec(t, es)[id].status.Dead? { DeadWaited(Exec(t, es)[id], t[id].nextRunAt, EndTime(clock, es)); }
  }

  lemma FreshWaited(j: Job, clock: int)
    requires j.status.Pending? && j.attempts == 0
    ensures Waited(j, j.nextRunAt, clock)
  {
  }

  lemma DeadWaited(j: Job, due: int, clock: int)
    requires j.status.Dead? && Waited(j, due, clock)
    ensures clock >= due + Lifetime(j.maxAttempts)
  {
    LifetimeIsTotalBackoff(FailuresBeforeDeath(j));
    hide TotalBackoff;
  }

  /** One attempt, claimed at `at` and failing at once. */
  function Attempt(at: int): seq<Event> {
    [Claim(1, at), Finish(1, false, at)]
  }

  /** Every attempt is made the moment it is due and fails at once. */
  function FailingRun(attempts: nat, maxAttempts: nat, at: int): seq<Event>
    decreases maxAttempts - attempts
  {
    if attempts + 1 >= maxAttempts then Attempt(at)
    else Attempt(at) + FailingRun(attempts + 1, maxAttempts, at + Backoff(attempts + 1))
  }

  lemma EmptyRun(t: Jobs)
    requires UniqueKeys(t)
    ensures Valid(t, []) && Exec(t, []) == t
  {
  }

  lemma AttemptThen(j: Job, es: seq<Event>)
    requires j.status.Pending?
    requires Valid(map[1 := Settled(Started(j), false, j.nextRunAt)], es)
    ensures var run := Attempt(j.nextRunAt) + es;
            && Valid(map[1 := j], run)
            && Exec(map[1 := j], run) == Exec(map[1 := Settled(Started(j), false, j.nextRunAt)], es)
            && EndTime(j.nextRunAt, run) == EndTime(j.nextRunAt, es)
  {
    var at := j.nextRunAt;
    var run := Attempt(at) + es;
    ClaimSingle(j, at);
    var running: Jobs := map[1 := Started(j)];
    assert run[1..][0] == Finish(1, false, at) && run[1..][1..] == es;
    assert Apply(running, Finish(1, false, at)) == map[1 := Settled(Started(j), false, at)];
    assert Valid(running, run[1..]);
  }

  lemma {:induction false} FailingRunEnds(j: Job)
    requires j.status.Pending? && j.attempts < j.maxAttempts
    ensures var es := FailingRun(j.attempts, j.maxAttempts, j.nextRunAt);
            var end := EndTime(j.nextRunAt, es);
            && Valid(map[1 := j], es)
            && Exec(map[1 := j], es)
               == map[1 := j.(status := Dead, attempts := j.maxAttempts, nextRunAt := end)]
            && end + TotalBackoff(j.attempts) == j.nextRunAt + TotalBackoff(j.maxAttempts - 1)
    decreases j.maxAttempts - j.attempts
  {
    hide Valid, Exec, Pow2, Backoff;
    var at := j.nextRunAt;
    var failed := Settled(Started(j), false, at);
    if j.attempts + 1 < j.maxAttempts {
      var rest := FailingRun(j.attempts + 1, j.maxAttempts, failed.nextRunAt);
      FailingRunEnds(failed);
      AttemptThen(j, rest);
      assert rest != [] && EndTime(at, rest) == EndTime(failed.nextRunAt, rest);
    } else {
      EmptyRun(map[1 := failed]);
      AttemptThen(j, []);
      assert Attempt(at) + [] == Attempt(at);
    }
  }

  /** Then death comes exactly when those seconds are over: of a fresh job, all of them. */
  lemma FailingRunDies(j: Job)
    requires j.status.Pending? && j.attempts < j.maxAttempts
    ensures var es := FailingRun(j.attempts, j.maxAttempts, j.nextRunAt);
            var end := EndTime(j.nextRunAt, es);
            && Valid(map[1 := j], es)
            && Exec(map[1 := j], es)
               == map[1 := j.(status := Dead, attempts := j.maxAttempts, nextRunAt := end)]
            && end + Lifetime(j.attempts + 1) == j.nextRunAt + Lifetime(j.maxAttempts)
  {
    hide *;
    FailingRunEnds(j);
    LifetimeIsTotalBackoff(j.attempts);
    LifetimeIsTotalBackoff(j.maxAttempts - 1);
  }

  // ---- order ----------------------------------------------------------------

  /** Both rows untouched and `first` due earlier, or `first` already started. */
  ghost predicate KeptOrder(t: Jobs, first: nat, second: nat) {
    && first in t && second in t
    && (t[first].attempts > 0 ||
        (&& t[first].status.Pending? && t[second].status.Pending?
         && t[second].attempts == 0 && t[first].nextRunAt < t[second].nextRunAt))
  }

  /**
   Of two fresh jobs, the one due earlier is claimed no later than the other,
   in every run.  With the 20 second stagger of the daily tasks this is why the
   sweep cannot beat the digest through the queue.
  */
  lemma {:induction false} EarlierDueStartsNoLater(t: Jobs, es: seq<Event>, first: nat, second: nat)
    requires Valid(t, es) && Undisturbed(t, es, first) && Undisturbed(t, es, second)
    requires KeptOrder(t, first, second)
    ensures KeptOrder(Exec(t, es), first, second)
    ensures Exec(t, es)[second].attempts > 0 ==> Exec(t, es)[first].attempts > 0
    decreases |es|
  {
    if es != [] {
      EffectOnRow(t, es[0], first);
      EffectOnRow(t, es[0], second);
      if es[0].Claim? { ClaimableIsPrefix(t, es[0].limit, es[0].now); }
      EarlierDueStartsNoLater(Apply(t, es[0]), es[1..], first, second);
    }
  }
}
