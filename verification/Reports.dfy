/**
 Whose job a handler's report settles.  `_finish` (app/services/jobs.py) goes by
 row id, and SQLite hands freed ids out again, so the state here also says which
 job a row holds and which handlers are in flight for which job.
*/
module Reports {
  import opened Schema
  import opened Ordering
  import opened Outbox

  /** A handler in flight: the row and the job it was claimed for, and the claim that handed it out. */
  datatype Ticket = Ticket(id: nat, job: nat, claim: nat)

  /** `job[i]` is the number of the job in row `i`; every inserted job gets the number `next`. */
  datatype Desk = Desk(t: Jobs, job: map<nat, nat>, next: nat, claims: nat, tickets: set<Ticket>)

  datatype Move =
    | Add(j: Job)
    | Take(limit: nat, now: int)
    | Report(ticket: Ticket, ok: bool, now: int)
    | Restart(now: int)
    | Revive(now: int)
    | Drop(tx: nat)

  const OPENING := Desk(map[], map[], 0, 0, {})

  /** New jobs are pending and untried; only a handler in flight reports.  Any charge's jobs may be dropped. */
  predicate Possible(w: Desk, m: Move) {
    match m
    case Add(j) => j.status.Pending? && j.attempts == 0
    case Report(k, _, _) => k in w.tickets
    case _ => true
  }

  /** The row a move inserts, if any. */
  ghost function Inserted(w: Desk, m: Move): Option<nat>
    requires UniqueKeys(w.t)
  {
    if m.Add? then Enqueued(w.t, m.j).1 else None
  }

  /** The numbers of the jobs in `t'`: the old ones, and the next one for an inserted row. */
  function Numbers(job: map<nat, nat>, next: nat, t': Jobs, added: Option<nat>): map<nat, nat>
    requires forall i | i in t' && added != Some(i) :: i in job
  {
    map i | i in t' :: if added == Some(i) then next else job[i]
  }

  function Handed(w: Desk, ids: seq<nat>): set<Ticket>
    requires w.job.Keys == w.t.Keys
  {
    set i | i in ids && i in w.t :: Ticket(i, w.job[i], w.claims)
  }

  /** The rows an enqueue leaves are old ones and the one it inserts. */
  lemma EnqueuedRows(t: Jobs, j: Job)
    requires UniqueKeys(t) && j.status.Pending?
    ensures var (t', added) := Enqueued(t, j);
            && UniqueKeys(t')
            && (forall i | i in t' && added != Some(i) :: i in t && t'[i] == t[i])
            && (forall i | i in t && i !in t' :: !Live(t[i]))
            && (forall i | i in t && added == Some(i) :: !Live(t[i]))
            && (added.Some? ==> added.value in t' && t'[added.value] == j)
  {
    if j.key.Some? { EnqueueEnsuresOnce(t, j); } else { EnqueueUnkeyed(t, j); }
  }

  ghost predicate Moved(w: Desk, m: Move, w': Desk) {
    && UniqueKeys(w.t) && w.job.Keys == w.t.Keys && Possible(w, m)
    && match m
       case Add(j) =>
         var (t', added) := Enqueued(w.t, j);
         && (forall i | i in t' && added != Some(i) :: i in w.job)
         && w' == w.(t := t', job := Numbers(w.job, w.next, t', added), next := w.next + 1)
       case Take(limit, now) =>
         var ids := Claimable(w.t, limit, now);
         w' == w.(t := Claimed(w.t, ids), claims := w.claims + 1, tickets := w.tickets + Handed(w, ids))
       case Report(k, ok, now) => w' == w.(t := Finished(w.t, k.id, ok, now), tickets := w.tickets - {k})
       case Restart(now) => w' == w.(t := Recovered(w.t, now), tickets := {})
       case Revive(now) => w' == w.(t := Revived(w.t, now))
       case Drop(tx) =>
         w' == w.(t := Discarded(w.t, tx), job := Numbers(w.job, w.next, Discarded(w.t, tx), None))
  }

  /** Every possible move can be made: the side condition of `Add` always holds. */
  lemma MovesAreMade(w: Desk, m: Move) returns (w': Desk)
    requires UniqueKeys(w.t) && w.job.Keys == w.t.Keys && Possible(w, m)
    ensures Moved(w, m, w')
  {
    match m
    case Add(j) =>
      EnqueuedRows(w.t, j);
      var (t', added) := Enqueued(w.t, j);
      w' := w.(t := t', job := Numbers(w.job, w.next, t', added), next := w.next + 1);
    case Take(limit, now) =>
      var ids := Claimable(w.t, limit, now);
      w' := w.(t := Claimed(w.t, ids), claims := w.claims + 1, tickets := w.tickets + Handed(w, ids));
    case Report(k, ok, now) => w' := w.(t := Finished(w.t, k.id, ok, now), tickets := w.tickets - {k});
    case Restart(now) => w' := w.(t := Recovered(w.t, now), tickets := {});
    case Revive(now) => w' := w.(t := Revived(w.t, now));
    case Drop(tx) => w' := w.(t := Discarded(w.t, tx), job := Numbers(w.job, w.next, Discarded(w.t, tx), None));
  }

  // ---- where a report goes --------------------------------------------------------------------

  /** The row of the ticket still holds the job the ticket was handed out for. */
  predicate Held(w: Desk, k: Ticket) {
    k.id in w.t && k.id in w.job && w.job[k.id] == k.job
  }

  /**
   A report changes the row of its ticket and no other: its own job's row while
   that is held, nothing when the row is gone, and another job's otherwise.
  */
  lemma ReportGoesToTheRow(w: Desk, k: Ticket, ok: bool, now: int, w': Desk)
    requires Moved(w, Report(k, ok, now), w')
    ensures w'.job == w.job
    ensures k.id !in w.t ==> w'.t == w.t
    ensures k.id in w.t ==> w'.t == w.t[k.id := Settled(w.t[k.id], ok, now)]
    ensures w'.t != w.t <==> k.id in w.t && Settled(w.t[k.id], ok, now) != w.t[k.id]
    ensures k.id in w.t && !Held(w, k) ==> w.job[k.id] != k.job
  {
    hide Settled;
    if k.id in w.t && Settled(w.t[k.id], ok, now) != w.t[k.id] {
      assert w'.t[k.id] != w.t[k.id];
    }
  }

  // ---- the books ------------------------------------------------------------------------------

  /** Job numbers are never given twice. */
  ghost predicate Booked(w: Desk) {
    && UniqueKeys(w.t) && w.job.Keys == w.t.Keys
    && (forall i | i in w.job :: w.job[i] < w.next)
    && (forall k | k in w.tickets :: k.job < w.next)
    && (forall i, j | i in w.job && j in w.job && w.job[i] == w.job[j] :: i == j)
  }

  /** Every handler in flight has its job, running; every running job has one handler. */
  ghost predicate Staffed(w: Desk) {
    && (forall k | k in w.tickets :: Held(w, k) && w.t[k.id].status.Running?)
    && (forall i | i in w.t && w.t[i].status.Running? :: exists k | k in w.tickets :: k.id == i)
    && (forall a, b | a in w.tickets && b in w.tickets && a.id == b.id :: a == b)
  }

  /** The move discards no running job. */
  predicate Careful(w: Desk, m: Move) {
    m.Drop? ==> forall i | i in w.t && w.t[i].status.Running? :: ChargeOf(w.t[i].payload) != Some(m.tx)
  }

  /** Work on the rows that are there keeps the books. */
  lemma SameRowsBooked(w: Desk, w': Desk)
    requires Booked(w) && SameRows(w.t, w'.t) && w'.job == w.job && w'.next == w.next
    requires forall k | k in w'.tickets :: k.job < w.next
    ensures Booked(w')
  {
  }

  lemma AddBooked(w: Desk, j: Job, w': Desk)
    requires Booked(w) && Moved(w, Add(j), w')
    ensures Booked(w')
  {
    hide Enqueued, UniqueKeys, Live;
    BookedKeys(w);
    EnqueuedRows(w.t, j);
  }

  lemma DropBooked(w: Desk, tx: nat, w': Desk)
    requires Booked(w) && Moved(w, Drop(tx), w')
    ensures Booked(w')
  {
  }

  lemma TakeBooked(w: Desk, limit: nat, now: int, w': Desk)
    requires Booked(w) && Moved(w, Take(limit, now), w')
    ensures Booked(w')
  {
    hide Claimable, Claimed, SameRows, UniqueKeys;
    WorkKeepsRows(w.t, Claimable(w.t, limit, now), 0, true, now);
    SameRowsBooked(w, w');
  }

  lemma BookedStays(w: Desk, m: Move, w': Desk)
    requires Booked(w) && Moved(w, m, w')
    ensures Booked(w')
  {
    match m
    case Add(j) => AddBooked(w, j, w');
    case Take(limit, now) => TakeBooked(w, limit, now, w');
    case Drop(tx) => DropBooked(w, tx, w');
    case _ => WorkBooked(w, m, w');
  }

  lemma WorkBooked(w: Desk, m: Move, w': Desk)
    requires Booked(w) && Moved(w, m, w')
    ensures m.Report? || m.Restart? || m.Revive? ==> Booked(w')
  {
    hide Claimable, Claimed, Enqueued, Discarded, Finished, Recovered, Revived, SameRows, UniqueKeys;
    if m.Report? || m.Restart? || m.Revive? {
      WorkKeepsRows(w.t, [], if m.Report? then m.ticket.id else 0, m.Report? && m.ok, m.now);
      SameRowsBooked(w, w');
    }
  }

  lemma BookedKeys(w: Desk)
    requires Booked(w)
    ensures UniqueKeys(w.t) && w.job.Keys == w.t.Keys
  {
  }

  // ---- careful moves ----------------------------------------------------------------------------

  lemma AddStaffed(w: Desk, j: Job, w': Desk)
    requires Booked(w) && Staffed(w) && Moved(w, Add(j), w')
    ensures Staffed(w')
  {
    hide Enqueued;
    EnqueuedRows(w.t, j);
    forall k | k in w'.tickets ensures Held(w', k) && w'.t[k.id].status.Running? {
      assert Held(w, k) && Live(w.t[k.id]);
    }
  }

  lemma TakeStaffed(w: Desk, limit: nat, now: int, w': Desk)
    requires Booked(w) && Staffed(w) && Moved(w, Take(limit, now), w')
    ensures Staffed(w')
  {
    hide Claimable;
    var ids := Claimable(w.t, limit, now);
    ClaimableRows(w.t, limit, now);
    forall i | i in w'.t && w'.t[i].status.Running? ensures exists k | k in w'.tickets :: k.id == i {
      if i in ids {
        assert Ticket(i, w.job[i], w.claims) in Handed(w, ids);
      } else {
        var k :| k in w.tickets && k.id == i;
        assert k in w'.tickets;
      }
    }
  }

  lemma ReportStaffed(w: Desk, k: Ticket, ok: bool, now: int, w': Desk)
    requires Booked(w) && Staffed(w) && Moved(w, Report(k, ok, now), w')
    ensures Staffed(w')
  {
    forall i | i in w'.t && w'.t[i].status.Running? ensures exists x | x in w'.tickets :: x.id == i {
      assert i != k.id && w'.t[i] == w.t[i];
      var x :| x in w.tickets && x.id == i;
      assert x in w'.tickets;
    }
  }

  lemma StaffedStays(w: Desk, m: Move, w': Desk)
    requires Booked(w) && Staffed(w) && Moved(w, m, w') && Careful(w, m)
    ensures Staffed(w')
  {
    match m
    case Add(j) => AddStaffed(w, j, w');
    case Take(limit, now) => TakeStaffed(w, limit, now, w');
    case Report(k, ok, now) => ReportStaffed(w, k, ok, now, w');
    case _ => hide Enqueued, Claimable, Claimed, Finished, Booked; QuietStaffed(w, m, w');
  }

  lemma QuietStaffed(w: Desk, m: Move, w': Desk)
    requires Booked(w) && Staffed(w) && Moved(w, m, w') && Careful(w, m)
    ensures m.Restart? || m.Revive? || m.Drop? ==> Staffed(w')
  {
    hide Enqueued, Claimable, Claimed, Finished;
  }

  /** A discard that hits no job of a handler in flight hits no running job. */
  lemma HeldMeansCareful(w: Desk, m: Move, w': Desk)
    requires Staffed(w) && Moved(w, m, w') && forall k | k in w'.tickets :: Held(w', k)
    ensures Careful(w, m)
  {
    if m.Drop? {
      forall i | i in w.t && w.t[i].status.Running? ensures ChargeOf(w.t[i].payload) != Some(m.tx) {
        var k :| k in w.tickets && k.id == i;
        assert Held(w', k);
      }
    }
  }

  // ---- every run ----------------------------------------------------------------------------------

  datatype Shift = Shift(desks: seq<Desk>, moves: seq<Move>)

  ghost predicate IsShift(s: Shift) {
    && |s.desks| == |s.moves| + 1 && s.desks[0] == OPENING
    && forall n | 0 <= n < |s.moves| :: Moved(s.desks[n], s.moves[n], s.desks[n + 1])
  }

  lemma {:induction false} AlwaysBooked(s: Shift, n: nat)
    requires IsShift(s) && n < |s.desks|
    ensures Booked(s.desks[n])
    decreases n
  {
    hide Moved, Booked;
    if n == 0 { OpeningIsBooked(); } else {
      AlwaysBooked(s, n - 1);
      BookedStays(s.desks[n - 1], s.moves[n - 1], s.desks[n]);
    }
  }

  lemma OpeningIsBooked()
    ensures Booked(OPENING) && Staffed(OPENING)
  {
  }

  lemma {:induction false} CarefulSoFar(s: Shift, n: nat)
    requires IsShift(s) && n < |s.desks| && forall m | 0 <= m < n :: Careful(s.desks[m], s.moves[m])
    ensures Staffed(s.desks[n])
    decreases n
  {
    hide Moved, Booked, Staffed, Careful;
    if n == 0 { OpeningIsBooked(); } else {
      CarefulSoFar(s, n - 1);
      AlwaysBooked(s, n - 1);
      StaffedStays(s.desks[n - 1], s.moves[n - 1], s.desks[n]);
    }
  }

  ghost predicate AllHeld(w: Desk) {
    forall k | k in w.tickets :: Held(w, k)
  }

  lemma {:induction false} HeldSoFar(s: Shift, n: nat)
    requires IsShift(s) && n < |s.desks| && forall m | 0 <= m <= n :: AllHeld(s.desks[m])
    ensures forall m | 0 <= m < n :: Careful(s.desks[m], s.moves[m])
    decreases n
  {
    hide Moved, Booked, Staffed, Careful, Held;
    if n > 0 {
      HeldSoFar(s, n - 1);
      CarefulSoFar(s, n - 1);
      HeldMeansCareful(s.desks[n - 1], s.moves[n - 1], s.desks[n]);
    }
  }

  /**
   Exactly when reports reach their jobs.  In every run, every handler in flight
   has the job it was handed at every moment, so that its report settles that job,
   if and only if no discard of the run hits a running job.
  */
  lemma ReportsReachTheirJobs(s: Shift)
    requires IsShift(s)
    ensures (forall n | 0 <= n < |s.desks| :: AllHeld(s.desks[n]))
            <==> forall n | 0 <= n < |s.moves| :: Careful(s.desks[n], s.moves[n])
  {
    hide Moved, Careful;
    if forall n | 0 <= n < |s.moves| :: Careful(s.desks[n], s.moves[n]) {
      forall n | 0 <= n < |s.desks| ensures AllHeld(s.desks[n]) { CarefulSoFar(s, n); }
    }
    if forall n | 0 <= n < |s.desks| :: AllHeld(s.desks[n]) {
      HeldSoFar(s, |s.moves|);
    }
  }

  // ---- after a discard of a running job -------------------------------------------------------------

  lemma LostStep(w: Desk, m: Move, w': Desk, k: Ticket)
    requires Booked(w) && Moved(w, m, w') && k.job < w.next && !Held(w, k)
    ensures k.job < w'.next && !Held(w', k)
    ensures k.id !in w.t ==> (k.id in w'.t <==> Inserted(w, m) == Some(k.id))
  {
    hide Claimable, Live;
    if m.Add? {
      EnqueuedRows(w.t, m.j);
      hide Enqueued;
    }
  }

  /** A handler that has lost its job never gets it back. */
  lemma {:induction false} LostForGood(s: Shift, n: nat, m: nat, k: Ticket)
    requires IsShift(s) && n <= m < |s.desks| && k.job < s.desks[n].next && !Held(s.desks[n], k)
    ensures k.job < s.desks[m].next && !Held(s.desks[m], k)
    decreases m
  {
    hide Moved, Booked, Held, Inserted;
    if n < m {
      LostForGood(s, n, m - 1, k);
      AlwaysBooked(s, m - 1);
      LostStep(s.desks[m - 1], s.moves[m - 1], s.desks[m], k);
    }
  }

  /** Since move `p` inserted a job there, the row has been in use. */
  ghost predicate TakenSince(s: Shift, p: nat, m: nat, id: nat)
    requires IsShift(s) && p < m < |s.desks|
  {
    UniqueKeys(s.desks[p].t) && Inserted(s.desks[p], s.moves[p]) == Some(id)
    && forall q | p < q <= m :: id in s.desks[q].t
  }

  /** A free row is in use again exactly if an enqueue was given its id and no discard freed it since. */
  lemma {:induction false} FreedRow(s: Shift, n: nat, m: nat, k: Ticket)
    requires IsShift(s) && n <= m < |s.desks| && k.id !in s.desks[n].t && k.job < s.desks[n].next
    ensures k.id in s.desks[m].t <==> exists p | n <= p < m :: TakenSince(s, p, m, k.id)
    decreases m
  {
    hide Moved, Booked, Inserted;
    if n < m {
      FreedRow(s, n, m - 1, k);
      AlwaysBooked(s, m - 1);
      BookedKeys(s.desks[m - 1]);
      LostForGood(s, n, m - 1, k);
      LostStep(s.desks[m - 1], s.moves[m - 1], s.desks[m], k);
      if k.id in s.desks[m].t {
        if k.id in s.desks[m - 1].t {
          var p :| n <= p < m - 1 && TakenSince(s, p, m - 1, k.id);
          assert TakenSince(s, p, m, k.id);
        } else {
          assert TakenSince(s, m - 1, m, k.id);
        }
      }
    }
  }

  /**
   What becomes of the report of a handler whose job was discarded while it ran.
   It never reaches its job.  It changes the table if and only if the freed row id
   was handed out again, is still in use, and the report moves the job now there;
   that is another job than the one reported on.
  */
  lemma LateReport(s: Shift, n: nat, m: nat, k: Ticket, ok: bool, now: int)
    requires IsShift(s) && n < m < |s.moves| && s.moves[n].Drop? && s.moves[m] == Report(k, ok, now)
    requires k in s.desks[n].tickets && Held(s.desks[n], k)
    requires ChargeOf(s.desks[n].t[k.id].payload) == Some(s.moves[n].tx)
    ensures !Held(s.desks[m], k)
    ensures k.id in s.desks[m].t <==> exists p | n < p < m :: TakenSince(s, p, m, k.id)
    ensures s.desks[m + 1].t != s.desks[m].t
            <==> k.id in s.desks[m].t && Settled(s.desks[m].t[k.id], ok, now) != s.desks[m].t[k.id]
    ensures k.id in s.desks[m].t ==> k.id in s.desks[m].job && s.desks[m].job[k.id] != k.job
  {
    AlwaysBooked(s, n);
    AlwaysBooked(s, m);
    DropFrees(s.desks[n], s.moves[n], s.desks[n + 1], k);
    hide Moved, Booked, TakenSince;
    LostForGood(s, n + 1, m, k);
    FreedRow(s, n + 1, m, k);
    ReportGoesToTheRow(s.desks[m], k, ok, now, s.desks[m + 1]);
    BookedKeys(s.desks[m]);
  }

  lemma DropFrees(w: Desk, m: Move, w': Desk, k: Ticket)
    requires Booked(w) && Moved(w, m, w') && m.Drop? && k in w.tickets && Held(w, k)
    requires ChargeOf(w.t[k.id].payload) == Some(m.tx)
    ensures k.id !in w'.t && k.job < w'.next
  {
  }

  /** When the next enqueue is given a freed id: no row that is left lies above it, and the one below is there. */
  lemma NextIdIs<T>(rows: map<nat, T>, id: nat)
    requires id !in rows && id > 0
    ensures NextId(rows) == id <==> (forall i | i in rows :: i < id) && (id == 1 || id - 1 in rows)
  {
  }

  /**
   The single step, for every table: a running job of a discarded charge, then one
   enqueue, then the late report.  It falls on the new job if and only if that was
   given the freed id; for a job without a key, if and only if the freed id is
   the next one after those that are left.
  */
  lemma StaleFinishSettlesAnotherJob(t: Jobs, id: nat, tx: nat, b: Job, ok: bool, now: int)
    requires UniqueKeys(t) && id in t && t[id].status.Running? && ChargeOf(t[id].payload) == Some(tx)
    requires b.status.Pending? && b.attempts == 0
    ensures var kept := Discarded(t, tx);
            UniqueKeys(kept) &&
            var (after, added) := Enqueued(kept, b);
            && (Finished(after, id, ok, now) != after <==> added == Some(id) && Settled(b, ok, now) != b)
            && (added == Some(id) ==> Finished(after, id, ok, now) == after[id := Settled(b, ok, now)])
            && (ok ==> (Finished(after, id, ok, now) != after <==> added == Some(id)))
            && (b.key.None? ==> added == Some(NextId(kept)))
  {
    var kept := Discarded(t, tx);
    EnqueuedRows(kept, b);
    var (after, added) := Enqueued(kept, b);
    hide Enqueued, Settled;
    if added == Some(id) {
      assert after[id] == b;
      if Settled(b, ok, now) != b { assert Finished(after, id, ok, now)[id] != after[id]; }
    } else {
      assert id !in after;
    }
    SuccessSettles(b, now);
  }

  lemma SuccessSettles(b: Job, now: int)
    requires b.status.Pending?
    ensures Settled(b, true, now) != b
  {
  }
}
