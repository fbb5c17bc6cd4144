/**
 Ageing out charges that never got a receipt (`sweep_lapsed` in
 app/services/ingest.py) and the daily digest that warns first
 (`_build_digest` in app/discordbot/tasks.py).
*/
module Lapsing {
  import opened Schema
  import opened Ordering

  const HOUR: int := 3600

  // ---- the sweep --------------------------------------------------------------------

  predicate Lapses(tx: Transaction, hours: int, now: int) {
    Open(tx.status) && tx.notifiedAt.Some? && tx.notifiedAt.value < now - hours * HOUR
  }

  function Overdue(txs: Transactions, hours: int, now: int): set<nat> {
    set i | i in txs && Lapses(txs[i], hours, now)
  }

  function Swept(txs: Transactions, hours: int, now: int): Transactions {
    map i | i in txs ::
      if Lapses(txs[i], hours, now) then txs[i].(status := Lapsed, lapsedAt := Some(now)) else txs[i]
  }

  method SweepLapsed(db: Database, hours: int, now: int) returns (count: nat)
    modifies db`transactions
    ensures db.transactions == Swept(old(db.transactions), hours, now)
    ensures count == |Overdue(old(db.transactions), hours, now)|
  {
    hide Lapses;
    ghost var before := db.transactions;
    var todo := Overdue(db.transactions, hours, now);
    count := |todo|;
    while todo != {}
      invariant todo <= Overdue(before, hours, now) && db.transactions.Keys == before.Keys
      invariant forall i | i in before && i in todo :: db.transactions[i] == before[i]
      invariant forall i | i in before && i !in todo :: db.transactions[i] == Swept(before, hours, now)[i]
      decreases |todo|
    {
      var i :| i in todo;
      db.transactions := db.transactions[i := db.transactions[i].(status := Lapsed, lapsedAt := Some(now))];
      todo := todo - {i};
    }
  }

  /** What a sweep does: new and notified charges announced more than the window ago lapse now; no other row changes. */
  lemma SweptRows(txs: Transactions, hours: int, now: int)
    ensures Swept(txs, hours, now).Keys == txs.Keys
    ensures forall i | i in txs ::
              var tx := txs[i];
              var late := tx.status in {New, Notified}
                          && tx.notifiedAt.Some? && tx.notifiedAt.value + 3600 * hours < now;
              && (i in Overdue(txs, hours, now) <==> late)
              && Swept(txs, hours, now)[i] == if late then tx.(status := Lapsed, lapsedAt := Some(now)) else tx
  {
  }

  // ---- the digest ---------------------------------------------------------------------

  function OccurrenceTimes(txs: Transactions): map<nat, int> {
    map i | i in txs :: txs[i].occurredAt
  }

  function WarnCutoff(hours: int, now: int): int {
    now - (if hours - 24 > 0 then hours - 24 else 0) * HOUR
  }

  /** Outstanding, and announced so long ago that the sweep is near. */
  predicate Warned(tx: Transaction, hours: int, now: int) {
    Outstanding(tx.status) && tx.notifiedAt.Some? && tx.notifiedAt.value <= WarnCutoff(hours, now)
  }

  function OutstandingCharges(txs: Transactions): (r: set<nat>)
    ensures r <= txs.Keys
    ensures forall i | i in txs :: i in r <==> txs[i].status in {New, Notified, NeedsAttention}
  {
    set i | i in txs && Outstanding(txs[i].status)
  }

  /** SELECT ... WHERE status is outstanding ORDER BY occurred_at. */
  function OutstandingOldestFirst(txs: Transactions): seq<nat> {
    Ordered(OccurrenceTimes(txs), OutstandingCharges(txs))
  }

  const WEEK: int := 7 * 24 * HOUR

  function RecentlyLapsed(txs: Transactions, now: int): set<nat> {
    set i | i in txs && txs[i].status.Lapsed? && txs[i].lapsedAt.Some? && txs[i].lapsedAt.value >= now - WEEK
  }

  function Orphans(atts: map<nat, Attachment>): set<nat> {
    set a | a in atts && atts[a].transactionId.None?
  }

  datatype Summary = Summary(lapsing: seq<nat>, normal: seq<nat>, recentlyLapsed: nat, orphans: nat)

  /** Charges listed oldest first. */
  ghost predicate OldestFirst(txs: Transactions, ids: seq<nat>)
    requires forall n | 0 <= n < |ids| :: ids[n] in txs
  {
    forall m, n | 0 <= m < n < |ids| :: txs[ids[m]].occurredAt <= txs[ids[n]].occurredAt && ids[m] != ids[n]
  }

  /** The listed charges of `some`, oldest first. */
  ghost predicate Lists(txs: Transactions, some: seq<nat>, hours: int, now: int, lapsing: seq<nat>, normal: seq<nat>) {
    && (forall n | 0 <= n < |lapsing| :: lapsing[n] in txs && lapsing[n] in some && Warned(txs[lapsing[n]], hours, now))
    && (forall n | 0 <= n < |normal| :: normal[n] in txs && normal[n] in some && !Warned(txs[normal[n]], hours, now))
    && (forall i | i in some :: i in lapsing || i in normal)
    && OldestFirst(txs, lapsing) && OldestFirst(txs, normal)
  }

  lemma ListsNothing(txs: Transactions, hours: int, now: int)
    ensures Lists(txs, [], hours, now, [], [])
  {
  }

  lemma ListsOneMore(txs: Transactions, open: seq<nat>, n: nat, hours: int, now: int,
                     lapsing: seq<nat>, normal: seq<nat>)
    requires n < |open| && (forall k | 0 <= k < |open| :: open[k] in txs) && OldestFirst(txs, open)
    requires Lists(txs, open[..n], hours, now, lapsing, normal)
    ensures if Warned(txs[open[n]], hours, now) then Lists(txs, open[..n + 1], hours, now, lapsing + [open[n]], normal)
            else Lists(txs, open[..n + 1], hours, now, lapsing, normal + [open[n]])
  {
    hide Warned, OldestFirst;
    var i := open[n];
    assert open[..n + 1] == open[..n] + [i];
    forall x | x in open[..n] ensures x in txs && x != i && txs[x].occurredAt <= txs[i].occurredAt {
      var m :| 0 <= m < n && open[m] == x;
      FirstIsOlder(txs, open, m, n);
    }
    if Warned(txs[i], hours, now) {
      OldestFirstAppend(txs, lapsing, i);
      assert forall x | x in open[..n + 1] :: x in lapsing + [i] || x in normal;
    } else {
      OldestFirstAppend(txs, normal, i);
      assert forall x | x in open[..n + 1] :: x in lapsing || x in normal + [i];
    }
  }

  lemma FirstIsOlder(txs: Transactions, ids: seq<nat>, m: nat, n: nat)
    requires m < n < |ids| && (forall k | 0 <= k < |ids| :: ids[k] in txs) && OldestFirst(txs, ids)
    ensures txs[ids[m]].occurredAt <= txs[ids[n]].occurredAt && ids[m] != ids[n]
  {
  }

  lemma OldestFirstAppend(txs: Transactions, ids: seq<nat>, i: nat)
    requires i in txs && (forall n | 0 <= n < |ids| :: ids[n] in txs) && OldestFirst(txs, ids)
    requires forall n | 0 <= n < |ids| :: ids[n] != i && txs[ids[n]].occurredAt <= txs[i].occurredAt
    ensures (forall n | 0 <= n < |ids + [i]| :: (ids + [i])[n] in txs) && OldestFirst(txs, ids + [i])
  {
  }

  /** The two lists of the digest, built in one pass over the outstanding charges. */
  method SplitLists(txs: Transactions, open: seq<nat>, hours: int, now: int)
    returns (lapsing: seq<nat>, normal: seq<nat>)
    requires (forall k | 0 <= k < |open| :: open[k] in txs) && OldestFirst(txs, open)
    ensures Lists(txs, open, hours, now, lapsing, normal)
  {
    hide *;
    lapsing, normal := [], [];
    ListsNothing(txs, hours, now);
    for n := 0 to |open|
      invariant Lists(txs, open[..n], hours, now, lapsing, normal)
    {
      ListsOneMore(txs, open, n, hours, now, lapsing, normal);
      if Warned(txs[open[n]], hours, now) {
        lapsing := lapsing + [open[n]];
      } else {
        normal := normal + [open[n]];
      }
    }
    assert open[..|open|] == open;
  }

  /** Every outstanding charge is in exactly one list, oldest first. */
  ghost predicate IsDigest(txs: Transactions, atts: map<nat, Attachment>, hours: int, now: int, g: Summary) {
    && (forall i :: i in g.lapsing <==> i in txs && Warned(txs[i], hours, now))
    && (forall i :: i in g.normal <==> i in txs && Outstanding(txs[i].status) && !Warned(txs[i], hours, now))
    && (forall n | 0 <= n < |g.lapsing| :: g.lapsing[n] in txs) && OldestFirst(txs, g.lapsing)
    && (forall n | 0 <= n < |g.normal| :: g.normal[n] in txs) && OldestFirst(txs, g.normal)
    && g.recentlyLapsed == |RecentlyLapsed(txs, now)| && g.orphans == |Orphans(atts)|
  }

  lemma ListsMakeDigest(txs: Transactions, atts: map<nat, Attachment>, hours: int, now: int, open: seq<nat>, g: Summary)
    requires forall i :: i in open <==> i in OutstandingCharges(txs)
    requires Lists(txs, open, hours, now, g.lapsing, g.normal)
    requires g.recentlyLapsed == |RecentlyLapsed(txs, now)| && g.orphans == |Orphans(atts)|
    ensures IsDigest(txs, atts, hours, now, g)
  {
    hide WarnCutoff, RecentlyLapsed, Orphans, OldestFirst;
    forall i | i in txs && Warned(txs[i], hours, now) ensures i in g.lapsing { assert i in open; }
    forall i | i in txs && Outstanding(txs[i].status) && !Warned(txs[i], hours, now) ensures i in g.normal {
      assert i in open;
    }
  }

  lemma OldestFirstOrder(txs: Transactions, open: seq<nat>)
    requires open == OutstandingOldestFirst(txs)
    ensures (forall k | 0 <= k < |open| :: open[k] in txs) && OldestFirst(txs, open)
    ensures (forall i :: i in open <==> i in OutstandingCharges(txs))
    ensures open == [] <==> OutstandingCharges(txs) == {}
  {
    hide Ordered;
    forall k | 0 <= k < |open| ensures open[k] in txs { assert open[k] in open; }
  }

  method BuildDigest(db: Database, enabled: bool, hours: int, now: int) returns (r: Option<Summary>)
    ensures r.None? <==>
      || !enabled
      || (OutstandingCharges(db.transactions) == {} && Orphans(db.attachments) == {}
          && RecentlyLapsed(db.transactions, now) == {})
    ensures r.Some? ==> IsDigest(db.transactions, db.attachments, hours, now, r.value)
  {
    hide *;
    r := None;
    if enabled {
      var txs, atts := db.transactions, db.attachments;
      var open := OutstandingOldestFirst(txs);
      var recent, orphans := |RecentlyLapsed(txs, now)|, |Orphans(atts)|;
      OldestFirstOrder(txs, open);
      if !(open == [] && orphans == 0 && recent == 0) {
        var lapsing, normal := SplitLists(txs, open, hours, now);
        r := Some(Summary(lapsing, normal, recent, orphans));
        ListsMakeDigest(txs, atts, hours, now, open, r.value);
      }
    }
  }

  /**
   What a digest lists, told by the columns: a charge that is new, notified or in
   need of attention is under "lapsing soon" if it was announced at least `hours -
   24` hours ago, and below otherwise; the counts are of the charges lapsed in the
   last seven days and of the attachments of no charge.
  */
  lemma DigestLists(txs: Transactions, atts: map<nat, Attachment>, hours: int, now: int, g: Summary,
                    recent: set<nat>, orphans: set<nat>)
    requires IsDigest(txs, atts, hours, now, g)
    requires forall i :: i in recent <==>
               i in txs && txs[i].status == Lapsed && txs[i].lapsedAt.Some? && txs[i].lapsedAt.value + 604800 >= now
    requires forall a :: a in orphans <==> a in atts && atts[a].transactionId == None
    ensures forall i ::
              i in g.lapsing || i in g.normal <==> i in txs && txs[i].status in {New, Notified, NeedsAttention}
    ensures forall i | i in txs && txs[i].status in {New, Notified, NeedsAttention} ::
              var warned := txs[i].notifiedAt.Some?
                            && (if hours > 24 then txs[i].notifiedAt.value + 3600 * (hours - 24) <= now
                                else txs[i].notifiedAt.value <= now);
              (i in g.lapsing <==> warned) && (i in g.normal <==> !warned)
    ensures forall m, n | 0 <= m < n < |g.lapsing| ::
              && g.lapsing[m] in txs && g.lapsing[n] in txs && g.lapsing[m] != g.lapsing[n]
              && txs[g.lapsing[m]].occurredAt <= txs[g.lapsing[n]].occurredAt
    ensures forall m, n | 0 <= m < n < |g.normal| ::
              && g.normal[m] in txs && g.normal[n] in txs && g.normal[m] != g.normal[n]
              && txs[g.normal[m]].occurredAt <= txs[g.normal[n]].occurredAt
    ensures g.recentlyLapsed == |recent| && g.orphans == |orphans|
  {
    assert recent == RecentlyLapsed(txs, now) && orphans == Orphans(atts);
  }

  /** When there is nothing to say: no charge is outstanding or lately lapsed and every attachment has its charge. */
  lemma NothingToSay(txs: Transactions, atts: map<nat, Attachment>, now: int)
    ensures OutstandingCharges(txs) == {} <==> forall i | i in txs :: txs[i].status !in {New, Notified, NeedsAttention}
    ensures Orphans(atts) == {} <==> forall a | a in atts :: atts[a].transactionId.Some?
    ensures RecentlyLapsed(txs, now) == {} <==>
              forall i | i in txs && txs[i].status == Lapsed && txs[i].lapsedAt.Some? ::
                txs[i].lapsedAt.value + 604800 < now
  {
    assert forall i :: i in OutstandingCharges(txs) <==> i in txs && txs[i].status in {New, Notified, NeedsAttention};
    assert forall a :: a in Orphans(atts) <==> a in atts && atts[a].transactionId.None?;
    assert forall i :: i in RecentlyLapsed(txs, now) <==>
             i in txs && txs[i].status == Lapsed && txs[i].lapsedAt.Some? && txs[i].lapsedAt.value + 604800 >= now;
  }

  /**
   The window arithmetic.  With a lapse window of at least a day, a charge that
   a sweep at most a day after the digest finds overdue had, if its announcement
   is the one the digest saw, been in the warned range.
  */
  lemma OverdueWithinADayWasWarned(tx: Transaction, seen: Transaction, hours: int, digestAt: int, sweepAt: int)
    requires hours >= 24 && digestAt <= sweepAt <= digestAt + 24 * HOUR
    requires Lapses(tx, hours, sweepAt)
    ensures tx.notifiedAt.value < digestAt
    ensures Outstanding(seen.status) && seen.notifiedAt == tx.notifiedAt ==> Warned(seen, hours, digestAt)
  {
  }
}
