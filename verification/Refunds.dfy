/**
 How good the guesses of `link_refund` (app/services/ingest.py) are: ingested in
 time order and left alone, they link as many refunds of a merchant and amount to
 distinct earlier charges as any assignment could.
*/
module Refunds {
  import opened Schema
  import opened Outbox
  import opened ParseRules
  import opened Ingest

  /** One ingested charge or credit, with the original it was linked to. */
  datatype Entry = Entry(id: nat, row: Transaction, link: Option<nat>)

  function Written(e: Entry): Transaction {
    e.row.(refundOf := e.link)
  }

  /** The table after the ingests. */
  function Table(es: seq<Entry>): Transactions {
    if es == [] then map[]
    else Table(es[..|es| - 1])[es[|es| - 1].id := Written(es[|es| - 1])]
  }

  /** The table while the last entry's refund is being looked up. */
  function Looking(es: seq<Entry>, k: nat): Transactions
    requires k < |es|
  {
    Table(es[..k])[es[k].id := es[k].row]
  }

  /** Ingested one by one in time order, each linked by `link_refund`. */
  ghost predicate Ingests(es: seq<Entry>) {
    && (forall k | 0 <= k < |es| ::
          && es[k].id !in Table(es[..k]) && es[k].row.refundOf.None?
          && IsRefundChoice(Looking(es, k), es[k].id, es[k].link))
    && (forall i, j | 0 <= i < j < |es| :: es[i].row.occurredAt <= es[j].row.occurredAt)
  }

  predicate IsCharge(e: Entry, merchant: string, amount: int) {
    e.row.merchant == merchant && e.row.amountMinor == amount
  }

  predicate IsRefund(e: Entry, merchant: string, amount: int) {
    e.row.merchant == merchant && e.row.amountMinor == -amount
  }

  function Charges(es: seq<Entry>, merchant: string, amount: int): set<nat> {
    set i | 0 <= i < |es| && IsCharge(es[i], merchant, amount)
  }

  /** The refunds that ingest linked to a charge. */
  function LinkedRefunds(es: seq<Entry>, merchant: string, amount: int): set<nat> {
    set i | 0 <= i < |es| && IsRefund(es[i], merchant, amount) && es[i].link.Some?
  }

  /** Some refunds, each given an earlier charge of the same merchant and amount, no charge twice. */
  ghost predicate IsAssignment(es: seq<Entry>, merchant: string, amount: int, m: map<nat, nat>) {
    && (forall i | i in m ::
          i < |es| && IsRefund(es[i], merchant, amount) && m[i] < i && IsCharge(es[m[i]], merchant, amount))
    && (forall i, j | i in m && j in m && m[i] == m[j] :: i == j)
  }

  // ---- the table --------------------------------------------------------------------------

  lemma {:induction false} TableRow(es: seq<Entry>, i: nat)
    requires Ingests(es) && i < |es|
    ensures es[i].id in Table(es) && Table(es)[es[i].id] == Written(es[i])
    decreases |es|
  {
    hide IsRefundChoice, Written;
    var n := |es| - 1;
    if i < n {
      IngestsPrefix(es, n);
      TableRow(es[..n], i);
    }
  }

  lemma IngestsPrefix(es: seq<Entry>, n: nat)
    requires Ingests(es) && n <= |es|
    ensures Ingests(es[..n])
  {
    hide IsRefundChoice, Table;
    forall k | 0 <= k < n
      ensures && es[..n][k].id !in Table(es[..n][..k]) && es[..n][k].row.refundOf.None?
              && IsRefundChoice(Looking(es[..n], k), es[..n][k].id, es[..n][k].link)
    {
      assert es[..n][..k] == es[..k] && es[..n][k] == es[k];
    }
  }

  lemma {:induction false} TableEntry(es: seq<Entry>, t: nat) returns (i: nat)
    requires t in Table(es)
    ensures i < |es| && es[i].id == t && (Ingests(es) ==> Table(es)[t] == Written(es[i]))
    decreases |es|
  {
    hide Ingests, Written;
    var n := |es| - 1;
    if es[n].id == t {
      i := n;
    } else {
      i := TableEntry(es[..n], t);
    }
    if Ingests(es) { TableRow(es, i); }
  }

  lemma DistinctIds(es: seq<Entry>, i: nat, j: nat)
    requires Ingests(es) && i < j < |es|
    ensures es[i].id != es[j].id
  {
    hide IsRefundChoice;
    IngestsPrefix(es, j);
    TableRow(es[..j], i);
  }

  // ---- counting -----------------------------------------------------------------------------

  lemma {:induction false} InjectionBound(m: map<nat, nat>, s: set<nat>)
    requires forall i | i in m :: m[i] in s
    requires forall i, j | i in m && j in m && m[i] == m[j] :: i == j
    ensures |m.Keys| <= |s|
    decreases |m|
  {
    if m.Keys != {} {
      var i :| i in m;
      var rest := m - {i};
      assert rest.Keys == m.Keys - {i};
      InjectionBound(rest, s - {m[i]});
    }
  }

  // ---- a refund left alone ---------------------------------------------------------------------

  /** A linked entry is a credit of the linked charge's merchant and amount. */
  lemma LinkMatches(es: seq<Entry>, r: nat, c: nat)
    requires Ingests(es) && r < |es| && c < |es| && es[r].link == Some(es[c].id)
    ensures c < r && es[r].row.merchant == es[c].row.merchant && es[c].row.amountMinor == -es[r].row.amountMinor
    ensures es[r].row.amountMinor < 0
  {
    var txs := Looking(es, r);
    assert RefundCandidate(txs, es[r].id, es[c].id);
    assert es[c].id in Table(es[..r]);
    var i := TableEntry(es[..r], es[c].id);
    if i < c { DistinctIds(es, i, c); }
    if c < i { DistinctIds(es, c, i); }
    IngestsPrefix(es, r);
    TableRow(es[..r], i);
  }

  /** When a refund finds nothing, every earlier charge it could reverse is taken. */
  lemma Claimant(es: seq<Entry>, k: nat, c: nat) returns (r: nat)
    requires Ingests(es) && c < k < |es| && es[k].link.None? && es[k].row.amountMinor < 0
    requires es[c].row.merchant == es[k].row.merchant && es[c].row.amountMinor == -es[k].row.amountMinor
    ensures r < k && es[r].link == Some(es[c].id)
  {
    var txs, o := Looking(es, k), es[c].id;
    IngestsPrefix(es, k);
    TableRow(es[..k], c);
    DistinctIds(es, c, k);
    ChargeHasNoLink(es, c);
    assert !RefundCandidate(txs, es[k].id, o);
    assert Reversed(txs, o);
    var t :| t in txs && txs[t].refundOf == Some(o);
    assert t in Table(es[..k]);
    r := TableEntry(es[..k], t);
    assert Table(es[..k])[t] == Written(es[r]);
  }

  lemma ChargeHasNoLink(es: seq<Entry>, c: nat)
    requires Ingests(es) && c < |es| && es[c].row.amountMinor >= 0
    ensures es[c].link.None?
  {
    assert IsRefundChoice(Looking(es, c), es[c].id, es[c].link);
  }

  lemma AllTaken(es: seq<Entry>, k: nat, merchant: string, amount: int)
    requires Ingests(es) && k < |es| && amount > 0 && IsRefund(es[k], merchant, amount) && es[k].link.None?
    ensures |Charges(es[..k], merchant, amount)| <= |LinkedRefunds(es[..k], merchant, amount)|
  {
    hide Ingests;
    var charges, linked := Charges(es[..k], merchant, amount), LinkedRefunds(es[..k], merchant, amount);
    forall c | c in charges ensures exists r :: r in linked && es[r].link == Some(es[c].id) {
      var r := Claimant(es, k, c);
      LinkMatches(es, r, c);
      assert r in linked;
    }
    var m := map c | c in charges :: ClaimantOf(es, linked, c);
    forall c, e | c in m && e in m && m[c] == m[e] ensures c == e {
      if c < e { DistinctIds(es, c, e); }
      if e < c { DistinctIds(es, e, c); }
    }
    InjectionBound(m, linked);
    assert m.Keys == charges;
  }

  ghost function ClaimantOf(es: seq<Entry>, linked: set<nat>, c: nat): (r: nat)
    requires c < |es| && forall i | i in linked :: i < |es|
    requires exists r :: r in linked && es[r].link == Some(es[c].id)
    ensures r in linked && es[r].link == Some(es[c].id)
  {
    var r :| r in linked && es[r].link == Some(es[c].id);
    r
  }

  // ---- the theorem ------------------------------------------------------------------------------

  /**
   Whatever other charges come in between, no assignment of the refunds of one
   merchant and amount to distinct earlier charges links more of them than
   taking the most recent free charge for each refund as it arrives.
  */
  lemma {:induction false} GreedyIsOptimal(es: seq<Entry>, merchant: string, amount: int, m: map<nat, nat>)
    requires Ingests(es) && amount > 0 && IsAssignment(es, merchant, amount, m)
    ensures |m.Keys| <= |LinkedRefunds(es, merchant, amount)|
    decreases |es|
  {
    hide Ingests, LinkedRefunds, Charges, IsAssignment;
    if es != [] {
      var n := |es| - 1;
      IngestsPrefix(es, n);
      LinkedOneMore(es, merchant, amount);
      if IsRefund(es[n], merchant, amount) && es[n].link.None? {
        AllTaken(es, n, merchant, amount);
        AssignmentBound(es, merchant, amount, m);
      } else {
        AssignmentPrefix(es, merchant, amount, m);
        GreedyIsOptimal(es[..n], merchant, amount, m - {n});
      }
    } else {
      NothingAssigned(merchant, amount, m);
    }
  }

  lemma NothingAssigned(merchant: string, amount: int, m: map<nat, nat>)
    requires IsAssignment([], merchant, amount, m)
    ensures m.Keys == {}
  {
  }

  /** No assignment uses more charges than there are before the last entry. */
  lemma AssignmentBound(es: seq<Entry>, merchant: string, amount: int, m: map<nat, nat>)
    requires es != [] && IsAssignment(es, merchant, amount, m)
    ensures |m.Keys| <= |Charges(es[..|es| - 1], merchant, amount)|
  {
    InjectionBound(m, Charges(es[..|es| - 1], merchant, amount));
  }

  /** Taking the last entry out leaves an assignment of the others, smaller by at most that entry. */
  lemma AssignmentPrefix(es: seq<Entry>, merchant: string, amount: int, m: map<nat, nat>)
    requires es != [] && IsAssignment(es, merchant, amount, m)
    ensures IsAssignment(es[..|es| - 1], merchant, amount, m - {|es| - 1})
    ensures |m.Keys| <= |(m - {|es| - 1}).Keys| + (if IsRefund(es[|es| - 1], merchant, amount) then 1 else 0)
  {
    hide IsAssignment;
    AssignmentRest(es, es[..|es| - 1], merchant, amount, m);
    AssignmentUses(es, merchant, amount, m);
    WithoutOne(m, |es| - 1);
  }

  lemma AssignmentUses(es: seq<Entry>, merchant: string, amount: int, m: map<nat, nat>)
    requires es != [] && IsAssignment(es, merchant, amount, m)
    ensures |es| - 1 in m ==> IsRefund(es[|es| - 1], merchant, amount)
  {
  }

  lemma WithoutOne(m: map<nat, nat>, n: nat)
    ensures |m.Keys| == |(m - {n}).Keys| + (if n in m then 1 else 0)
  {
    if n in m {
      assert m.Keys == (m - {n}).Keys + {n};
    } else {
      assert m - {n} == m;
    }
  }

  lemma AssignmentRest(es: seq<Entry>, before: seq<Entry>, merchant: string, amount: int, m: map<nat, nat>)
    requires es != [] && IsAssignment(es, merchant, amount, m)
    requires |before| == |es| - 1 && forall i | 0 <= i < |before| :: before[i] == es[i]
    ensures IsAssignment(before, merchant, amount, m - {|es| - 1})
  {
    hide IsRefund, IsCharge;
  }

  lemma LinkedOneMore(es: seq<Entry>, merchant: string, amount: int)
    requires es != []
    ensures var n := |es| - 1;
            LinkedRefunds(es, merchant, amount) == LinkedRefunds(es[..n], merchant, amount) +
              (if IsRefund(es[n], merchant, amount) && es[n].link.Some? then {n} else {})
    ensures es == [] || |LinkedRefunds(es, merchant, amount)| == |LinkedRefunds(es[..|es| - 1], merchant, amount)| +
              (if IsRefund(es[|es| - 1], merchant, amount) && es[|es| - 1].link.Some? then 1 else 0)
    ensures |es| - 1 !in LinkedRefunds(es[..|es| - 1], merchant, amount)
  {
  }

  /** What ingest linked is itself such an assignment, so the maximum is attained. */
  lemma GreedyIsAssignment(es: seq<Entry>, merchant: string, amount: int) returns (m: map<nat, nat>)
    requires Ingests(es) && amount > 0
    ensures IsAssignment(es, merchant, amount, m) && m.Keys == LinkedRefunds(es, merchant, amount)
    ensures forall i | i in m :: es[i].link == Some(es[m[i]].id)
  {
    hide Ingests;
    var linked := LinkedRefunds(es, merchant, amount);
    forall r | r in linked ensures exists c :: 0 <= c < |es| && es[c].id == es[r].link.value {
      var c := LinkedEntry(es, r);
    }
    m := map r | r in linked :: EntryOf(es, es[r].link.value);
    forall r | r in m ensures m[r] < r && IsCharge(es[m[r]], merchant, amount) {
      LinkMatches(es, r, m[r]);
    }
    forall i, j | i in m && j in m && m[i] == m[j] ensures i == j {
      if i < j { LinkedTwice(es, i, j, m[i]); }
      if j < i { LinkedTwice(es, j, i, m[i]); }
    }
  }

  ghost function EntryOf(es: seq<Entry>, id: nat): (c: nat)
    requires exists c :: 0 <= c < |es| && es[c].id == id
    ensures c < |es| && es[c].id == id
  {
    var c :| 0 <= c < |es| && es[c].id == id;
    c
  }

  lemma LinkedEntry(es: seq<Entry>, r: nat) returns (c: nat)
    requires Ingests(es) && r < |es| && es[r].link.Some?
    ensures c < |es| && es[c].id == es[r].link.value
  {
    assert RefundCandidate(Looking(es, r), es[r].id, es[r].link.value);
    c := TableEntry(es[..r], es[r].link.value);
  }

  /** A charge that a refund has taken is no candidate for a later one. */
  lemma LinkedTwice(es: seq<Entry>, i: nat, j: nat, c: nat)
    requires Ingests(es) && i < j < |es| && c < |es| && es[i].link == Some(es[c].id)
    ensures es[j].link != Some(es[c].id)
  {
    var txs := Looking(es, j);
    IngestsPrefix(es, j);
    TableRow(es[..j], i);
    DistinctIds(es, i, j);
    assert txs[es[i].id].refundOf == Some(es[c].id);
    assert Reversed(txs, es[c].id);
    assert IsRefundChoice(txs, es[j].id, es[j].link);
  }

  /** Ingesting a charge no older than those before it extends such a history by one entry. */
  lemma IngestExtends(es: seq<Entry>, d: Db, d': Db, re: Regex, m: GraphMessage, parsed: Option<Fields>,
                      currency: string, now: int, id: nat) returns (e: Entry)
    requires Ingests(es) && d.transactions == Table(es) && UniqueKeys(d.jobs)
    requires Ingested(d, d', re, m, parsed, currency, now, id)
    requires forall i | 0 <= i < |es| :: es[i].row.occurredAt <= NewCharge(d, re, m, parsed, currency).occurredAt
    ensures e.id == id && e.row == NewCharge(d, re, m, parsed, currency)
    ensures Ingests(es + [e]) && d'.transactions == Table(es + [e])
  {
    hide NewCharge, IsRefundChoice, Known, EmailRow, Enqueued, UniqueKeys;
    var row := NewCharge(d, re, m, parsed, currency);
    NewChargeHasNoRefund(d, re, m, parsed, currency);
    var refund :| IsRefundChoice(d.transactions[id := row], id, refund)
                  && d'.transactions == d.transactions[id := row.(refundOf := refund)];
    e := Entry(id, row, refund);
    var all := es + [e];
    assert all[..|es|] == es && all[|all| - 1] == e;
    IngestsAppend(es, e);
  }

  lemma IngestsAppend(es: seq<Entry>, e: Entry)
    requires Ingests(es) && e.id !in Table(es) && e.row.refundOf.None?
    requires IsRefundChoice(Table(es)[e.id := e.row], e.id, e.link)
    requires forall i | 0 <= i < |es| :: es[i].row.occurredAt <= e.row.occurredAt
    ensures Ingests(es + [e])
  {
    hide IsRefundChoice, Table;
    var all := es + [e];
    forall k | 0 <= k < |all|
      ensures && all[k].id !in Table(all[..k]) && all[k].row.refundOf.None?
              && IsRefundChoice(Looking(all, k), all[k].id, all[k].link)
    {
      assert all[..k] == es[..k];
      if k == |es| { assert es[..k] == es; }
    }
  }
}
