/**
 Finite sets of row ids: the largest and smallest id, and the sequence a query
 with `ORDER BY rank, id` returns.
*/
module Ordering {

  lemma MaxExists(s: set<nat>)
    requires s != {}
    ensures exists m :: m in s && forall x | x in s :: x <= m
  {
    var rank: map<nat, int> := map x | x in s :: -(x as int);
    FirstExists(rank, s);
    var m :| IsFirst(rank, s, m);
    assert forall x | x in s && x != m :: Precedes(rank, m, x);
  }

  function MaxOf(s: set<nat>): (m: nat)
    requires s != {}
    ensures m in s && forall x | x in s :: x <= m
  {
    MaxExists(s);
    var m :| m in s && forall x | x in s :: x <= m;
    m
  }

  lemma MinExists(s: set<nat>)
    requires s != {}
    ensures exists m :: m in s && forall x | x in s :: m <= x
  {
    var rank: map<nat, int> := map x | x in s :: 0;
    FirstExists(rank, s);
    var m :| IsFirst(rank, s, m);
    assert forall x | x in s && x != m :: Precedes(rank, m, x);
  }

  function MinOf(s: set<nat>): (m: nat)
    requires s != {}
    ensures m in s && forall x | x in s :: m <= x
  {
    MinExists(s);
    var m :| m in s && forall x | x in s :: m <= x;
    m
  }

  predicate Precedes(rank: map<nat, int>, a: nat, b: nat)
    requires a in rank && b in rank
  {
    rank[a] < rank[b] || (rank[a] == rank[b] && a < b)
  }

  predicate IsFirst(rank: map<nat, int>, s: set<nat>, m: nat)
    requires s <= rank.Keys
  {
    m in s && forall x | x in s && x != m :: Precedes(rank, m, x)
  }

  lemma FirstExists(rank: map<nat, int>, s: set<nat>)
    requires s <= rank.Keys && s != {}
    ensures exists m :: IsFirst(rank, s, m)
  {
    var a :| a in s;
    if s == {a} {
      assert IsFirst(rank, s, a);
    } else {
      FirstExists(rank, s - {a});
      var b :| IsFirst(rank, s - {a}, b);
      var m := if Precedes(rank, a, b) then a else b;
      assert IsFirst(rank, s, m) by {
        forall x | x in s && x != m ensures Precedes(rank, m, x) {
          if x != a && x != b { assert x in s - {a}; }
        }
      }
    }
  }

  function First(rank: map<nat, int>, s: set<nat>): (m: nat)
    requires s <= rank.Keys && s != {}
    ensures IsFirst(rank, s, m)
  {
    FirstExists(rank, s);
    var m :| IsFirst(rank, s, m);
    m
  }

  /** The ids of `s` in ascending (rank, id) order. */
  function Ordered(rank: map<nat, int>, s: set<nat>): (ids: seq<nat>)
    requires s <= rank.Keys
    ensures |ids| == |s|
    ensures forall x :: x in ids <==> x in s
    ensures forall i, j | 0 <= i < j < |ids| :: Precedes(rank, ids[i], ids[j])
    decreases |s|
  {
    if s == {} then [] else
      var m := First(rank, s);
      var rest := Ordered(rank, s - {m});
      assert forall j | 0 <= j < |rest| :: rest[j] in rest;
      [m] + rest
  }

  /** The ids of `s` in ascending id order. */
  function Ascending(s: set<nat>): (ids: seq<nat>)
    ensures |ids| == |s|
    ensures forall x :: x in ids <==> x in s
    ensures forall i, j | 0 <= i < j < |ids| :: ids[i] < ids[j]
  {
    Ordered(map x | x in s :: x as int, s)
  }

  /** SQLite's choice for the next INTEGER PRIMARY KEY: one past the largest in use. */
  function NextId<T>(rows: map<nat, T>): (id: nat)
    ensures id !in rows && id > 0
  {
    if rows == map[] then 1 else MaxOf(rows.Keys) + 1
  }

  /** A member that a cut-off list leaves out comes later in the whole list. */
  lemma LeftOut(all: seq<nat>, ids: seq<nat>, i: nat, n: nat)
    requires ids <= all && i in all && i !in ids && n < |ids|
    ensures exists m :: n < m < |all| && all[m] == i
  {
    assert forall k | 0 <= k < |ids| :: all[k] == ids[k] && all[k] in ids;
    var m :| 0 <= m < |all| && all[m] == i;
  }

  lemma {:induction false} DistinctCount(ids: seq<nat>, s: set<nat>)
    requires forall i :: i in s <==> i in ids
    requires forall m, n | 0 <= m < n < |ids| :: ids[m] != ids[n]
    ensures |s| == |ids|
    decreases |ids|
  {
    if ids == [] {
      assert s == {};
    } else {
      DistinctCount(ids[1..], s - {ids[0]});
      assert ids[0] in s;
    }
  }
}
