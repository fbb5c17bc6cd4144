/** Cutting a long message into Discord-sized pieces (`_chunk` in app/discordbot/tasks.py). */
module Chunking {
  import opened Text

  /** Length of the lines once each is given its newline. */
  function Weight(lines: seq<string>): nat {
    if lines == [] then 0 else |lines[0]| + 1 + Weight(lines[1..])
  }

  lemma {:induction false} WeightAppend(a: seq<string>, b: seq<string>)
    ensures Weight(a + b) == Weight(a) + Weight(b)
    decreases |a|
  {
    if a == [] {
      assert a + b == b;
    } else {
      WeightAppend(a[1..], b);
      assert (a + b)[1..] == a[1..] + b;
    }
  }

  lemma {:induction false} JoinedLength(lines: seq<string>)
    requires lines != []
    ensures |Join(lines, '\n')| + 1 == Weight(lines)
    decreases |lines|
  {
    if |lines| > 1 { JoinedLength(lines[1..]); } else { assert lines[1..] == []; }
  }

  function Flatten(groups: seq<seq<string>>): seq<string> {
    if groups == [] then [] else groups[0] + Flatten(groups[1..])
  }

  lemma {:induction false} FlattenAppend(a: seq<seq<string>>, g: seq<string>)
    ensures Flatten(a + [g]) == Flatten(a) + g
    decreases |a|
  {
    if a == [] {
      assert (a + [g])[1..] == [];
    } else {
      FlattenAppend(a[1..], g);
      assert (a + [g])[1..] == a[1..] + [g];
    }
  }

  function Chunks(groups: seq<seq<string>>): seq<string> {
    seq(|groups|, i requires 0 <= i < |groups| => Join(groups[i], '\n'))
  }

  /** A group may be posted as one message: a single line, or lines that fit. */
  predicate Postable(g: seq<string>, limit: nat) {
    g != [] && (|g| == 1 || Weight(g) <= limit)
  }

  /** An order-preserving split of the lines into postable groups. */
  ghost predicate Packing(groups: seq<seq<string>>, lines: seq<string>, limit: nat) {
    Flatten(groups) == lines && forall g | g in groups :: Postable(g, limit)
  }

  /** No group could have taken the first line of the next one as well. */
  ghost predicate Greedy(groups: seq<seq<string>>, limit: nat) {
    forall i, j | 0 <= i < j < |groups| && j == i + 1 :: Full(groups[i], groups[j], limit)
  }

  predicate Full(g: seq<string>, next: seq<string>, limit: nat) {
    next != [] && Weight(g) + |next[0]| + 1 > limit
  }

  /**
   A greedy packing of the lines from b on uses no more groups than any packing
   of the lines from an earlier point on.
  */
  lemma {:induction false} GreedyStaysAhead(
    lines: seq<string>, limit: nat, g: seq<seq<string>>, b: nat, o: seq<seq<string>>, a: nat)
    requires a <= b <= |lines|
    requires Packing(g, lines[b..], limit) && Greedy(g, limit) && Packing(o, lines[a..], limit)
    ensures |g| <= |o|
    decreases |o|
  {
    if g != [] {
      var n := |g[0]|;
      assert g[0] in g && n > 0;
      assert o != [];
      var m := |o[0]|;
      assert o[0] in o;
      assert lines[a..][m..] == lines[a + m..] == Flatten(o[1..]);
      if a + m <= b {
        GreedyStaysAhead(lines, limit, g, b, o[1..], a + m);
      } else {
        assert lines[b..][n..] == lines[b + n..] == Flatten(g[1..]);
        assert a + m <= b + n by { FirstGroupReaches(lines, limit, g, b, o[0], a); }
        GreedyStaysAhead(lines, limit, g[1..], b + n, o[1..], a + m);
      }
    }
  }

  /** A postable run of lines that begins no later cannot reach past the first greedy group. */
  lemma FirstGroupReaches(
    lines: seq<string>, limit: nat, g: seq<seq<string>>, b: nat, first: seq<string>, a: nat)
    requires a <= b <= |lines| && g != []
    requires Packing(g, lines[b..], limit) && Greedy(g, limit)
    requires first <= lines[a..] && Postable(first, limit) && b < a + |first|
    ensures a + |first| <= b + |g[0]|
  {
    var n, m := |g[0]|, |first|;
    assert g[0] in g;
    assert g[0] == lines[b..b + n];
    if b + n < a + m {
      assert Flatten(g[1..]) != [] && g[1..] != [];
      assert Full(g[0], g[1], limit) && g[1] in g && g[1][0] == Flatten(g[1..])[0] == lines[b + n];
      var before, after := lines[a..b], lines[b + n + 1..a + m];
      assert first == before + g[0] + [lines[b + n]] + after;
      WeightAppend(before + g[0] + [lines[b + n]], after);
      WeightAppend(before + g[0], [lines[b + n]]);
      WeightAppend(before, g[0]);
      assert false;
    }
  }

  lemma {:induction false} JoinAppend(a: seq<string>, b: seq<string>)
    requires a != [] && b != []
    ensures Join(a + b, '\n') == Join(a, '\n') + "\n" + Join(b, '\n')
    decreases |a|
  {
    var t := a + b;
    if |a| == 1 {
      assert t[1..] == b;
    } else {
      JoinAppend(a[1..], b);
      assert t[1..] == a[1..] + b;
    }
  }

  lemma {:induction false} ChunksJoin(groups: seq<seq<string>>)
    requires groups != [] && forall g | g in groups :: g != []
    ensures Flatten(groups) != []
    ensures Join(Chunks(groups), '\n') == Join(Flatten(groups), '\n')
    decreases |groups|
  {
    var first, rest := groups[0], groups[1..];
    assert first in groups;
    if rest == [] {
      assert Chunks(groups) == [Join(first, '\n')] && Flatten(groups) == first;
    } else {
      assert forall g | g in rest :: g in groups;
      ChunksJoin(rest);
      assert Chunks(groups) == [Join(first, '\n')] + Chunks(rest);
      assert Chunks(groups)[1..] == Chunks(rest);
      JoinAppend(first, Flatten(rest));
    }
  }

  /**
   A packing whose groups of several lines are shorter than the limit when
   joined, and that no other packing beats on the number of groups.
  */
  ghost predicate BestPacking(groups: seq<seq<string>>, lines: seq<string>, limit: nat) {
    && Packing(groups, lines, limit)
    && (forall g | g in groups && |g| > 1 :: |Join(g, '\n')| < limit)
    && (forall other | Packing(other, lines, limit) :: |groups| <= |other|)
  }

  /** The state of the loop: closed groups, and the group being filled. */
  ghost predicate Filling(groups: seq<seq<string>>, current: seq<string>, lines: seq<string>, limit: nat) {
    && Flatten(groups) + current == lines
    && (forall g | g in groups :: Postable(g, limit))
    && (lines != [] ==> Postable(current, limit))
    && (lines == [] ==> groups == [] && current == [])
    && Greedy(groups + [current], limit)
  }

  lemma TakeLine(groups: seq<seq<string>>, current: seq<string>, lines: seq<string>, limit: nat, line: string)
    requires Filling(groups, current, lines, limit)
    requires current == [] || Weight(current) + |line| + 1 <= limit
    ensures Filling(groups, current + [line], lines + [line], limit)
  {
    WeightAppend(current, [line]);
    var before, after := groups + [current], groups + [current + [line]];
    forall i, j | 0 <= i < j < |after| && j == i + 1 ensures Full(after[i], after[j], limit) {
      assert Full(before[i], before[j], limit);
    }
  }

  lemma CloseGroup(groups: seq<seq<string>>, current: seq<string>, lines: seq<string>, limit: nat, line: string)
    requires Filling(groups, current, lines, limit)
    requires current != [] && Weight(current) + |line| + 1 > limit
    ensures Filling(groups + [current], [line], lines + [line], limit)
  {
    FlattenAppend(groups, current);
    var before, after := groups + [current], groups + [current] + [[line]];
    forall i, j | 0 <= i < j < |after| && j == i + 1 ensures Full(after[i], after[j], limit) {
      if j < |before| { assert Full(before[i], before[j], limit); }
    }
  }

  /**
   The pieces join back to the text; every piece of several lines is shorter
   than the limit; and no way of splitting the lines into postable groups, in
   order, needs fewer pieces.
  */
  method Chunk(text: string, limit: nat) returns (out: seq<string>)
    ensures Join(out, '\n') == text
    ensures exists groups :: out == Chunks(groups) && BestPacking(groups, Split(text, '\n'), limit)
  {
    hide Join, Split, Weight, Filling, Postable, BestPacking;
    out := [];
    var current: seq<string>, size := [], 0;
    ghost var groups: seq<seq<string>> := [];
    NothingYet(limit);
    var lines := Split(text, '\n');
    for n := 0 to |lines|
      invariant out == Chunks(groups) && size == Weight(current)
      invariant Filling(groups, current, lines[..n], limit)
    {
      var line := lines[n];
      assert lines[..n + 1] == lines[..n] + [line];
      if size + |line| + 1 > limit && current != [] {
        CloseGroup(groups, current, lines[..n], limit, line);
        out := out + [Join(current, '\n')];
        groups := groups + [current];
        current, size := [], 0;
        assert current + [line] == [line];
      } else {
        TakeLine(groups, current, lines[..n], limit, line);
      }
      WeightOfNext(current, line);
      current := current + [line];
      size := size + |line| + 1;
    }
    assert lines[..|lines|] == lines;
    ChunksAreMinimal(groups, current, text, limit);
    if current != [] {
      out := out + [Join(current, '\n')];
    }
    groups := groups + [current];
    assert out == Chunks(groups);
  }

  lemma NothingYet(limit: nat)
    ensures Filling([], [], [], limit) && Weight([]) == 0
  {
  }

  lemma WeightOfNext(lines: seq<string>, line: string)
    ensures Weight(lines + [line]) == Weight(lines) + |line| + 1
  {
    WeightAppend(lines, [line]);
  }

  lemma ChunksAreMinimal(groups: seq<seq<string>>, current: seq<string>, text: string, limit: nat)
    requires Filling(groups, current, Split(text, '\n'), limit)
    ensures current != []
    ensures Join(Chunks(groups + [current]), '\n') == text
    ensures BestPacking(groups + [current], Split(text, '\n'), limit)
  {
    hide Join, Split, Weight;
    var lines, all := Split(text, '\n'), groups + [current];
    FlattenAppend(groups, current);
    ChunksJoin(all);
    JoinSplit(text, '\n');
    forall g | g in all && |g| > 1 ensures |Join(g, '\n')| < limit { JoinedLength(g); }
    assert lines[0..] == lines;
    forall other | Packing(other, lines, limit) ensures |all| <= |other| {
      GreedyStaysAhead(lines, limit, all, 0, other, 0);
    }
  }

  /** Fewest, told by the messages: no other way of cutting the text at line ends below the limit uses fewer. */
  lemma FewestMessages(groups: seq<seq<string>>, lines: seq<string>, limit: nat, other: seq<seq<string>>)
    requires BestPacking(groups, lines, limit) && Flatten(other) == lines
    requires forall g | g in other :: g != [] && (|g| == 1 || |Join(g, '\n')| < limit)
    ensures |groups| <= |other|
  {
    forall g | g in other ensures Postable(g, limit) { JoinedLength(g); }
    assert Packing(other, lines, limit);
  }
}
