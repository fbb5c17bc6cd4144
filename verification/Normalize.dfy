/** The plain-text normal form that parse rules run against (`normalize_text` in app/services/parsing.py). */
module Normalize {
  import opened Text

  predicate IsBlank(c: char) {
    c == ' ' || c == '\t'
  }

  function DropCarriageReturns(s: string): string {
    if s == "" then ""
    else if |s| > 1 && s[0] == '\r' && s[1] == '\n' then DropCarriageReturns(s[1..])
    else [s[0]] + DropCarriageReturns(s[1..])
  }

  function UnixLines(s: string): string {
    Replace(DropCarriageReturns(s), '\r', '\n')
  }

  /** `[ \t]+` becomes one space. */
  function SingleBlanks(s: string): string {
    if s == "" then ""
    else if !IsBlank(s[0]) then [s[0]] + SingleBlanks(s[1..])
    else if |s| > 1 && IsBlank(s[1]) then SingleBlanks(s[1..])
    else " " + SingleBlanks(s[1..])
  }

  function TrimRight(line: string): (r: string)
    ensures r <= line
    ensures r != "" ==> !IsBlank(r[|r| - 1])
  {
    if line != "" && IsBlank(line[|line| - 1]) then TrimRight(line[..|line| - 1]) else line
  }

  function TrimEach(lines: seq<string>): (r: seq<string>)
    ensures |r| == |lines| && forall i | 0 <= i < |lines| :: r[i] == TrimRight(lines[i])
  {
    seq(|lines|, i requires 0 <= i < |lines| => TrimRight(lines[i]))
  }

  function TrimLines(s: string): string {
    Join(TrimEach(Split(s, '\n')), '\n')
  }

  /** `\n{3,}` becomes two newlines. */
  function ShortGaps(s: string): string {
    if s == "" then ""
    else if |s| > 2 && s[0] == '\n' && s[1] == '\n' && s[2] == '\n' then ShortGaps(s[1..])
    else [s[0]] + ShortGaps(s[1..])
  }

  function Normalized(s: string): string {
    Strip(ShortGaps(TrimLines(SingleBlanks(PlainSpaces(UnixLines(s))))))
  }

  const FIXED_SPACES: seq<char> := ['\U{a0}', '\U{2009}', '\U{202f}', '\U{2007}']

  method NormalizeText(raw: string) returns (text: string)
    ensures text == Normalized(raw)
  {
    hide SingleBlanks, Split, Join, ShortGaps, Strip, UnixLines, TrimRight;
    var unix := UnixLines(raw);
    text := unix;
    for n := 0 to |FIXED_SPACES|
      invariant |text| == |unix|
      invariant forall i | 0 <= i < |unix| :: text[i] == if unix[i] in FIXED_SPACES[..n] then ' ' else unix[i]
    {
      text := Replace(text, FIXED_SPACES[n], ' ');
    }
    assert forall c :: c in FIXED_SPACES <==> IsFixedSpace(c);
    assert text == PlainSpaces(unix);
    text := SingleBlanks(text);
    var lines := Split(text, '\n');
    var trimmed: seq<string> := [];
    for n := 0 to |lines|
      invariant trimmed == TrimEach(lines[..n])
    {
      assert lines[..n + 1] == lines[..n] + [lines[n]];
      trimmed := trimmed + [TrimRight(lines[n])];
    }
    assert lines[..|lines|] == lines;
    text := Strip(ShortGaps(Join(trimmed, '\n')));
  }

  // ---- the normal form ------------------------------------------------------------

  ghost predicate NoPair(s: string, a: char, b: char) {
    forall i, j | 0 <= i < j < |s| && j == i + 1 :: !(s[i] == a && s[j] == b)
  }

  ghost predicate NoTriple(s: string) {
    forall i, j, k | 0 <= i < j < k < |s| && j == i + 1 && k == j + 1 ::
      !(s[i] == '\n' && s[j] == '\n' && s[k] == '\n')
  }

  predicate Clean(s: string) {
    forall c | c in s :: c != '\r' && c != '\t' && !IsFixedSpace(c)
  }

  /**
   No carriage return, tab or fixed space; no two spaces in a row; no space at
   the end of a line; no three newlines in a row; no white space at either end.
  */
  ghost predicate NormalForm(s: string) {
    && Clean(s) && NoPair(s, ' ', ' ') && NoPair(s, ' ', '\n') && NoTriple(s) && Tight(s)
  }

  lemma {:induction false} CarriageReturnsGone(s: string)
    ensures forall c | c in UnixLines(s) :: c != '\r'
  {
  }

  lemma {:induction false} SingleBlanksResult(s: string)
    requires forall c | c in s :: c != '\r' && !IsFixedSpace(c)
    ensures Clean(SingleBlanks(s)) && NoPair(SingleBlanks(s), ' ', ' ')
    ensures s != "" ==> SingleBlanks(s) != "" && SingleBlanks(s)[0] == (if IsBlank(s[0]) then ' ' else s[0])
    decreases |s|
  {
    if s != "" {
      var rest := SingleBlanks(s[1..]);
      assert s[0] in s && forall c | c in s[1..] :: c in s;
      SingleBlanksResult(s[1..]);
      if !(IsBlank(s[0]) && |s| > 1 && IsBlank(s[1])) {
        var c := if IsBlank(s[0]) then ' ' else s[0];
        assert SingleBlanks(s) == [c] + rest;
        PairCons(c, rest, ' ', ' ');
      }
    }
  }

  lemma PairCons(c: char, rest: string, a: char, b: char)
    requires NoPair(rest, a, b)
    requires rest != "" ==> !(c == a && rest[0] == b)
    ensures NoPair([c] + rest, a, b)
  {
    var s := [c] + rest;
    forall i, j | 0 <= i < j < |s| && j == i + 1 ensures !(s[i] == a && s[j] == b) {
      if i > 0 { assert s[i] == rest[i - 1] && s[j] == rest[j - 1]; }
    }
  }

  /** Neither a run of the text nor the text itself breaks these rules. */
  lemma SlicesStayClean(s: string, lo: nat, hi: nat)
    requires lo <= hi <= |s| && Clean(s)
    ensures Clean(s[lo..hi])
    ensures NoPair(s, ' ', ' ') ==> NoPair(s[lo..hi], ' ', ' ')
    ensures NoPair(s, ' ', '\n') ==> NoPair(s[lo..hi], ' ', '\n')
    ensures NoTriple(s) ==> NoTriple(s[lo..hi])
  {
    SlicePair(s, lo, hi, ' ');
    SlicePair(s, lo, hi, '\n');
    var r := s[lo..hi];
    if NoTriple(s) {
      forall i, j, k | 0 <= i < j < k < |r| && j == i + 1 && k == j + 1
        ensures !(r[i] == '\n' && r[j] == '\n' && r[k] == '\n')
      {
        assert r[i] == s[lo + i] && r[j] == s[lo + j] && r[k] == s[lo + k];
      }
    }
  }

  lemma SlicePair(s: string, lo: nat, hi: nat, b: char)
    requires lo <= hi <= |s|
    ensures NoPair(s, ' ', b) ==> NoPair(s[lo..hi], ' ', b)
  {
    var r := s[lo..hi];
    if NoPair(s, ' ', b) {
      forall i, j | 0 <= i < j < |r| && j == i + 1 ensures !(r[i] == ' ' && r[j] == b) {
        assert r[i] == s[lo + i] && r[j] == s[lo + j];
      }
    }
  }

  /** A line of the trimmed text. */
  ghost predicate TrimmedLine(p: string) {
    Clean(p) && NoPair(p, ' ', ' ') && '\n' !in p && (p != "" ==> p[|p| - 1] != ' ')
  }

  lemma SplitLast(s: string, k: nat)
    requires k == FirstIndex(s, '\n') == |s|
    ensures Split(s, '\n') == [s]
  {
  }

  lemma SplitFirst(s: string, k: nat)
    requires k == FirstIndex(s, '\n') < |s|
    ensures Split(s, '\n') == [s[..k]] + Split(s[k + 1..], '\n')
  {
    hide FirstIndex;
  }

  lemma TrimEachCons(line: string, rest: seq<string>)
    ensures TrimEach([line] + rest) == [TrimRight(line)] + TrimEach(rest)
  {
    assert ([line] + rest)[1..] == rest;
  }

  lemma {:induction false} SplitTrims(s: string)
    requires Clean(s) && NoPair(s, ' ', ' ')
    ensures forall p | p in TrimEach(Split(s, '\n')) :: TrimmedLine(p)
    decreases |s|
  {
    hide NoPair, TrimRight, TrimEach, Split, Clean, FirstIndex, TrimmedLine;
    var k := FirstIndex(s, '\n');
    var line := s[..k];
    TrimsLine(s, k);
    if k == |s| {
      SplitLast(s, k);
      assert line == s;
      TrimEachCons(line, []);
      assert [line] + [] == [line];
    } else {
      SplitFirst(s, k);
      SlicesStayClean(s, k + 1, |s|);
      assert s[k + 1..|s|] == s[k + 1..];
      SplitTrims(s[k + 1..]);
      TrimEachCons(line, Split(s[k + 1..], '\n'));
    }
  }

  lemma TrimsLine(s: string, k: nat)
    requires Clean(s) && NoPair(s, ' ', ' ') && k == FirstIndex(s, '\n')
    ensures TrimmedLine(TrimRight(s[..k]))
  {
    hide NoPair;
    var line := s[..k];
    SlicesStayClean(s, 0, k);
    var n := |TrimRight(line)|;
    SlicesStayClean(line, 0, n);
    assert TrimRight(line) == line[0..n];
  }

  lemma {:induction false} JoinTrimmed(lines: seq<string>)
    requires forall p | p in lines :: TrimmedLine(p)
    ensures var t := Join(lines, '\n');
            Clean(t) && NoPair(t, ' ', ' ') && NoPair(t, ' ', '\n')
    decreases |lines|
  {
    if |lines| == 1 {
      assert lines[0] in lines;
    } else if |lines| > 1 {
      var line, rest := lines[0], Join(lines[1..], '\n');
      assert line in lines;
      JoinTrimmed(lines[1..]);
      PairCons('\n', rest, ' ', ' ');
      PairCons('\n', rest, ' ', '\n');
      PairAppend(line, "\n" + rest, ' ');
      PairAppend(line, "\n" + rest, '\n');
      assert line + ['\n'] + rest == line + ("\n" + rest);
    }
  }

  lemma PairAppend(line: string, rest: string, b: char)
    requires NoPair(line, ' ', b) && NoPair(rest, ' ', b) && (line != "" ==> line[|line| - 1] != ' ')
    ensures NoPair(line + rest, ' ', b)
  {
    var t := line + rest;
    forall i, j | 0 <= i < j < |t| && j == i + 1 ensures !(t[i] == ' ' && t[j] == b) {
      if j < |line| {
        assert t[i] == line[i] && t[j] == line[j];
      } else if i >= |line| {
        assert t[i] == rest[i - |line|] && t[j] == rest[j - |line|];
      } else {
        assert t[i] == line[|line| - 1];
      }
    }
  }

  lemma {:induction false} ShortGapsResult(s: string)
    requires Clean(s) && NoPair(s, ' ', ' ') && NoPair(s, ' ', '\n')
    ensures var t := ShortGaps(s);
            && Clean(t) && NoPair(t, ' ', ' ') && NoPair(t, ' ', '\n') && NoTriple(t)
            && (s != "" ==> t != "" && t[0] == s[0])
            && (|t| > 1 && t[0] == '\n' && t[1] == '\n' ==> |s| > 1 && s[1] == '\n')
    decreases |s|
  {
    if s != "" {
      var t := ShortGaps(s[1..]);
      SlicesStayClean(s, 1, |s|);
      ShortGapsResult(s[1..]);
      if !(|s| > 2 && s[0] == '\n' && s[1] == '\n' && s[2] == '\n') {
        assert |s| > 1 ==> !(s[0] == ' ' && s[1] == ' ') && !(s[0] == ' ' && s[1] == '\n');
        PairCons(s[0], t, ' ', ' ');
        PairCons(s[0], t, ' ', '\n');
        TripleCons(s[0], t);
        assert s[0] in s;
      }
    }
  }

  lemma TripleCons(c: char, rest: string)
    requires NoTriple(rest)
    requires !(c == '\n' && |rest| > 1 && rest[0] == '\n' && rest[1] == '\n')
    ensures NoTriple([c] + rest)
  {
    var s := [c] + rest;
    forall i, j, k | 0 <= i < j < k < |s| && j == i + 1 && k == j + 1
      ensures !(s[i] == '\n' && s[j] == '\n' && s[k] == '\n')
    {
      if i > 0 { assert s[i] == rest[i - 1] && s[j] == rest[j - 1] && s[k] == rest[k - 1]; }
    }
  }

  lemma {:induction false} StripLeftIsSlice(s: string)
    ensures exists lo: nat :: lo <= |s| && StripLeft(s) == s[lo..]
    ensures StripLeft(s) != "" ==> !IsSpace(StripLeft(s)[0])
    decreases |s|
  {
    if s != "" && IsSpace(s[0]) {
      StripLeftIsSlice(s[1..]);
      var lo: nat :| lo <= |s[1..]| && StripLeft(s[1..]) == s[1..][lo..];
      assert s[1..][lo..] == s[lo + 1..];
    } else {
      assert s == s[0..];
    }
  }

  lemma {:induction false} StripRightIsSlice(s: string)
    ensures exists hi: nat :: hi <= |s| && StripRight(s) == s[..hi]
    ensures StripRight(s) != "" ==> !IsSpace(StripRight(s)[|StripRight(s)| - 1])
    decreases |s|
  {
    if s != "" && IsSpace(s[|s| - 1]) {
      var t := s[..|s| - 1];
      StripRightIsSlice(t);
      var hi: nat :| hi <= |t| && StripRight(t) == t[..hi];
      assert t[..hi] == s[..hi];
    } else {
      assert s == s[..|s|];
    }
  }

  lemma StripIsTightSlice(s: string)
    ensures Tight(Strip(s))
    ensures exists lo: nat, hi: nat :: lo <= hi <= |s| && Strip(s) == s[lo..hi]
  {
    hide StripLeft, StripRight;
    StripLeftIsSlice(s);
    var lo: nat :| lo <= |s| && StripLeft(s) == s[lo..];
    var t := s[lo..];
    StripRightIsSlice(t);
    var n: nat :| n <= |t| && StripRight(t) == t[..n];
    var hi := lo + n;
    assert lo <= hi <= |s| && Strip(s) == t[..n] == s[lo..hi];
    SliceIsTight(t, n);
  }

  /** What is left of a text without leading space once trailing space is gone. */
  lemma SliceIsTight(t: string, n: nat)
    requires n <= |t| && (t != "" ==> !IsSpace(t[0])) && (n > 0 ==> !IsSpace(t[n - 1]))
    ensures Tight(t[..n])
  {
  }

  /** Whatever comes in, the result is in normal form. */
  lemma NormalizedIsNormal(s: string)
    ensures NormalForm(Normalized(s))
  {
    hide SingleBlanks, TrimEach, Split, Join, ShortGaps, Strip, UnixLines;
    var plain := PlainSpaces(UnixLines(s));
    CarriageReturnsGone(s);
    assert forall i | 0 <= i < |plain| :: UnixLines(s)[i] in UnixLines(s);
    assert forall c | c in plain :: c != '\r' && !IsFixedSpace(c);
    SingleBlanksResult(plain);
    var single := SingleBlanks(plain);
    SplitTrims(single);
    JoinTrimmed(TrimEach(Split(single, '\n')));
    var trimmed := TrimLines(single);
    ShortGapsResult(trimmed);
    var short := ShortGaps(trimmed);
    StripIsTightSlice(short);
    var lo: nat, hi: nat :| lo <= hi <= |short| && Strip(short) == short[lo..hi];
    SlicesStayClean(short, lo, hi);
  }

  // ---- normal texts are fixed -------------------------------------------------------

  lemma {:induction false} UnixLinesFixed(s: string)
    requires Clean(s)
    ensures UnixLines(s) == s && PlainSpaces(s) == s
  {
    NoReturnsToDrop(s);
    assert forall i | 0 <= i < |s| :: s[i] in s;
  }

  lemma {:induction false} NoReturnsToDrop(s: string)
    requires Clean(s)
    ensures DropCarriageReturns(s) == s
    decreases |s|
  {
    if s != "" {
      assert s[0] in s;
      NoReturnsToDrop(s[1..]);
      assert s == [s[0]] + s[1..];
    }
  }

  lemma {:induction false} SingleBlanksFixed(s: string)
    requires Clean(s) && NoPair(s, ' ', ' ')
    ensures SingleBlanks(s) == s
    decreases |s|
  {
    if s != "" {
      assert s[0] in s && (|s| > 1 ==> s[1] in s);
      SlicesStayClean(s, 1, |s|);
      SingleBlanksFixed(s[1..]);
      assert s == [s[0]] + s[1..];
    }
  }

  lemma TrimFixed(line: string)
    requires line != "" ==> !IsBlank(line[|line| - 1])
    ensures TrimRight(line) == line
  {
  }

  lemma LineEnd(s: string, k: nat)
    requires Clean(s) && NoPair(s, ' ', '\n') && (s != "" ==> s[|s| - 1] != ' ')
    requires k <= |s| && (k < |s| ==> s[k] == '\n')
    ensures s[..k] != "" ==> !IsBlank(s[..k][k - 1])
  {
    if k > 0 {
      assert s[..k][k - 1] == s[k - 1] && s[k - 1] in s;
      if k < |s| { assert s[k] == '\n' && s[k - 1] != ' '; }
    }
  }

  lemma {:induction false} TrimEachFixed(s: string)
    requires Clean(s) && NoPair(s, ' ', '\n') && (s != "" ==> s[|s| - 1] != ' ')
    ensures TrimEach(Split(s, '\n')) == Split(s, '\n')
    decreases |s|
  {
    hide FirstIndex, TrimRight, NoPair, Clean, TrimEach, Split;
    var k := FirstIndex(s, '\n');
    var line := s[..k];
    LineEnd(s, k);
    TrimFixed(line);
    if k == |s| {
      SplitLast(s, k);
      assert line == s;
      TrimEachCons(line, []);
      assert [line] + [] == [line];
    } else {
      SplitFirst(s, k);
      SlicesStayClean(s, k + 1, |s|);
      assert s[k + 1..|s|] == s[k + 1..];
      TrimEachFixed(s[k + 1..]);
      TrimEachCons(line, Split(s[k + 1..], '\n'));
    }
  }

  lemma {:induction false} ShortGapsFixed(s: string)
    requires Clean(s) && NoTriple(s)
    ensures ShortGaps(s) == s
    decreases |s|
  {
    if s != "" {
      assert |s| > 2 ==> !(s[0] == '\n' && s[1] == '\n' && s[2] == '\n');
      SlicesStayClean(s, 1, |s|);
      ShortGapsFixed(s[1..]);
      assert s == [s[0]] + s[1..];
    }
  }

  lemma NormalIsFixed(s: string)
    requires NormalForm(s)
    ensures Normalized(s) == s
  {
    hide SingleBlanks, TrimEach, Split, Join, ShortGaps, Strip, UnixLines;
    UnixLinesFixed(s);
    SingleBlanksFixed(s);
    TrimEachFixed(s);
    JoinSplit(s, '\n');
    ShortGapsFixed(s);
    StripTight(s);
  }

  /** Normalizing twice is normalizing once, and the fixed points are the normal texts. */
  lemma NormalizeIsIdempotent(s: string)
    ensures Normalized(Normalized(s)) == Normalized(s)
    ensures Normalized(s) == s <==> NormalForm(s)
  {
    hide Normalized, NormalForm;
    NormalizedIsNormal(s);
    NormalIsFixed(Normalized(s));
    if NormalForm(s) { NormalIsFixed(s); }
  }
}
