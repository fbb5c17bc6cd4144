/**
 What normalising a text keeps: its visible characters in order, and between two of
 them whether there was nothing, space, one line break, or more.
*/
module Layout {
  import opened Text
  import opened Normalize

  /** What stands between two visible characters; `Front` is before the first one. */
  datatype Gap = Front | Joined | Spaced | Broken | Parted

  /** A line break: a newline, or a carriage return with no newline after it. */
  predicate BreakAt(s: string)
    requires s != ""
  {
    s[0] == '\n' || (s[0] == '\r' && !(|s| > 1 && s[1] == '\n'))
  }

  function Wider(g: Gap, break_: bool): Gap {
    match g
    case Front => Front
    case Joined => if break_ then Broken else Spaced
    case Spaced => if break_ then Broken else Spaced
    case Broken => if break_ then Parted else Broken
    case Parted => Parted
  }

  function GapText(g: Gap): string {
    match g
    case Front => ""
    case Joined => ""
    case Spaced => " "
    case Broken => "\n"
    case Parted => "\n\n"
  }

  /** The visible characters, with every stretch of white space between two of them told by its `Gap`. */
  function Shape(s: string, g: Gap): string {
    if s == "" then ""
    else if IsSpace(s[0]) then Shape(s[1..], Wider(g, BreakAt(s)))
    else GapText(g) + [s[0]] + Shape(s[1..], Joined)
  }

  /** The gap open after a text. */
  function After(s: string, g: Gap): Gap {
    if s == "" then g
    else if IsSpace(s[0]) then After(s[1..], Wider(g, BreakAt(s)))
    else After(s[1..], Joined)
  }

  // ---- pass by pass -----------------------------------------------------------------

  lemma UnixCons(s: string)
    requires s != ""
    ensures UnixLines(s) ==
      if |s| > 1 && s[0] == '\r' && s[1] == '\n' then UnixLines(s[1..])
      else [if s[0] == '\r' then '\n' else s[0]] + UnixLines(s[1..])
  {
  }

  lemma {:induction false} UnixKeepsShape(s: string, g: Gap)
    ensures Shape(UnixLines(s), g) == Shape(s, g)
    decreases |s|
  {
    if s != "" {
      hide UnixLines;
      UnixCons(s);
      var rest := UnixLines(s[1..]);
      if |s| > 1 && s[0] == '\r' && s[1] == '\n' {
        UnixKeepsShape(s[1..], g);
        CrlfIsOne(s, g);
      } else if IsSpace(s[0]) {
        var c := if s[0] == '\r' then '\n' else s[0];
        var t := [c] + rest;
        assert t[1..] == rest && BreakAt(t) == BreakAt(s);
        UnixKeepsShape(s[1..], Wider(g, BreakAt(s)));
      } else {
        var t := [s[0]] + rest;
        assert t[1..] == rest;
        UnixKeepsShape(s[1..], Joined);
      }
    } else {
      assert UnixLines("") == "";
    }
  }

  lemma CrlfIsOne(s: string, g: Gap)
    requires |s| > 1 && s[0] == '\r' && s[1] == '\n'
    ensures Shape(s, g) == Shape(s[1..], g)
  {
    var t := s[1..];
    assert BreakAt(t) && !BreakAt(s);
    assert Shape(s, g) == Shape(t, Wider(g, false));
    assert Wider(Wider(g, false), true) == Wider(g, true);
  }

  lemma {:induction false} PlainKeepsShape(s: string, g: Gap)
    ensures Shape(PlainSpaces(s), g) == Shape(s, g)
    decreases |s|
  {
    if s != "" {
      var t := PlainSpaces(s);
      assert t[1..] == PlainSpaces(s[1..]);
      assert BreakAt(t) == BreakAt(s);
      PlainKeepsShape(s[1..], Wider(g, BreakAt(s)));
      PlainKeepsShape(s[1..], Joined);
    }
  }

  lemma SpaceAgain(t: string, g: Gap)
    requires t != "" && t[0] == ' '
    ensures Shape(t, Wider(g, false)) == Shape(t, g)
  {
    assert Wider(Wider(g, false), false) == Wider(g, false);
  }

  lemma {:induction false} BlanksStartWithOne(s: string)
    requires s != "" && IsBlank(s[0])
    ensures SingleBlanks(s) != "" && SingleBlanks(s)[0] == ' '
    decreases |s|
  {
    if |s| > 1 && IsBlank(s[1]) { BlanksStartWithOne(s[1..]); }
  }

  lemma {:induction false} BlanksKeepShape(s: string, g: Gap)
    requires '\r' !in s
    ensures Shape(SingleBlanks(s), g) == Shape(s, g)
    decreases |s|
  {
    if s != "" {
      var rest := s[1..];
      if !IsBlank(s[0]) {
        var t := [s[0]] + SingleBlanks(rest);
        assert t[1..] == SingleBlanks(rest) && BreakAt(t) == BreakAt(s);
        BlanksKeepShape(rest, Wider(g, BreakAt(s)));
        BlanksKeepShape(rest, Joined);
      } else if |s| > 1 && IsBlank(s[1]) {
        BlanksKeepShape(rest, Wider(g, false));
        BlanksStartWithOne(rest);
        SpaceAgain(SingleBlanks(rest), g);
      } else {
        var t := " " + SingleBlanks(rest);
        assert t[1..] == SingleBlanks(rest);
        BlanksKeepShape(rest, Wider(g, false));
      }
    }
  }

  lemma {:induction false} ShapeAppend(a: string, b: string, g: Gap)
    requires '\r' !in a
    ensures Shape(a + b, g) == Shape(a, g) + Shape(b, After(a, g))
    decreases |a|
  {
    if a == "" {
      assert a + b == b;
    } else {
      var t := a + b;
      assert t[0] == a[0] && t[1..] == a[1..] + b && BreakAt(t) == BreakAt(a);
      if IsSpace(a[0]) {
        ShapeAppend(a[1..], b, Wider(g, BreakAt(a)));
      } else {
        ShapeAppend(a[1..], b, Joined);
        assert GapText(g) + [a[0]] + (Shape(a[1..], Joined) + Shape(b, After(a[1..], Joined)))
            == GapText(g) + [a[0]] + Shape(a[1..], Joined) + Shape(b, After(a[1..], Joined));
      }
    }
  }

  /** Blanks at the end of a line change nothing visible, and nothing before a line break. */
  lemma {:induction false} TrimKeepsShape(line: string, g: Gap)
    requires '\r' !in line
    ensures Shape(TrimRight(line), g) == Shape(line, g)
    ensures Wider(After(TrimRight(line), g), true) == Wider(After(line, g), true)
    decreases |line|
  {
    var n := |line|;
    if line != "" && IsBlank(line[n - 1]) {
      var init, last := line[..n - 1], [line[n - 1]];
      assert line == init + last;
      TrimKeepsShape(init, g);
      ShapeAppend(init, last, g);
      AfterAppend(init, last, g);
      assert last[1..] == "" && !BreakAt(last) && IsSpace(last[0]);
      assert After(last, After(init, g)) == Wider(After(init, g), false);
      assert Shape(last, After(init, g)) == "";
    }
  }

  lemma {:induction false} AfterAppend(a: string, b: string, g: Gap)
    requires '\r' !in a
    ensures After(a + b, g) == After(b, After(a, g))
    decreases |a|
  {
    if a == "" {
      assert a + b == b;
    } else {
      var t := a + b;
      assert t[0] == a[0] && t[1..] == a[1..] + b && BreakAt(t) == BreakAt(a);
      AfterAppend(a[1..], b, if IsSpace(a[0]) then Wider(g, BreakAt(a)) else Joined);
    }
  }

  lemma TrimLinesCons(s: string)
    ensures var k := FirstIndex(s, '\n');
            TrimLines(s) == if k == |s| then TrimRight(s) else TrimRight(s[..k]) + ("\n" + TrimLines(s[k + 1..]))
  {
    hide FirstIndex, TrimRight, TrimEach, Split, Join;
    var k := FirstIndex(s, '\n');
    if k == |s| {
      SplitLast(s, k);
      TrimEachOne(s);
      JoinOne(TrimRight(s));
    } else {
      SplitFirst(s, k);
      var rest := Split(s[k + 1..], '\n');
      TrimEachCons(s[..k], rest);
      JoinCons(TrimRight(s[..k]), TrimEach(rest));
    }
  }

  lemma TrimEachOne(s: string)
    ensures TrimEach([s]) == [TrimRight(s)]
  {
  }

  lemma JoinOne(s: string)
    ensures Join([s], '\n') == s
  {
  }

  lemma JoinCons(line: string, rest: seq<string>)
    requires rest != []
    ensures Join([line] + rest, '\n') == line + ("\n" + Join(rest, '\n'))
  {
    hide Join;
    var parts := [line] + rest;
    assert parts[1..] == rest && parts[0] == line && |parts| >= 2;
    JoinMany(parts);
    assert line + ['\n'] + Join(rest, '\n') == line + ("\n" + Join(rest, '\n'));
  }

  lemma JoinMany(parts: seq<string>)
    requires |parts| >= 2
    ensures Join(parts, '\n') == parts[0] + ['\n'] + Join(parts[1..], '\n')
  {
  }

  lemma NewlineShape(t: string, g: Gap)
    ensures Shape("\n" + t, g) == Shape(t, Wider(g, true))
  {
    var u := "\n" + t;
    assert u[1..] == t && BreakAt(u);
  }

  lemma {:induction false} LinesKeepShape(s: string, g: Gap)
    requires '\r' !in s
    ensures Shape(TrimLines(s), g) == Shape(s, g)
    decreases |s|
  {
    hide TrimLines, FirstIndex, Shape, TrimRight;
    var k := FirstIndex(s, '\n');
    TrimLinesCons(s);
    if k == |s| {
      TrimKeepsShape(s, g);
    } else {
      var line, rest := s[..k], s[k + 1..];
      assert s == line + ("\n" + rest);
      TrimKeepsShape(line, g);
      LinesKeepShape(rest, Wider(After(line, g), true));
      ShapeAppend(TrimRight(line), "\n" + TrimLines(rest), g);
      ShapeAppend(line, "\n" + rest, g);
      NewlineShape(TrimLines(rest), After(TrimRight(line), g));
      NewlineShape(rest, After(line, g));
    }
  }

  lemma TwoBreaks(t: string, g: Gap)
    requires |t| > 1 && t[0] == '\n' && t[1] == '\n'
    ensures Shape(t, Wider(g, true)) == Shape(t, g)
  {
    var u := t[1..];
    assert BreakAt(t) && BreakAt(u);
    assert Shape(t, g) == Shape(u[1..], Wider(Wider(g, true), true));
    assert Wider(Wider(Wider(g, true), true), true) == Wider(Wider(g, true), true);
  }

  lemma {:induction false} GapsStartWithTwo(s: string)
    requires |s| > 1 && s[0] == '\n' && s[1] == '\n'
    ensures var t := ShortGaps(s); |t| > 1 && t[0] == '\n' && t[1] == '\n'
    decreases |s|
  {
    if |s| > 2 && s[2] == '\n' {
      GapsStartWithTwo(s[1..]);
    } else {
      GapsStart(s[1..]);
    }
  }

  lemma GapsStart(s: string)
    requires s != "" && s[0] == '\n' && (|s| > 1 ==> s[1] != '\n')
    ensures ShortGaps(s) != "" && ShortGaps(s)[0] == '\n'
  {
  }

  lemma {:induction false} GapsKeepShape(s: string, g: Gap)
    requires '\r' !in s
    ensures Shape(ShortGaps(s), g) == Shape(s, g)
    decreases |s|
  {
    if s != "" {
      var rest := s[1..];
      if |s| > 2 && s[0] == '\n' && s[1] == '\n' && s[2] == '\n' {
        GapsKeepShape(rest, Wider(g, true));
        GapsStartWithTwo(rest);
        TwoBreaks(ShortGaps(rest), g);
      } else {
        var t := [s[0]] + ShortGaps(rest);
        assert t[1..] == ShortGaps(rest) && BreakAt(t) == BreakAt(s);
        GapsKeepShape(rest, Wider(g, BreakAt(s)));
        GapsKeepShape(rest, Joined);
      }
    }
  }

  lemma {:induction false} StripLeftKeepsShape(s: string)
    ensures Shape(StripLeft(s), Front) == Shape(s, Front)
    decreases |s|
  {
    if s != "" && IsSpace(s[0]) { StripLeftKeepsShape(s[1..]); }
  }

  lemma {:induction false} StripRightKeepsShape(s: string, g: Gap)
    requires '\r' !in s
    ensures Shape(StripRight(s), g) == Shape(s, g)
    decreases |s|
  {
    var n := |s|;
    if s != "" && IsSpace(s[n - 1]) {
      var init, last := s[..n - 1], [s[n - 1]];
      assert s == init + last;
      StripRightKeepsShape(init, g);
      ShapeAppend(init, last, g);
      assert last[1..] == "" && Shape(last, After(init, g)) == "";
    }
  }

  /** No pass but the first meets a carriage return. */
  lemma PassesAreClean(s: string)
    ensures var plain := PlainSpaces(UnixLines(s));
            '\r' !in plain && '\r' !in SingleBlanks(plain)
            && '\r' !in TrimLines(SingleBlanks(plain)) && '\r' !in ShortGaps(TrimLines(SingleBlanks(plain)))
  {
    hide SingleBlanks, TrimEach, Split, Join, ShortGaps, UnixLines;
    var plain := PlainSpaces(UnixLines(s));
    CarriageReturnsGone(s);
    assert forall i | 0 <= i < |plain| :: UnixLines(s)[i] in UnixLines(s);
    assert forall c | c in plain :: c != '\r' && !IsFixedSpace(c);
    SingleBlanksResult(plain);
    var single := SingleBlanks(plain);
    SplitTrims(single);
    JoinTrimmed(TrimEach(Split(single, '\n')));
    ShortGapsResult(TrimLines(single));
  }

  lemma StripKeepsShape(s: string)
    requires '\r' !in s
    ensures Shape(Strip(s), Front) == Shape(s, Front)
  {
    StripLeftSplits(s);
    StripLeftKeepsShape(s);
    StripRightKeepsShape(StripLeft(s), Front);
  }

  /**
   Normalising keeps every visible character in its place: between two of them there
   is white space after it exactly when there was before, one line break exactly
   when there was one, and an empty line exactly when there were more.
  */
  lemma NormalizingKeepsTheText(s: string)
    ensures Shape(Normalized(s), Front) == Shape(s, Front)
  {
    PassesAreClean(s);
    hide *;
    var unix := UnixLines(s);
    UnixKeepsShape(s, Front);
    PlainKeepsShape(unix, Front);
    BlanksKeepShape(PlainSpaces(unix), Front);
    var single := SingleBlanks(PlainSpaces(unix));
    LinesKeepShape(single, Front);
    GapsKeepShape(TrimLines(single), Front);
    StripKeepsShape(ShortGaps(TrimLines(single)));
    NormalizedIs(s);
  }

  lemma NormalizedIs(s: string)
    ensures Normalized(s) == Strip(ShortGaps(TrimLines(SingleBlanks(PlainSpaces(UnixLines(s))))))
  {
  }
}
