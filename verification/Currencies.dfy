/**
 Which currency an amount is read in, written out: the codes, the symbols and the
 prefixed dollar signs of app/services/parsing.py.
*/
module Currencies {
  import opened Schema
  import opened Text
  import opened Amounts
  import opened AmountLaws

  // ---- the tables ---------------------------------------------------------------

  /** The sixteen codes the reader knows and the seven whose sign is the dollar. */
  lemma CodesAre(c: string)
    ensures KnownCode(c) <==>
            || c == "USD" || c == "EUR" || c == "GBP" || c == "CAD" || c == "AUD" || c == "NZD" || c == "JPY"
            || c == "CHF" || c == "SEK" || c == "NOK" || c == "DKK" || c == "ZAR" || c == "INR" || c == "MXN"
            || c == "SGD" || c == "HKD"
    ensures DollarCode(c) <==>
            || c == "USD" || c == "CAD" || c == "AUD" || c == "NZD" || c == "SGD" || c == "HKD" || c == "MXN"
  {
    if |c| == 3 { assert c == [c[0], c[1], c[2]]; }
  }

  /** The default is taken in capitals, and is US dollars when empty. */
  lemma DefaultIs(default: string)
    ensures default == "" ==> DefaultCode(default) == "USD"
    ensures default != "" ==> |DefaultCode(default)| == |default|
    ensures forall i | 0 <= i < |default| ::
              && SameLetter(DefaultCode(default)[i], default[i]) && !('a' <= DefaultCode(default)[i] <= 'z')
  {
  }

  /** A pair of a prefix and its currency. */
  predicate Prefixes(p: string, c: string) {
    || (p == "CA$" && c == "CAD") || (p == "C$" && c == "CAD")
    || (p == "US$" && c == "USD") || (p == "U$" && c == "USD")
    || (p == "AU$" && c == "AUD") || (p == "A$" && c == "AUD")
    || (p == "NZ$" && c == "NZD")
    || (p == "SG$" && c == "SGD") || (p == "S$" && c == "SGD")
    || (p == "HK$" && c == "HKD")
    || (p == "MX$" && c == "MXN")
    || (p == "R$" && c == "BRL")
    || (p == "NT$" && c == "TWD")
  }

  // ---- prefixed dollar signs --------------------------------------------------------

  /** Two or more letters are missing for a code everywhere. */
  lemma {:induction false} NoCodeAnywhere(s: string, i: nat)
    requires forall j | i <= j && j + 3 <= |s| :: !IsLetter(s[j]) || !IsLetter(s[j + 1]) || !IsLetter(s[j + 2])
    ensures FindCode(s, i) == -1
    decreases |s| - i
  {
    hide Boundary, KnownCode;
    if i + 3 <= |s| {
      var u := UpperText(s[i..i + 3]);
      assert u[0] == Upper(s[i]) && u[1] == Upper(s[i + 1]) && u[2] == Upper(s[i + 2]);
      CodeIsLetters(u);
      NoCodeAnywhere(s, i + 1);
    }
  }

  lemma CodeIsLetters(c: string)
    ensures KnownCode(c) ==> |c| == 3 && IsLetter(c[0]) && IsLetter(c[1]) && IsLetter(c[2])
  {
    CodesAre(c);
  }

  /** Letters, then a dollar sign. */
  predicate PrefixShaped(p: string) {
    2 <= |p| <= 3 && p[|p| - 1] == '$' && forall i | 0 <= i < |p| - 1 :: IsCapital(p[i])
  }

  lemma TableShape(n: nat)
    requires n < PREFIXES
    ensures PrefixShaped(Prefix(n).0) && (n < 8 ==> |Prefix(n).0| == 3) && (n >= 8 ==> |Prefix(n).0| == 2)
  {
  }

  /** A longer prefix is never hidden by a shorter one before it, and no two are the same. */
  lemma TableIsInOrder(k: nat, n: nat)
    requires k < n < PREFIXES
    ensures Prefix(k).0 != Prefix(n).0 && |Prefix(k).0| >= |Prefix(n).0|
  {
    TableShape(k);
    TableShape(n);
    assert Prefix(k).0[0] != Prefix(n).0[0] || Prefix(k).0[1] != Prefix(n).0[1];
  }

  lemma TableHas(p: string, c: string) returns (n: nat)
    requires Prefixes(p, c)
    ensures n < PREFIXES && Prefix(n) == (p, c)
  {
    n := if p == "CA$" then 0 else if p == "US$" then 1 else if p == "AU$" then 2 else if p == "NZ$" then 3
         else if p == "SG$" then 4 else if p == "HK$" then 5 else if p == "MX$" then 6 else if p == "NT$" then 7
         else if p == "C$" then 8 else if p == "U$" then 9 else if p == "A$" then 10 else if p == "S$" then 11 else 12;
  }

  /** Where the only dollar sign of such an amount stands, and that no letter stands anywhere but in the prefix. */
  lemma OneDollar(sign: string, p: string, s: string)
    requires (sign == "" || sign == "-") && PrefixShaped(p) && NumberText(s)
    ensures var t, k := sign + p + s, |sign| + |p| - 1;
            && (forall x | 0 <= x < |t| && t[x] == '$' :: x == k)
            && (forall x | 0 <= x < |t| && IsLetter(t[x]) :: |sign| <= x < k)
            && (forall x | |sign| <= x <= k :: t[x] == p[x - |sign|])
  {
    var t, k := sign + p + s, |sign| + |p| - 1;
    forall x | k < x < |t| ensures t[x] != '$' && !IsLetter(t[x]) { assert t[x] == s[x - k - 1] && t[x] in s; }
  }

  lemma OccursMeans(t: string, q: string, i: int, x: nat)
    requires OccursAt(UpperText(t), q, i) && x < |q|
    ensures 0 <= i && i + x < |t| && Upper(t[i + x]) == q[x]
  {
    assert UpperText(t)[i..i + |q|][x] == UpperText(t)[i + x];
  }

  /** In a number with one prefixed dollar sign, a prefix no shorter than that one occurs only as that one. */
  lemma OccursOnlyThere(sign: string, p: string, s: string, q: string, i: nat)
    requires (sign == "" || sign == "-") && PrefixShaped(p) && NumberText(s)
    requires PrefixShaped(q) && |q| >= |p| && OccursAt(UpperText(sign + p + s), q, i)
    ensures q == p && i == |sign|
  {
    OneDollar(sign, p, s);
    EndsMatch(sign + p + s, q, i);
    hide OccursAt, NumberText, Upper, UpperText;
    SameThere(sign, p, s, q);
  }

  lemma EndsMatch(t: string, q: string, i: nat)
    requires PrefixShaped(q) && OccursAt(UpperText(t), q, i)
    ensures i + |q| <= |t| && t[i + |q| - 1] == '$' && IsLetter(t[i])
  {
    OccursMeans(t, q, i, 0);
    OccursMeans(t, q, i, |q| - 1);
    hide OccursAt;
  }

  lemma SameThere(sign: string, p: string, s: string, q: string)
    requires PrefixShaped(p) && PrefixShaped(q) && |q| == |p| && OccursAt(UpperText(sign + p + s), q, |sign|)
    ensures q == p
  {
    var t := sign + p + s;
    forall x: nat | x < |q| ensures q[x] == p[x] {
      OccursMeans(t, q, |sign|, x);
      assert t[|sign| + x] == p[x];
    }
  }

  lemma PrefixIsThere(sign: string, p: string, s: string)
    requires PrefixShaped(p)
    ensures OccursAt(UpperText(sign + p + s), p, |sign|)
  {
    var t := sign + p + s;
    assert forall x | 0 <= x < |p| :: UpperText(t)[|sign| + x] == p[x];
    assert UpperText(t)[|sign|..|sign| + |p|] == p;
  }

  lemma {:induction false} SkipsPrefixes(t: string, m: nat, n: nat)
    requires m <= n < PREFIXES && Find(UpperText(t), Prefix(n).0) >= 0
    requires forall k | m <= k < n :: Find(UpperText(t), Prefix(k).0) < 0
    ensures var k := Find(UpperText(t), Prefix(n).0);
            DetectPrefixed(t, m) == Some((Cut(t, k, |Prefix(n).0|), Prefix(n).1))
    decreases n - m
  {
    hide Cut, Prefix;
    if m < n { SkipsPrefixes(t, m + 1, n); }
  }

  lemma FoundAt(sign: string, p: string, s: string)
    requires (sign == "" || sign == "-") && PrefixShaped(p) && NumberText(s)
    ensures Find(UpperText(sign + p + s), p) == |sign|
  {
    var u := UpperText(sign + p + s);
    PrefixIsThere(sign, p, s);
    var k := Find(u, p);
    OccursOnlyThere(sign, p, s, p, k);
  }

  lemma DetectPrefixedSign(sign: string, p: string, c: string, s: string)
    requires (sign == "" || sign == "-") && Prefixes(p, c) && NumberText(s)
    ensures DetectPrefixed(sign + p + s, 0) == Some((sign + s, c))
  {
    hide NumberText, PrefixShaped;
    var t := sign + p + s;
    var n := TableHas(p, c);
    TableShape(n);
    FoundAt(sign, p, s);
    forall k | 0 <= k < n ensures Find(UpperText(t), Prefix(k).0) < 0 {
      TableShape(k);
      TableIsInOrder(k, n);
      var i := Find(UpperText(t), Prefix(k).0);
      if i >= 0 { OccursOnlyThere(sign, p, s, Prefix(k).0, i); }
    }
    hide Prefix;
    SkipsPrefixes(t, 0, n);
    assert t[..|sign|] == sign && t[|sign| + |p|..] == s;
    NumberIsUndecorated(s);
    if sign == "" { assert sign + s == s; } else { assert sign + s == "-" + s; }
    StripTight(sign + s);
  }

  lemma PrefixIsNoCode(sign: string, p: string, s: string)
    requires (sign == "" || sign == "-") && PrefixShaped(p) && NumberText(s)
    ensures FindCode(sign + p + s, 0) == -1
  {
    var t := sign + p + s;
    OneDollar(sign, p, s);
    hide NumberText;
    assert forall j | 0 <= j && j + 3 <= |t| :: !IsLetter(t[j]) || !IsLetter(t[j + 1]) || !IsLetter(t[j + 2]);
    NoCodeAnywhere(t, 0);
  }

  lemma PairIsShaped(p: string, c: string)
    requires Prefixes(p, c)
    ensures PrefixShaped(p)
  {
  }

  lemma PrefixedIsPlain(sign: string, p: string, c: string, s: string)
    requires (sign == "" || sign == "-") && Prefixes(p, c) && NumberText(s)
    ensures var t := sign + p + s; Tight(t) && t[0] != '(' && forall x | x in t :: !IsFixedSpace(x)
  {
    NumberIsUndecorated(s);
    var t := sign + p + s;
    assert forall x | x in t :: x in sign || x in p || x in s;
    assert t[|t| - 1] == s[|s| - 1];
  }

  /**
   A prefixed dollar sign names its own currency, whatever the default and the
   sign: the thirteen prefixes of `Prefixes`, before any spelling of a number.
  */
  lemma PrefixedDollar(sign: string, p: string, c: string, s: string, minor: nat, default: string)
    requires (sign == "" || sign == "-") && Prefixes(p, c) && Spells(s, minor)
    ensures AmountOf(sign + p + s, default) == Success((Signed(sign == "-", minor), c))
  {
    NumberIsUndecorated(s);
    hide AmountOf, Reading, SignedReading, Prefixes, PrefixShaped, DetectPrefixed, FindCode;
    var t := sign + p + s;
    PairIsShaped(p, c);
    PrefixIsNoCode(sign, p, s);
    DetectPrefixedSign(sign, p, c, s);
    assert DetectCurrency(t, default) == (sign + s, c);
    PrefixedIsPlain(sign, p, c, s);
    AmountOfTight(t, default, sign + s, c);
    if sign == "-" {
      MinusBefore(s);
      assert sign + s == "-" + s;
    } else {
      assert sign + s == s;
      Unsigned(s);
    }
  }

  // ---- bare symbols ---------------------------------------------------------------------

  /** The currency of a bare symbol: a dollar sign is the default's if that is a dollar, else the US dollar's. */
  function CodeOfSign(x: char, default: string): string {
    if x == '\U{a3}' then "GBP"
    else if x == '\U{20ac}' then "EUR"
    else if x == '\U{a5}' then "JPY"
    else if x == '\U{20b9}' then "INR"
    else if default in {"USD", "CAD", "AUD", "NZD", "SGD", "HKD", "MXN"} then default
    else "USD"
  }

  lemma SignHas(x: char, default: string) returns (n: nat)
    requires x in {'$', '\U{a3}', '\U{20ac}', '\U{a5}', '\U{20b9}'}
    ensures n < SYMBOLS && Symbol(n).0 == x && SymbolCode(n, default) == CodeOfSign(x, default)
  {
    CodesAre(default);
    hide KnownCode, DollarCode;
    n := if x == '$' then 0 else if x == '\U{a3}' then 1 else if x == '\U{20ac}' then 2
         else if x == '\U{a5}' then 3 else 4;
  }

  /** One of the five symbols before a number, under every default. */
  lemma BareSymbol(sign: string, x: char, s: string, minor: nat, default: string)
    requires (sign == "" || sign == "-") && Spells(s, minor)
    requires x in {'$', '\U{a3}', '\U{20ac}', '\U{a5}', '\U{20b9}'}
    ensures AmountOf(sign + [x] + s, default)
            == Success((Signed(sign == "-", minor), CodeOfSign(x, DefaultCode(default))))
  {
    hide AmountOf, Spells, DefaultCode, CodeOfSign, Symbol, SymbolCode;
    var n := SignHas(x, DefaultCode(default));
    SymbolPrefix(sign, n, s, minor, default);
  }

  // ---- codes and signs elsewhere ------------------------------------------------------------

  /** A known code before the number, in any mixture of cases, is answered in capitals. */
  lemma CodeInFront(c: string, s: string, minor: nat, default: string)
    requires KnownCode(UpperText(c)) && Spells(s, minor)
    ensures AmountOf(c + " " + s, default) == Success((minor as int, UpperText(c)))
  {
    hide AmountOf, Reading, SignedReading;
    var t := c + " " + s;
    FrontCodeIsCut(c, s, default);
    FrontCodeIsPlain(c, s);
    AmountOfTight(t, default, s, UpperText(c));
    NumberIsUndecorated(s);
    Unsigned(s);
  }

  lemma FrontCodeIsCut(c: string, s: string, default: string)
    requires KnownCode(UpperText(c)) && NumberText(s)
    ensures DetectCurrency(c + " " + s, default) == (s, UpperText(c))
  {
    var t := c + " " + s;
    CodeIsLetters(UpperText(c));
    hide KnownCode;
    assert |c| == 3;
    assert UpperText(c)[0] == Upper(c[0]) && UpperText(c)[2] == Upper(c[2]);
    assert t[0..3] == c;
    assert CodeAt(t, 0);
    assert t[..0] + t[3..] == " " + s;
    NumberIsUndecorated(s);
    StripBlank(s);
  }

  lemma StripBlank(s: string)
    requires s != "" && Tight(s)
    ensures Strip(" " + s) == s
  {
    assert (" " + s)[1..] == s;
    StripTight(s);
  }

  lemma FrontCodeIsPlain(c: string, s: string)
    requires KnownCode(UpperText(c)) && NumberText(s)
    ensures var t := c + " " + s; Tight(t) && t[0] != '(' && forall x | x in t :: !IsFixedSpace(x)
  {
    var t := c + " " + s;
    CodeIsLetters(UpperText(c));
    hide KnownCode;
    NumberIsUndecorated(s);
    assert UpperText(c)[0] == Upper(c[0]) && UpperText(c)[1] == Upper(c[1]) && UpperText(c)[2] == Upper(c[2]);
    assert forall x | x in t :: x == c[0] || x == c[1] || x == c[2] || x == ' ' || x in s;
    assert t[|t| - 1] == s[|s| - 1] && t[0] == c[0];
  }

  /** A plus sign changes nothing. */
  lemma PlusSign(s: string, minor: nat, default: string)
    requires Spells(s, minor)
    ensures AmountOf("+" + s, default) == Success((minor as int, DefaultCode(default)))
  {
    hide AmountOf, Reading;
    var t := "+" + s;
    NumberIsUndecorated(s);
    assert Undecorated(t) && Tight(t);
    DetectNone(t, default);
    StripTight(t);
    AmountOfTight(t, default, t, DefaultCode(default));
    assert t[1..] == s;
    StripTight(s);
    ReadingStartsAtFirst(s);
  }

  /** Between a word and the number, a minus sign or an opening parenthesis negates and nothing else does. */
  lemma InnerSign(x: char, s: string, minor: nat, default: string)
    requires Numeral(s) && Spells(s, minor) && !InRun(x) && !IsSpace(x) && !IsLetter(x) && !IsSymbol(x)
    ensures AmountOf("x" + [x] + s, default)
            == Success((if x == '-' || x == '(' then -(minor as int) else minor, DefaultCode(default)))
  {
    InnerText(x, s);
    ReadNumeral(s);
    ReadInside(x, s);
    hide *;
    AmountOfWord("x" + [x] + s, default);
    AssembleInner(x, minor, DefaultCode(default));
  }

  lemma AssembleInner(x: char, minor: nat, currency: string)
    ensures Assemble(false, Some((x == '-' || x == '(', minor)), currency)
            == Success((if x == '-' || x == '(' then -(minor as int) else minor, currency))
  {
  }

  lemma AmountOfWord(t: string, default: string)
    requires OneWord(t) && forall c | c in t :: !IsFixedSpace(c)
    ensures AmountOf(t, default) == Assemble(false, Reading(t), DefaultCode(default))
  {
    WordIsNoCode(t, default);
    AmountOfTight(t, default, t, DefaultCode(default));
    hide *;
    NoSignOutside(t);
  }

  lemma NoSignOutside(t: string)
    requires OneWord(t)
    ensures SignedReading(t) == Reading(t)
  {
    hide Reading;
  }

  /** Nothing in the text is a letter but its first character, or a symbol. */
  predicate OneWord(t: string) {
    && |t| >= 3 && t[0] == 'x' && Tight(t) && IsDigit(t[|t| - 1])
    && forall i | 0 < i < |t| :: !IsLetter(t[i]) && !IsSymbol(t[i]) && !IsFixedSpace(t[i])
  }

  lemma InnerText(x: char, s: string)
    requires NumberText(s) && !IsSpace(x) && !IsLetter(x) && !IsSymbol(x)
    ensures OneWord("x" + [x] + s)
    ensures forall c | c in "x" + [x] + s :: !IsFixedSpace(c)
  {
    var t := "x" + [x] + s;
    NumberIsUndecorated(s);
    hide NumberText, IsSymbol;
    assert t[|t| - 1] == s[|s| - 1];
    forall i | 0 < i < |t| ensures !IsLetter(t[i]) && !IsSymbol(t[i]) && !IsFixedSpace(t[i]) {
      if i > 1 { assert t[i] == s[i - 2] && t[i] in s; }
    }
  }

  lemma WordIsNoCode(t: string, default: string)
    requires OneWord(t)
    ensures DetectCurrency(t, default) == (t, DefaultCode(default))
  {
    LetterIsNoSymbol('x');
    assert forall i | 0 <= i < |t| :: !IsSymbol(t[i]);
    NoSymbolIn(t);
    NoCodeAnywhere(t, 0);
    NoPrefix(t, 0);
    NoSymbol(t, 0, DefaultCode(default));
    StripTight(t);
    NothingDetected(t, default);
  }

  lemma ReadInside(x: char, s: string)
    requires Numeral(s) && !InRun(x) && !IsSpace(x)
    ensures Reading("x" + [x] + s)
            == match MinorUnits(s) case None => None case Some(m) => Some((x == '-' || x == '(', m))
  {
    hide MinorUnits;
    var t := "x" + [x] + s;
    NumeralHasNoSpace(s);
    assert forall y | y in t :: y == 'x' || y == x || y in s;
    CloseNothing(t, false);
    RunOfNumeral(s, "");
    assert s + "" == s && t[2..] == s && t[0] == 'x' && t[1] == x;
    RunLater(t, s);
  }

  lemma RunLater(t: string, s: string)
    requires |t| == |s| + 2 && t[2..] == s && !InRun(t[0]) && !InRun(t[1]) && Numeral(s)
    ensures NumberRun(t, 0) == Some((2, s))
  {
    var n := RunLength(t[2..]);
    assert n == |s| by { assert forall i | 0 <= i < |s| :: s[i] in s; }
    assert t[2..2 + n] == s;
    assert NumberRun(t, 2) == Some((2, s));
  }

  // ---- printing -----------------------------------------------------------------------------

  /** A comma stands before every third digit from the right, and nowhere else. */
  lemma {:induction false} GroupedIs(w: nat, sep: char, i: nat)
    requires !IsDigit(sep) && i < |Grouped(w, sep)|
    ensures Remove(Grouped(w, sep), sep) == Decimal(w)
    ensures Grouped(w, sep)[|Grouped(w, sep)| - 1 - i] == sep <==> i % 4 == 3
    decreases w
  {
    hide Decimal, Padded, Remove;
    UngroupedDigits(w, sep);
    var g := Grouped(w, sep);
    if w < 1000 {
      ShortDecimal(w);
      assert g[|g| - 1 - i] in g;
    } else {
      var h, p := Grouped(w / 1000, sep), Padded(w % 1000, 3);
      assert g == h + [sep] + p && |p| == 3;
      if i < 3 {
        assert g[|g| - 1 - i] == p[2 - i] && p[2 - i] in p;
      } else if i > 3 {
        GroupedIs(w / 1000, sep, i - 4);
        assert g[|g| - 1 - i] == h[|h| - 1 - (i - 4)];
      }
    }
  }

  lemma ShortDecimal(w: nat)
    requires w < 1000
    ensures |Decimal(w)| <= 3
  {
    if w >= 10 {
      assert Decimal(w) == Decimal(w / 10) + [Digit(w % 10)];
      if w >= 100 { assert Decimal(w / 10) == Decimal(w / 10 / 10) + [Digit(w / 10 % 10)]; }
    }
  }

  /**
   What is printed: the sign, the symbol if the currency has one, the whole part in
   groups of three, a point and two digits, and the code behind if there is no symbol.
  */
  lemma MoneyIs(n: int, currency: string)
    ensures var m := if n < 0 then -n else n;
            var body := Grouped(m / 100, ',') + "." + Decimal(m % 100 / 10) + Decimal(m % 10);
            var sign, c := (if n < 0 then "-" else ""), UpperText(currency);
            Money(n, currency) ==
              if c == "USD" || c == "CAD" || c == "AUD" || c == "NZD" then sign + "$" + body
              else if c == "GBP" then sign + "\U{a3}" + body
              else if c == "EUR" then sign + "\U{20ac}" + body
              else if c == "JPY" then sign + "\U{a5}" + body
              else if c == "INR" then sign + "\U{20b9}" + body
              else sign + body + " " + c
  {
    var m := Magnitude(n);
    CentsAre(m, Grouped(m / 100, ','));
    hide Grouped, Decimal, Padded, UpperText, Cents;
  }

  /** The plain form has no symbol and no groups. */
  lemma MoneyPlainIs(n: int)
    ensures var m := if n < 0 then -n else n;
            MoneyPlain(n)
            == (if n < 0 then "-" else "") + (Decimal(m / 100) + "." + Decimal(m % 100 / 10) + Decimal(m % 10))
  {
    var m := Magnitude(n);
    CentsAre(m, Decimal(m / 100));
    hide Decimal, Padded, Cents;
    assert (if n < 0 then "-" else "") + Decimal(m / 100) + Cents(m)
        == (if n < 0 then "-" else "") + (Decimal(m / 100) + Cents(m));
  }

  lemma CentsAre(m: nat, whole: string)
    ensures whole + Cents(m) == whole + "." + Decimal(m % 100 / 10) + Decimal(m % 10)
  {
    TwoDigits(m);
    hide Decimal, Padded;
  }

  lemma TwoDigits(m: nat)
    ensures Padded(m % 100, 2) == Decimal(m % 100 / 10) + Decimal(m % 10)
  {
    var r := m % 100;
    assert r % 10 == m % 10;
    assert Padded(r, 2) == Padded(r / 10, 1) + [Digit(r % 10)];
    assert Padded(r / 10, 1) == Padded(r / 10 / 10, 0) + [Digit(r / 10 % 10)];
    assert Decimal(r / 10) == [Digit(r / 10)] && Decimal(m % 10) == [Digit(m % 10)];
  }
}
