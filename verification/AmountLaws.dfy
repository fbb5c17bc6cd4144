/**
 What the amount reader promises: it inverts the printers, it reads every
 regional spelling of a number alike, every way of writing a negative negates,
 and digits beyond the cents round half away from zero.
*/
module AmountLaws {
  import opened Schema
  import opened Text
  import opened Amounts

  /** A number as people write it: digits, separators and spaces, a digit at both ends. */
  predicate NumberText(s: string) {
    s != "" && IsDigit(s[0]) && IsDigit(s[|s| - 1]) && forall c | c in s :: InRun(c) || c == ' '
  }

  /** A number text without spaces. */
  predicate Numeral(s: string) {
    NumberText(s) && forall c | c in s :: InRun(c)
  }

  /** `s` is a spelling of `minor` hundredths. */
  predicate Spells(s: string, minor: nat) {
    NumberText(s) && Reading(s) == Some((false, minor))
  }

  // ---- currency detection -----------------------------------------------------

  lemma {:induction false} NoCodeBefore(s: string, i: nat, k: nat)
    requires i <= k <= |s|
    requires forall j | i <= j < k :: !IsLetter(s[j])
    ensures FindCode(s, i) == FindCode(s, k)
    decreases k - i
  {
    if i < k {
      NoCodeBefore(s, i + 1, k);
      if i + 3 <= |s| {
        var u := UpperText(s[i..i + 3]);
        assert !IsLetter(u[0]);
      }
    }
  }

  predicate IsSymbol(c: char) {
    exists n: nat | n < SYMBOLS :: Symbol(n).0 == c
  }

  predicate Undecorated(s: string) {
    forall c | c in s :: !IsLetter(c) && !IsSymbol(c)
  }

  lemma DetectNone(s: string, default: string)
    requires Undecorated(s)
    ensures DetectCurrency(s, default) == (Strip(s), DefaultCode(default))
  {
    NoCodeBefore(s, 0, |s|);
    assert IsSymbol('$') by { assert Symbol(0).0 == '$'; }
    NoPrefix(s, 0);
    NoSymbol(s, 0, DefaultCode(default));
  }

  lemma NumberIsUndecorated(s: string)
    requires NumberText(s)
    ensures Undecorated(s) && Undecorated("-" + s) && Undecorated(s + "-")
    ensures Tight(s) && Tight("-" + s) && Tight(s + "-")
    ensures forall c | c in s :: !IsFixedSpace(c)
  {
  }

  lemma {:induction false} DetectSymbolAt(t: string, m: nat, n: nat, default: string)
    requires m <= n < SYMBOLS && Symbol(n).0 in t
    requires forall k | m <= k < n :: Symbol(k).0 !in t
    ensures DetectSymbol(t, m, default) == (Strip(Remove(t, Symbol(n).0)), SymbolCode(n, default))
    decreases n - m
  {
    if m < n { DetectSymbolAt(t, m + 1, n, default); }
  }

  lemma RemoveSymbol(sign: string, symbol: char, s: string)
    requires symbol !in s && symbol !in sign
    ensures Remove(sign + [symbol] + s, symbol) == sign + s
  {
    RemoveAppend(sign + [symbol], s, symbol);
    RemoveAppend(sign, [symbol], symbol);
  }

  /** Only the n-th symbol occurs, and there are no letters. */
  predicate OnlySymbol(t: string, n: nat)
    requires n < SYMBOLS
  {
    Symbol(n).0 in t && forall i | 0 <= i < |t| :: !IsLetter(t[i]) && (IsSymbol(t[i]) ==> t[i] == Symbol(n).0)
  }

  lemma DetectOnlySymbol(t: string, n: nat, default: string)
    requires n < SYMBOLS && OnlySymbol(t, n)
    ensures DetectCurrency(t, default) == (Strip(Remove(t, Symbol(n).0)), SymbolCode(n, DefaultCode(default)))
  {
    hide Strip, Remove, SymbolCode, DefaultCode, KnownCode, Prefix;
    NoCodeBefore(t, 0, |t|);
    NoPrefix(t, 0);
    forall k | 0 <= k < n ensures Symbol(k).0 !in t {
      assert Symbol(k).0 != Symbol(n).0 && IsSymbol(Symbol(k).0);
    }
    DetectSymbolAt(t, 0, n, DefaultCode(default));
  }

  lemma DetectOneSymbol(sign: string, n: nat, s: string, default: string)
    requires (sign == "" || sign == "-") && n < SYMBOLS && NumberText(s)
    ensures DetectCurrency(sign + [Symbol(n).0] + s, default) == (sign + s, SymbolCode(n, DefaultCode(default)))
  {
    hide DetectCurrency, SymbolCode, DefaultCode;
    var t := sign + [Symbol(n).0] + s;
    NumberIsUndecorated(s);
    assert OnlySymbol(t, n) by {
      assert t[|sign|] == Symbol(n).0;
      forall i | 0 <= i < |t| ensures !IsLetter(t[i]) && (IsSymbol(t[i]) ==> t[i] == Symbol(n).0) {
        if i > |sign| { assert t[i] == s[i - |sign| - 1] && t[i] in s; }
      }
    }
    DetectOnlySymbol(t, n, default);
    assert IsSymbol(Symbol(n).0);
    RemoveSymbol(sign, Symbol(n).0, s);
    if sign == "" { assert sign + s == s; } else { assert sign + s == "-" + s; }
    StripTight(sign + s);
  }

  // ---- reading ------------------------------------------------------------------

  lemma {:induction false} ToLastDigitKeepsFirst(p: string)
    requires p != "" && IsDigit(p[0])
    ensures ToLastDigit(p) != ""
    decreases |p|
  {
    if !IsDigit(p[|p| - 1]) {
      ToLastDigitKeepsFirst(p[..|p| - 1]);
    }
  }

  /** A number text is read from its first digit, so nothing stands before it. */
  lemma ReadingStartsAtFirst(s: string)
    requires s != "" && IsDigit(s[0])
    ensures Reading(s).Some? ==> !Reading(s).value.0
  {
    var t := CloseGaps(s, false);
    assert t[0] == s[0];
    assert t[0..] == t;
    var n := RunLength(t[0..]);
    assert n > 0;
    ToLastDigitKeepsFirst(t[0..0 + n]);
  }

  lemma {:induction false} CloseNothing(s: string, afterDigit: bool)
    requires forall c | c in s :: !IsSpace(c)
    ensures CloseGaps(s, afterDigit) == s
    decreases |s|
  {
    if s != "" {
      CloseNothing(s[1..], IsDigit(s[0]));
      assert s == [s[0]] + s[1..];
    }
  }

  lemma NumeralHasNoSpace(s: string)
    requires forall c | c in s :: InRun(c)
    ensures forall c | c in s :: !IsSpace(c)
  {
  }

  lemma RunOfNumeral(s: string, tail: string)
    requires Numeral(s) && (tail == "" || !InRun(tail[0]))
    ensures NumberRun(s + tail, 0) == Some((0, s))
  {
    var t := s + tail;
    assert t[0..] == t;
    var n := RunLength(t[0..]);
    assert n == |s| by {
      assert forall i | 0 <= i < |s| :: t[i] == s[i] && s[i] in s;
      assert tail != "" ==> t[|s|] == tail[0];
    }
    assert t[0..0 + n] == s;
  }

  lemma ReadNumeral(s: string)
    requires Numeral(s)
    ensures Reading(s) == (match MinorUnits(s) case None => None case Some(m) => Some((false, m)))
  {
    NumeralHasNoSpace(s);
    CloseNothing(s, false);
    assert s + "" == s;
    RunOfNumeral(s, "");
  }

  // ---- signs and decorations -------------------------------------------------------

  lemma AmountOfTight(raw: string, default: string, rest: string, currency: string)
    requires Tight(raw) && raw != "" && raw[0] != '(' && forall c | c in raw :: !IsFixedSpace(c)
    requires DetectCurrency(raw, default) == (rest, currency)
    ensures AmountOf(raw, default) == Assemble(false, SignedReading(rest), currency)
  {
    StripTight(raw);
    assert PlainSpaces(raw) == raw;
  }

  lemma Unsigned(s: string)
    requires s != "" && IsDigit(s[0]) && s[|s| - 1] != '-'
    ensures SignedReading(s) == Reading(s)
  {
    ReadingStartsAtFirst(s);
  }

  /** `number` with a minus sign or parentheses around it. */
  function Negated(number: Option<(bool, nat)>): Option<(bool, nat)> {
    match number
    case None => None
    case Some((_, minor)) => Some((true, minor))
  }

  lemma MinusBefore(s: string)
    requires s != "" && IsDigit(s[0]) && s[|s| - 1] != '-' && Tight(s)
    ensures SignedReading("-" + s) == Negated(Reading(s))
  {
    assert ("-" + s)[1..] == s;
    StripTight(s);
    ReadingStartsAtFirst(s);
  }

  lemma MinusAfter(s: string)
    requires s != "" && IsDigit(s[0]) && Tight(s)
    ensures SignedReading(s + "-") == Negated(Reading(s))
  {
    assert (s + "-")[..|s|] == s;
    StripTight(s);
    ReadingStartsAtFirst(s);
  }

  lemma BareNumber(s: string, default: string)
    requires NumberText(s)
    ensures AmountOf(s, default) == Assemble(false, Reading(s), DefaultCode(default))
  {
    NumberIsUndecorated(s);
    DetectNone(s, default);
    StripTight(s);
    AmountOfTight(s, default, s, DefaultCode(default));
    Unsigned(s);
  }

  lemma LeadingMinus(s: string, default: string)
    requires NumberText(s)
    ensures AmountOf("-" + s, default) == Assemble(false, Negated(Reading(s)), DefaultCode(default))
  {
    NumberIsUndecorated(s);
    DetectNone("-" + s, default);
    StripTight("-" + s);
    AmountOfTight("-" + s, default, "-" + s, DefaultCode(default));
    MinusBefore(s);
  }

  lemma TrailingMinus(s: string, default: string)
    requires NumberText(s)
    ensures AmountOf(s + "-", default) == Assemble(false, Negated(Reading(s)), DefaultCode(default))
  {
    NumberIsUndecorated(s);
    DetectNone(s + "-", default);
    StripTight(s + "-");
    AmountOfTight(s + "-", default, s + "-", DefaultCode(default));
    MinusAfter(s);
  }

  lemma InParentheses(s: string, default: string)
    requires NumberText(s)
    ensures AmountOf("(" + s + ")", default) == Assemble(true, Reading(s), DefaultCode(default))
  {
    var t := "(" + s + ")";
    NumberIsUndecorated(s);
    StripTight(t);
    assert PlainSpaces(t) == t;
    assert t[1..|t| - 1] == s;
    StripTight(s);
    DetectNone(s, default);
    Unsigned(s);
  }

  /**
   A spelling of an amount reads as that amount, in the default currency, and a
   leading minus, a trailing minus and accounting parentheses each negate it.
  */
  lemma SpellingsAndSigns(s: string, minor: nat, default: string)
    requires Spells(s, minor)
    ensures AmountOf(s, default) == Success((minor as int, DefaultCode(default)))
    ensures AmountOf("-" + s, default) == Success((-(minor as int), DefaultCode(default)))
    ensures AmountOf(s + "-", default) == Success((-(minor as int), DefaultCode(default)))
    ensures AmountOf("(" + s + ")", default) == Success((-(minor as int), DefaultCode(default)))
  {
    hide AmountOf, Reading, NumberText, DefaultCode;
    BareNumber(s, default);
    LeadingMinus(s, default);
    TrailingMinus(s, default);
    InParentheses(s, default);
  }

  lemma SymbolPrefix(sign: string, n: nat, s: string, minor: nat, default: string)
    requires (sign == "" || sign == "-") && n < SYMBOLS && Spells(s, minor)
    ensures AmountOf(sign + [Symbol(n).0] + s, default)
            == Success((Signed(sign == "-", minor), SymbolCode(n, DefaultCode(default))))
  {
    hide AmountOf, DetectCurrency, Reading, SignedReading, SymbolCode, DefaultCode;
    var t := sign + [Symbol(n).0] + s;
    NumberIsUndecorated(s);
    DetectOneSymbol(sign, n, s, default);
    assert forall c | c in t :: c == Symbol(n).0 || c == '-' || c in s;
    AmountOfTight(t, default, sign + s, SymbolCode(n, DefaultCode(default)));
    if sign == "-" {
      MinusBefore(s);
    } else {
      assert sign + s == s;
      Unsigned(s);
    }
  }

  predicate IsCode(c: string) {
    |c| == 3 && IsCapital(c[0]) && IsCapital(c[1]) && IsCapital(c[2])
  }

  lemma UpperOfCode(c: string)
    requires IsCode(c)
    ensures UpperText(c) == c && DefaultCode(c) == c
  {
  }

  lemma DetectKnownSuffix(p: string, c: string, default: string)
    requires IsCode(c) && KnownCode(c) && p != "" && Tight(p)
    requires forall i | 0 <= i < |p| :: !IsLetter(p[i])
    ensures DetectCurrency(p + " " + c, default) == (p, c)
  {
    var t := p + " " + c;
    var k := |p| + 1;
    NoCodeBefore(t, 0, k);
    UpperOfCode(c);
    assert t[k..k + 3] == c;
    assert CodeAt(t, k);
    assert t[..k] + t[k + 3..] == p + " ";
    assert (p + " ")[..|p|] == p;
    assert StripLeft(p + " ") == p + " ";
    assert StripRight(p) == p;
  }

  lemma NoSymbolIn(t: string)
    requires forall i | 0 <= i < |t| :: !IsSymbol(t[i])
    ensures '$' !in t && forall n: nat | n < SYMBOLS :: Symbol(n).0 !in t
  {
    assert Symbol(0).0 == '$' && IsSymbol('$');
    assert forall n: nat | n < SYMBOLS :: IsSymbol(Symbol(n).0);
  }

  lemma LetterIsNoSymbol(c: char)
    requires IsLetter(c) || c == ' '
    ensures !IsSymbol(c)
  {
  }

  lemma CodedHasNoSymbol(p: string, c: string)
    requires IsCode(c) && Undecorated(p)
    ensures var t := p + " " + c; '$' !in t && forall n: nat | n < SYMBOLS :: Symbol(n).0 !in t
  {
    hide IsSymbol, Symbol;
    var t := p + " " + c;
    LetterIsNoSymbol(c[0]);
    LetterIsNoSymbol(c[1]);
    LetterIsNoSymbol(c[2]);
    LetterIsNoSymbol(' ');
    assert forall i | 0 <= i < |p| :: t[i] == p[i] && p[i] in p;
    NoSymbolIn(t);
  }

  lemma NoCodeInSuffix(p: string, c: string)
    requires IsCode(c) && !KnownCode(c) && Undecorated(p)
    ensures FindCode(p + " " + c, 0) == -1
  {
    hide KnownCode, Boundary, IsSymbol;
    var t := p + " " + c;
    var k := |p| + 1;
    forall i | 0 <= i < k ensures !IsLetter(t[i]) {
      if i < |p| { assert t[i] == p[i] && p[i] in p; }
    }
    NoCodeBefore(t, 0, k);
    UpperOfCode(c);
    assert t[k..k + 3] == c;
    assert FindCode(t, k) == -1;
  }

  lemma DetectUnknownSuffix(p: string, c: string, default: string)
    requires IsCode(c) && !KnownCode(c) && p != "" && Tight(p) && Undecorated(p)
    ensures DetectCurrency(p + " " + c, default) == (p + " " + c, DefaultCode(default))
  {
    NoCodeInSuffix(p, c);
    CodedHasNoSymbol(p, c);
    StripTight(p + " " + c);
    hide *;
    var t := p + " " + c;
    NoPrefix(t, 0);
    NoSymbol(t, 0, DefaultCode(default));
    NothingDetected(t, default);
  }

  lemma NothingDetected(t: string, default: string)
    requires FindCode(t, 0) == -1 && DetectPrefixed(t, 0).None?
    ensures DetectCurrency(t, default) == DetectSymbol(t, 0, DefaultCode(default))
  {
    hide FindCode, DetectPrefixed, DetectSymbol, DefaultCode;
  }

  lemma {:induction false} CloseBeforeWord(s: string, c: string, afterDigit: bool)
    requires IsCode(c) && forall x | x in s :: InRun(x)
    ensures CloseGaps(s + " " + c, afterDigit) == s + " " + c
    decreases |s|
  {
    var t := s + " " + c;
    if s == "" {
      assert t[1..] == c;
      assert StripLeft(t) == c;
      CloseNothing(c, false);
      assert t[..|t| - |c|] == " ";
      assert t == " " + c;
    } else {
      CloseBeforeWord(s[1..], c, IsDigit(s[0]));
      assert t[1..] == s[1..] + " " + c;
      assert s[0] in s;
      assert t == [s[0]] + t[1..];
    }
  }

  lemma ReadBeforeWord(s: string, c: string)
    requires Numeral(s) && IsCode(c)
    ensures Reading(s + " " + c) == Reading(s)
  {
    CloseBeforeWord(s, c, false);
    assert s + " " + c == s + (" " + c);
    RunOfNumeral(s, " " + c);
    ReadNumeral(s);
  }

  /**
   A code of three capitals after the number never disturbs it, whatever the
   default: a known one is taken off and answered, an unknown one is passed over
   and the default answered.
  */
  lemma CodeSuffix(sign: string, s: string, minor: nat, c: string, default: string)
    requires (sign == "" || sign == "-") && Numeral(s) && Spells(s, minor) && IsCode(c)
    ensures AmountOf(sign + s + " " + c, default)
            == Success((Signed(sign == "-", minor), if KnownCode(c) then c else DefaultCode(default)))
  {
    hide AmountOf, DetectCurrency, Reading, SignedReading, KnownCode, DefaultCode;
    var p := sign + s;
    var t := p + " " + c;
    NumberIsUndecorated(s);
    if sign == "-" { assert p == "-" + s; } else { assert p == s; }
    assert forall i | 0 <= i < |p| :: p[i] in p;
    assert forall x | x in t :: x in p || x == ' ' || x == c[0] || x == c[1] || x == c[2];
    if KnownCode(c) {
      DetectKnownSuffix(p, c, default);
      AmountOfTight(t, default, p, c);
      if sign == "-" { MinusBefore(s); } else { Unsigned(s); }
    } else {
      DetectUnknownSuffix(p, c, default);
      AmountOfTight(t, default, t, DefaultCode(default));
      var u := s + " " + c;
      ReadBeforeWord(s, c);
      if sign == "-" {
        assert t == "-" + u;
        MinusBefore(u);
      } else {
        assert t == u;
        Unsigned(u);
      }
    }
  }

  // ---- numbers with one separator -----------------------------------------------------

  lemma DecimalPoint(i: string, f: string)
    requires AllDigits(i) && AllDigits(f) && i + f != ""
    ensures AllDigits(i + f)
    ensures ToDecimal(i + "." + f) == Some((ParseNat(i + f), |f|))
  {
    ParseAppend(i, f);
    FirstSeparator(i, f, '.');
    var s := i + "." + f;
    assert s[..|i|] == i && s[|i| + 1..] == f;
  }

  lemma NoDecimalPoint(i: string)
    requires AllDigits(i) && i != ""
    ensures ToDecimal(i) == Some((ParseNat(i), 0))
  {
    assert forall j | 0 <= j < |i| :: i[j] in i;
    assert FirstIndex(i, '.') == |i|;
    assert i[..|i|] == i && i + "" == i;
  }

  /** What `round half away from zero` means: the error is at most half, ties go up. */
  lemma RoundHalfUpMeans(p: nat, q: nat, r: nat)
    requires q > 0
    ensures r == RoundHalfUp(p, q) <==> 2 * p - q < 2 * (r * q) <= 2 * p + q
  {
    var n := RoundHalfUp(p, q);
    assert 2 * q * n <= 2 * p + q < 2 * q * n + 2 * q;
    assert 2 * q * n == 2 * (n * q);
    var d: int := r - n;
    assert r * q == n * q + d * q;
    assert d >= 1 ==> d * q >= q;
    assert d <= -1 ==> d * q <= q * -1;
  }

  lemma RoundExact(m: nat)
    ensures RoundHalfUp(100 * m, 100) == m
  {
  }

  lemma RoundWhole(m: nat)
    ensures RoundHalfUp(m, 1) == m
  {
  }

  /** A lone separator with three digits after it and one to three before it, no leading zero. */
  predicate ReadsAsThousands(i: string, f: string) {
    |f| == 3 && 1 <= |i| <= 3 && i[0] != '0'
  }

  lemma CollapseOne(i: string, sep: char, f: string)
    requires sep == '.' || sep == ','
    requires AllDigits(i) && AllDigits(f)
    ensures CollapseSingle(i + [sep] + f, sep) == if ReadsAsThousands(i, f) then i + f else i + "." + f
  {
    hide Remove, Count, FirstIndex;
    var s := i + [sep] + f;
    FirstSeparator(i, f, sep);
    assert s[..|i|] == i;
    RemoveSymbol(i, sep, f);
    CountOne(i, sep, f);
    if i != "" { assert s[0] == i[0]; }
    assert sep !in i && sep !in f;
    assert Replace(s, sep, '.') == i + "." + f by {
      assert forall k | 0 <= k < |i| :: i[k] in i;
      assert forall k | 0 <= k < |f| :: f[k] in f;
    }
  }

  lemma CountOne(i: string, sep: char, f: string)
    requires sep !in i && sep !in f
    ensures Count(i + [sep] + f, sep) == 1
  {
    CountAppend(i + [sep], f, sep);
    CountAppend(i, [sep], sep);
  }

  /** With a single kind of separator, only that separator is collapsed. */
  lemma CleanedSingle(s: string, sep: char)
    requires sep == '.' || sep == ','
    requires sep in s && forall c | c in s :: IsDigit(c) || c == sep
    ensures Cleaned(s) == CollapseSingle(s, sep)
  {
    hide CollapseSingle;
    var k :| 0 <= k < |s| && s[k] == sep;
    assert forall j | 0 <= j < |s| :: s[j] in s;
  }

  lemma OneSeparator(i: string, sep: char, f: string)
    requires sep == '.' || sep == ','
    requires AllDigits(i) && AllDigits(f) && f != ""
    ensures Cleaned(i + [sep] + f) == if ReadsAsThousands(i, f) then i + f else i + "." + f
  {
    hide Cleaned, CollapseSingle;
    var s := i + [sep] + f;
    assert s[|i|] == sep;
    CleanedSingle(s, sep);
    CollapseOne(i, sep, f);
  }

  /** The value of a numeral whose cleaned form is known. */
  lemma ReadCleaned(s: string, i: string, f: string)
    requires Numeral(s) && AllDigits(i) && AllDigits(f) && i != ""
    requires Cleaned(s) == if f == "" then i else i + "." + f
    ensures AllDigits(i + f)
    ensures Spells(s, RoundHalfUp(100 * ParseNat(i + f), Pow10(|f|)))
  {
    hide Cleaned, Reading, NumberText, ParseNat, RoundHalfUp, Pow10;
    ReadNumeral(s);
    if f == "" {
      assert i + f == i;
      NoDecimalPoint(i);
    } else {
      DecimalPoint(i, f);
    }
  }

  /**
   Exactly how a number with one separator reads: three digits after it with one
   to three before and no leading zero are thousands; anything else is a
   fraction, rounded to cents half away from zero.
  */
  lemma LoneSeparator(i: string, sep: char, f: string)
    requires sep == '.' || sep == ','
    requires AllDigits(i) && AllDigits(f) && i != "" && f != ""
    ensures AllDigits(i + f)
    ensures Spells(i + [sep] + f,
              if ReadsAsThousands(i, f) then 100 * ParseNat(i + f)
              else RoundHalfUp(100 * ParseNat(i + f), Pow10(|f|)))
  {
    hide Cleaned, Reading, ParseNat, RoundHalfUp, Pow10;
    var s := i + [sep] + f;
    assert s[0] == i[0] && s[|s| - 1] == f[|f| - 1] && i[0] in i && f[|f| - 1] in f;
    OneSeparator(i, sep, f);
    if ReadsAsThousands(i, f) {
      assert i + f + "" == i + f;
      ParseAppend(i, f);
      ReadCleaned(s, i + f, "");
      Pow10Zero();
      RoundWhole(100 * ParseNat(i + f));
    } else {
      ReadCleaned(s, i, f);
    }
  }

  lemma Pow10Zero()
    ensures Pow10(0) == 1
  {
  }

  lemma HundredFold(w: nat, c: nat)
    requires c < 100
    ensures ParseNat(Decimal(w) + Padded(c, 2)) == 100 * w + c
    ensures RoundHalfUp(100 * (100 * w + c), Pow10(2)) == 100 * w + c
  {
    assert Pow10(1) == 10 && Pow10(2) == 100;
    ParseAppend(Decimal(w), Padded(c, 2));
    ParseDecimal(w);
    ParsePadded(c, 2);
    RoundExact(100 * w + c);
  }

  lemma PlainWithCents(w: nat, c: nat, sep: char)
    requires c < 100 && (sep == '.' || sep == ',')
    ensures Spells(Decimal(w) + [sep] + Padded(c, 2), 100 * w + c)
  {
    hide Reading, NumberText, ParseNat, RoundHalfUp, Pow10, Decimal, Padded;
    LoneSeparator(Decimal(w), sep, Padded(c, 2));
    HundredFold(w, c);
  }

  // ---- grouped numbers ------------------------------------------------------------------

  lemma {:induction false} UngroupedDigits(w: nat, sep: char)
    requires !IsDigit(sep)
    ensures Remove(Grouped(w, sep), sep) == Decimal(w)
    ensures Count(Grouped(w, sep), sep) == if w < 1000 then 0 else 1 + Count(Grouped(w / 1000, sep), sep)
    decreases w
  {
    hide Remove, Count, Decimal, Padded;
    if w < 1000 {
      assert sep !in Decimal(w);
    } else {
      UngroupedDigits(w / 1000, sep);
      var g, p := Grouped(w / 1000, sep), Padded(w % 1000, 3);
      assert sep !in p;
      RemoveAppend(g + [sep], p, sep);
      RemoveAppend(g, [sep], sep);
      CountAppend(g + [sep], p, sep);
      CountAppend(g, [sep], sep);
      SeparatorAlone(sep);
      SplitThousands(w);
    }
  }

  lemma SeparatorAlone(sep: char)
    ensures Remove([sep], sep) == "" && Count([sep], sep) == 1
  {
  }

  /** The decimal point stands after the last group separator. */
  lemma PointComesLast(g: string, sep: char, point: char, p: string)
    requires sep != point && sep in g && sep !in p && point !in p
    ensures var s := g + [point] + p;
            LastIndex(s, point) == |g| && 0 <= LastIndex(s, sep) < |g|
  {
    hide LastIndex;
    var s := g + [point] + p;
    LastSeparator(g, p, point);
    var k :| 0 <= k < |g| && g[k] == sep;
    assert s[k] == sep && s[|g|] == point;
    assert forall j | |g| < j < |s| :: s[j] == p[j - |g| - 1] && p[j - |g| - 1] in p;
  }

  lemma PlainPoint(r: string, point: char, p: string)
    requires (point == '.' || point == ',') && AllDigits(r) && AllDigits(p)
    ensures Replace(r + [point] + p, ',', '.') == r + "." + p
  {
    assert forall k | 0 <= k < |r| :: r[k] in r;
    assert forall k | 0 <= k < |p| :: p[k] in p;
  }

  lemma CleanedMixed(g: string, sep: char, point: char, p: string)
    requires (sep == ',' && point == '.') || (sep == '.' && point == ',')
    requires sep in g && AllDigits(p) && forall c | c in g :: IsDigit(c) || c == sep
    ensures Cleaned(g + [point] + p) == Remove(g, sep) + "." + p
  {
    hide Remove, LastIndex;
    var s := g + [point] + p;
    PointComesLast(g, sep, point, p);
    RemoveAppend(g + [point], p, sep);
    RemoveAppend(g, [point], sep);
    assert Remove(p, sep) == p && Remove([point], sep) == [point];
    PlainPoint(Remove(g, sep), point, p);
  }

  /** Grouped by one separator, decimals after the other. */
  lemma GroupedWithCents(w: nat, c: nat, sep: char, point: char)
    requires c < 100 && ((sep == ',' && point == '.') || (sep == '.' && point == ','))
    ensures Spells(Grouped(w, sep) + [point] + Padded(c, 2), 100 * w + c)
    ensures Numeral(Grouped(w, sep) + [point] + Padded(c, 2))
  {
    hide Reading, ParseNat, RoundHalfUp, Pow10, Decimal, Padded, Grouped, Cleaned, Remove, Count;
    var g, p := Grouped(w, sep), Padded(c, 2);
    var s := g + [point] + p;
    assert p[1] in p;
    if w < 1000 {
      PlainWithCents(w, c, point);
    } else {
      UngroupedDigits(w, sep);
      CleanedMixed(g, sep, point, p);
      ReadCleaned(s, Decimal(w), p);
      HundredFold(w, c);
    }
  }

  lemma GroupedThousands(w: nat, sep: char)
    requires 1000 <= w < 1000000 && (sep == ',' || sep == '.')
    ensures Cleaned(Grouped(w, sep)) == Decimal(w)
  {
    hide Cleaned, Decimal, Padded;
    var i, f := Decimal(w / 1000), Padded(w % 1000, 3);
    assert Grouped(w, sep) == i + [sep] + f;
    ThreeDigits(w / 1000);
    OneSeparator(i, sep, f);
    SplitThousands(w);
  }

  lemma ThreeDigits(w: nat)
    requires w < 1000
    ensures |Decimal(w)| <= 3
  {
    assert w >= 10 ==> Decimal(w) == Decimal(w / 10) + [Digit(w % 10)];
    assert w / 10 >= 10 ==> Decimal(w / 10) == Decimal(w / 10 / 10) + [Digit(w / 10 % 10)];
    assert |Decimal(w / 10 / 10)| == 1;
  }

  lemma SplitThousands(w: nat)
    requires w >= 1000
    ensures Decimal(w) == Decimal(w / 1000) + Padded(w % 1000, 3)
  {
    hide Decimal, Padded;
    assert Pow10(1) == 10 && Pow10(2) == 100 && Pow10(3) == 1000;
    DecimalSplit(w, 3);
  }

  lemma GroupedMillions(w: nat, sep: char)
    requires 1000000 <= w && (sep == ',' || sep == '.')
    ensures Cleaned(Grouped(w, sep)) == Decimal(w)
  {
    hide Cleaned, Grouped, Decimal, Remove, Count;
    var g := Grouped(w, sep);
    UngroupedDigits(w, sep);
    UngroupedDigits(w / 1000, sep);
    assert sep in g;
    CleanedSingle(g, sep);
  }

  lemma GroupedWhole(w: nat, sep: char)
    requires sep == ',' || sep == '.'
    ensures Spells(Grouped(w, sep), 100 * w)
  {
    hide Cleaned, Grouped, Decimal, Reading, ParseNat, RoundHalfUp, Pow10;
    if w < 1000 {
      WholeNumber(w);
    } else {
      if w < 1000000 { GroupedThousands(w, sep); } else { GroupedMillions(w, sep); }
      assert Decimal(w) + "" == Decimal(w);
      ReadCleaned(Grouped(w, sep), Decimal(w), "");
      ParseDecimal(w);
      Pow10Zero();
      RoundWhole(100 * w);
    }
  }

  lemma WholeNumber(w: nat)
    ensures Spells(Decimal(w), 100 * w)
  {
    hide Decimal, Reading, ParseNat, RoundHalfUp, Pow10;
    var s := Decimal(w);
    assert forall j | 0 <= j < |s| :: s[j] in s;
    assert s + "" == s;
    ReadCleaned(s, s, "");
    ParseDecimal(w);
    Pow10Zero();
    RoundWhole(100 * w);
  }

  // ---- grouped by spaces ------------------------------------------------------------------

  /** Every space is followed by a digit, unless it is the last character. */
  predicate GapsClose(a: string) {
    forall i | 0 <= i < |a| - 1 :: IsSpace(a[i]) ==> IsDigit(a[i + 1])
  }

  lemma CloseGap(s: string)
    requires |s| > 1 && IsSpace(s[0]) && IsDigit(s[1])
    ensures CloseGaps(s, true) == CloseGaps(s[1..], true)
  {
    assert StripLeft(s) == s[1..];
  }

  lemma CloseKeeps(s: string, afterDigit: bool)
    requires s != "" && !(afterDigit && IsSpace(s[0]))
    ensures CloseGaps(s, afterDigit) == [s[0]] + CloseGaps(s[1..], IsDigit(s[0]))
  {
  }

  lemma GapsCloseRest(a: string)
    requires |a| > 1 && GapsClose(a)
    ensures GapsClose(a[1..])
  {
    var rest := a[1..];
    forall i | 0 <= i < |rest| - 1 && IsSpace(rest[i]) ensures IsDigit(rest[i + 1]) {
      assert rest[i] == a[i + 1] && rest[i + 1] == a[i + 2];
    }
  }

  lemma {:induction false} CloseAppend(a: string, b: string, afterDigit: bool)
    requires a != "" && IsDigit(a[|a| - 1])
    requires GapsClose(a)
    ensures CloseGaps(a + b, afterDigit) == CloseGaps(a, afterDigit) + CloseGaps(b, true)
    decreases |a|
  {
    hide CloseGaps, GapsClose;
    var t := a + b;
    if |a| == 1 {
      assert t[1..] == b && a[1..] == "";
      CloseKeeps(t, afterDigit);
      CloseKeeps(a, afterDigit);
      CloseNothing("", true);
    } else {
      var rest := a[1..];
      assert t[1..] == rest + b;
      GapsCloseRest(a);
      if afterDigit && IsSpace(a[0]) {
        GapHere(a);
        CloseGap(t);
        CloseGap(a);
        CloseAppend(rest, b, true);
      } else {
        CloseKeeps(t, afterDigit);
        CloseKeeps(a, afterDigit);
        CloseAppend(rest, b, IsDigit(a[0]));
      }
    }
  }

  lemma GapHere(a: string)
    requires |a| > 1 && GapsClose(a) && IsSpace(a[0])
    ensures IsDigit(a[1])
  {
  }

  lemma {:induction false} GroupedGaps(w: nat)
    ensures GapsClose(Grouped(w, ' '))
    decreases w
  {
    var g := Grouped(w, ' ');
    if w < 1000 {
      assert forall i | 0 <= i < |g| :: g[i] in Decimal(w) && IsDigit(g[i]);
    } else {
      GroupedGaps(w / 1000);
      var h, p := Grouped(w / 1000, ' '), Padded(w % 1000, 3);
      forall i | 0 <= i < |g| - 1 ensures IsSpace(g[i]) ==> IsDigit(g[i + 1]) {
        if i < |h| - 1 {
          assert g[i] == h[i] && g[i + 1] == h[i + 1];
        } else if i == |h| - 1 {
          assert g[i] == h[i];
        } else if i == |h| {
          assert g[i + 1] == p[0] && p[0] in p;
        } else {
          assert g[i] == p[i - |h| - 1] && p[i - |h| - 1] in p;
        }
      }
    }
  }

  lemma {:induction false} CloseGrouped(w: nat)
    ensures CloseGaps(Grouped(w, ' '), false) == Decimal(w)
    decreases w
  {
    hide CloseGaps, GapsClose, Decimal, Padded;
    if w < 1000 {
      NoSpaces(Decimal(w));
      CloseNothing(Decimal(w), false);
    } else {
      var h, p := Grouped(w / 1000, ' '), Padded(w % 1000, 3);
      var q := [' '] + p;
      CloseGrouped(w / 1000);
      GroupedGaps(w / 1000);
      GroupedEnds(w / 1000);
      assert h + [' '] + p == h + q;
      CloseAppend(h, q, false);
      NoSpaces(p);
      assert p[0] in p && q[1..] == p && q[1] == p[0];
      CloseGap(q);
      CloseNothing(p, true);
      SplitThousands(w);
    }
  }

  lemma NoSpaces(s: string)
    requires AllDigits(s)
    ensures forall c | c in s :: !IsSpace(c)
  {
  }

  lemma GroupedEnds(w: nat)
    ensures var g := Grouped(w, ' '); g != "" && IsDigit(g[|g| - 1])
  {
    var g := Grouped(w, ' ');
    if w < 1000 {
      assert g[|g| - 1] in Decimal(w);
    } else {
      var p := Padded(w % 1000, 3);
      assert g[|g| - 1] == p[|p| - 1] && p[|p| - 1] in p;
    }
  }

  /** Spaces between digits read as if they were not there. */
  lemma SpaceGrouped(w: nat, tail: string, minor: nat)
    requires tail == "" || (tail[0] == '.' || tail[0] == ',')
    requires forall c | c in tail :: InRun(c)
    requires Spells(Decimal(w) + tail, minor)
    ensures Spells(Grouped(w, ' ') + tail, minor)
  {
    hide Grouped, Decimal, CloseGaps, NumberRun, MinorUnits;
    GroupedGaps(w);
    CloseGrouped(w);
    CloseAppend(Grouped(w, ' '), tail, false);
    NumeralHasNoSpace(tail);
    CloseNothing(tail, true);
    NumeralHasNoSpace(Decimal(w) + tail);
    CloseNothing(Decimal(w) + tail, false);
    var s := Grouped(w, ' ') + tail;
    if tail != "" {
      assert s[|s| - 1] == tail[|tail| - 1] == (Decimal(w) + tail)[|Decimal(w)| + |tail| - 1];
    } else {
      assert s == Grouped(w, ' ');
    }
  }

  // ---- the laws ----------------------------------------------------------------------------

  /** Every regional spelling of w whole units and c cents is read alike. */
  lemma FormatIndependence(w: nat, c: nat)
    requires c < 100
    ensures Spells(Decimal(w) + "." + Padded(c, 2), 100 * w + c)
    ensures Spells(Decimal(w) + "," + Padded(c, 2), 100 * w + c)
    ensures Spells(Grouped(w, ',') + "." + Padded(c, 2), 100 * w + c)
    ensures Spells(Grouped(w, '.') + "," + Padded(c, 2), 100 * w + c)
    ensures Spells(Grouped(w, ' ') + "." + Padded(c, 2), 100 * w + c)
    ensures Spells(Grouped(w, ' ') + "," + Padded(c, 2), 100 * w + c)
  {
    hide Spells, Decimal, Padded, Grouped;
    PlainWithCents(w, c, '.');
    PlainWithCents(w, c, ',');
    GroupedWithCents(w, c, ',', '.');
    GroupedWithCents(w, c, '.', ',');
    SpaceGroupedWithCents(w, c, '.');
    SpaceGroupedWithCents(w, c, ',');
  }

  lemma SpaceGroupedWithCents(w: nat, c: nat, point: char)
    requires c < 100 && (point == '.' || point == ',')
    ensures Spells(Grouped(w, ' ') + [point] + Padded(c, 2), 100 * w + c)
  {
    hide Spells, Decimal, Padded, Grouped;
    PlainWithCents(w, c, point);
    var tail := [point] + Padded(c, 2);
    assert Decimal(w) + tail == Decimal(w) + [point] + Padded(c, 2);
    SpaceGrouped(w, tail, 100 * w + c);
    assert Grouped(w, ' ') + tail == Grouped(w, ' ') + [point] + Padded(c, 2);
  }

  /** ... and so is every grouping of a whole number. */
  lemma GroupingIndependence(w: nat)
    ensures Spells(Decimal(w), 100 * w)
    ensures Spells(Grouped(w, ','), 100 * w)
    ensures Spells(Grouped(w, '.'), 100 * w)
    ensures Spells(Grouped(w, ' '), 100 * w)
  {
    hide Spells, Decimal, Grouped;
    GroupedWhole(w, ',');
    GroupedWhole(w, '.');
    WholeNumber(w);
    assert Decimal(w) + "" == Decimal(w) && Grouped(w, ' ') + "" == Grouped(w, ' ');
    SpaceGrouped(w, "", 100 * w);
  }

  lemma MagnitudeSplit(n: int)
    ensures var m := Magnitude(n); 100 * (m / 100) + m % 100 == m && Signed(n < 0, m) == n
  {
  }

  lemma GroupedCentsIsNumeral(m: nat)
    ensures Numeral(Grouped(m / 100, ',') + Cents(m))
    ensures Spells(Grouped(m / 100, ',') + Cents(m), m)
  {
    hide Grouped, Padded, Reading;
    var g, p := Grouped(m / 100, ','), Padded(m % 100, 2);
    GroupedWithCents(m / 100, m % 100, ',', '.');
    assert g + Cents(m) == g + "." + p;
  }

  /** The reader inverts `money`: amount and currency both come back. */
  lemma MoneyRoundTrip(n: int, c: string)
    requires IsCode(c)
    ensures AmountOf(Money(n, c), c) == Success((n, c))
  {
    hide AmountOf, Spells, NumberText, Decimal, Padded, Grouped, DefaultCode, SymbolOf, Symbol, SymbolCode;
    var m := Magnitude(n);
    var sign := if n < 0 then "-" else "";
    var body := Grouped(m / 100, ',') + Cents(m);
    GroupedCentsIsNumeral(m);
    MagnitudeSplit(n);
    assert UpperText(c) == c && DefaultCode(c) == c by { UpperOfCode(c); }
    if SymbolOf(c) != "" {
      var k := SymbolIndex(c);
      SymbolIndexOf(c);
      SymbolPrefix(sign, k, body, m, c);
    } else {
      CodeSuffix(sign, body, m, c, c);
    }
  }

  function SymbolIndex(c: string): nat {
    if c == "GBP" then 1 else if c == "EUR" then 2 else if c == "JPY" then 3 else if c == "INR" then 4 else 0
  }

  lemma SymbolIndexOf(c: string)
    requires IsCode(c) && SymbolOf(c) != ""
    ensures SymbolOf(c) == [Symbol(SymbolIndex(c)).0] && SymbolCode(SymbolIndex(c), c) == c
  {
  }

  /** ... and `money_plain`. */
  lemma MoneyPlainRoundTrip(n: int, default: string)
    ensures AmountOf(MoneyPlain(n), default) == Success((n, DefaultCode(default)))
  {
    hide AmountOf, Spells, Decimal, Padded, DefaultCode;
    var m := Magnitude(n);
    var s := Decimal(m / 100) + "." + Padded(m % 100, 2);
    PlainWithCents(m / 100, m % 100, '.');
    MagnitudeSplit(n);
    SpellingsAndSigns(s, m, default);
    assert MoneyPlain(n) == if n < 0 then "-" + s else s;
  }
}
