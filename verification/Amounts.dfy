/**
 Reading an amount out of an alert (app/services/parsing.py) and printing one
 (app/formatting.py).  Decimal values are exact: a mantissa and a scale.
*/
module Amounts {
  import opened Schema
  import opened Text

  // ---- currency -----------------------------------------------------------------

  /** The sixteen ISO codes that are recognised as words. */
  predicate KnownCode(c: string) {
    |c| == 3 &&
    match c[0]
    case 'A' => c[1] == 'U' && c[2] == 'D'
    case 'C' => (c[1] == 'A' && c[2] == 'D') || (c[1] == 'H' && c[2] == 'F')
    case 'D' => c[1] == 'K' && c[2] == 'K'
    case 'E' => c[1] == 'U' && c[2] == 'R'
    case 'G' => c[1] == 'B' && c[2] == 'P'
    case 'H' => c[1] == 'K' && c[2] == 'D'
    case 'I' => c[1] == 'N' && c[2] == 'R'
    case 'J' => c[1] == 'P' && c[2] == 'Y'
    case 'M' => c[1] == 'X' && c[2] == 'N'
    case 'N' => (c[1] == 'Z' && c[2] == 'D') || (c[1] == 'O' && c[2] == 'K')
    case 'S' => (c[1] == 'E' && c[2] == 'K') || (c[1] == 'G' && c[2] == 'D')
    case 'U' => c[1] == 'S' && c[2] == 'D'
    case 'Z' => c[1] == 'A' && c[2] == 'R'
    case _ => false
  }

  /** The dollar-denominated currencies: USD, CAD, AUD, NZD, SGD, HKD and MXN. */
  predicate DollarCode(c: string) {
    KnownCode(c) && (c[2] == 'D' || c[0] == 'M')
  }

  const PREFIXES: nat := 13

  /** Prefixed dollar signs, longest first so that "C$" cannot shadow "CA$". */
  function Prefix(n: nat): (p: (string, string))
    requires n < PREFIXES
    ensures |p.0| >= 2 && p.0[|p.0| - 1] == '$' && IsLetter(p.0[|p.0| - 2])
  {
    match n
    case 0 => ("CA$", "CAD")
    case 1 => ("US$", "USD")
    case 2 => ("AU$", "AUD")
    case 3 => ("NZ$", "NZD")
    case 4 => ("SG$", "SGD")
    case 5 => ("HK$", "HKD")
    case 6 => ("MX$", "MXN")
    case 7 => ("NT$", "TWD")
    case 8 => ("C$", "CAD")
    case 9 => ("U$", "USD")
    case 10 => ("A$", "AUD")
    case 11 => ("S$", "SGD")
    case _ => ("R$", "BRL")
  }

  const SYMBOLS: nat := 5

  function Symbol(n: nat): (char, string)
    requires n < SYMBOLS
  {
    match n
    case 0 => ('$', "USD")
    case 1 => ('\U{a3}', "GBP")
    case 2 => ('\U{20ac}', "EUR")
    case 3 => ('\U{a5}', "JPY")
    case _ => ('\U{20b9}', "INR")
  }

  /** `\b`: a word character on exactly one side of position i. */
  predicate Boundary(s: string, i: nat)
    requires i <= |s|
  {
    (i > 0 && IsWord(s[i - 1])) != (i < |s| && IsWord(s[i]))
  }

  predicate CodeAt(s: string, i: nat)
    requires i + 3 <= |s|
  {
    Boundary(s, i) && Boundary(s, i + 3) && KnownCode(UpperText(s[i..i + 3]))
  }

  /** The first position at or after i with a currency code standing as a word, or -1. */
  function FindCode(s: string, i: nat): (k: int)
    ensures k == -1 || (i <= k && k + 3 <= |s| && CodeAt(s, k))
    decreases |s| - i
  {
    if i + 3 > |s| then -1 else if CodeAt(s, i) then i else FindCode(s, i + 1)
  }

  function Cut(s: string, i: nat, n: nat): string
    requires i + n <= |s|
  {
    Strip(s[..i] + s[i + n..])
  }

  function DetectPrefixed(s: string, n: nat): Option<(string, string)>
    requires n <= PREFIXES
    decreases PREFIXES - n
  {
    if n == PREFIXES then None else
      var k := Find(UpperText(s), Prefix(n).0);
      if k >= 0 then Some((Cut(s, k, |Prefix(n).0|), Prefix(n).1))
      else DetectPrefixed(s, n + 1)
  }

  function SymbolCode(n: nat, default: string): string
    requires n < SYMBOLS
  {
    if Symbol(n).0 == '$' && DollarCode(default) then default else Symbol(n).1
  }

  function DetectSymbol(s: string, n: nat, default: string): (string, string)
    requires n <= SYMBOLS
    decreases SYMBOLS - n
  {
    if n == SYMBOLS then (Strip(s), default)
    else if Symbol(n).0 in s then (Strip(Remove(s, Symbol(n).0)), SymbolCode(n, default))
    else DetectSymbol(s, n + 1, default)
  }

  function DefaultCode(default: string): string {
    UpperText(if default == "" then "USD" else default)
  }

  function DetectCurrency(s: string, default: string): (string, string) {
    var k := FindCode(s, 0);
    if k >= 0 then (Cut(s, k, 3), UpperText(s[k..k + 3]))
    else match DetectPrefixed(s, 0)
      case Some(found) => found
      case None => DetectSymbol(s, 0, DefaultCode(default))
  }

  // ---- numbers ------------------------------------------------------------------

  predicate InRun(c: char) {
    IsDigit(c) || c == '.' || c == ','
  }

  /** Drop every run of white space that has a digit on both sides. */
  function CloseGaps(s: string, afterDigit: bool): string
    decreases |s|
  {
    if s == "" then ""
    else if afterDigit && IsSpace(s[0]) then
      var rest := StripLeft(s);
      assert |rest| < |s| by { StripLeftShorter(s[1..]); }
      if rest != "" && IsDigit(rest[0]) then CloseGaps(rest, true)
      else s[..|s| - |rest|] + CloseGaps(rest, false)
    else [s[0]] + CloseGaps(s[1..], IsDigit(s[0]))
  }

  lemma StripLeftShorter(s: string)
    ensures |StripLeft(s)| <= |s|
  {
  }

  function RunLength(s: string): (n: nat)
    ensures n <= |s|
    ensures forall i | 0 <= i < n :: InRun(s[i])
    ensures n < |s| ==> !InRun(s[n])
  {
    if s != "" && InRun(s[0]) then 1 + RunLength(s[1..]) else 0
  }

  /** The longest prefix that ends in a digit. */
  function ToLastDigit(s: string): (p: string)
    ensures p <= s
    ensures p != "" ==> IsDigit(p[|p| - 1])
  {
    if s == "" || IsDigit(s[|s| - 1]) then s else ToLastDigit(s[..|s| - 1])
  }

  /** The leftmost match of `[\d.,]*\d` at or after i: where it starts, and its text. */
  function NumberRun(s: string, i: nat): (r: Option<(nat, string)>)
    ensures r.Some? ==> r.value.0 < |s| && r.value.1 != ""
    decreases |s| - i
  {
    if i >= |s| then None
    else if !InRun(s[i]) then NumberRun(s, i + 1)
    else
      var n := RunLength(s[i..]);
      var num := ToLastDigit(s[i..i + n]);
      if num != "" then Some((i, num)) else NumberRun(s, i + n)
  }

  function CollapseSingle(num: string, sep: char): string {
    var k := FirstIndex(num, sep);
    if Count(num, sep) > 1 then Remove(num, sep)
    else if k + 4 == |num| && 1 <= k <= 3 && AllDigits(num[..k]) && num[0] != '0' then Remove(num, sep)
    else Replace(num, sep, '.')
  }

  function Cleaned(num: string): string {
    var dot, comma := LastIndex(num, '.'), LastIndex(num, ',');
    if dot != -1 && comma != -1 then
      if dot > comma then Remove(num, ',') else Replace(Remove(num, '.'), ',', '.')
    else if dot != -1 then CollapseSingle(num, '.')
    else if comma != -1 then CollapseSingle(num, ',')
    else num
  }

  /** `Decimal(s)` as mantissa and scale; None where the constructor raises. */
  function ToDecimal(s: string): Option<(nat, nat)> {
    var k := FirstIndex(s, '.');
    var frac := if k < |s| then s[k + 1..] else "";
    var digits := s[..k] + frac;
    if digits != "" && AllDigits(digits) then Some((ParseNat(digits), |frac|)) else None
  }

  /** ROUND_HALF_UP of the non-negative p / q. */
  function RoundHalfUp(p: nat, q: nat): nat
    requires q > 0
  {
    (2 * p + q) / (2 * q)
  }

  function MinorUnits(num: string): Option<nat> {
    match ToDecimal(Cleaned(num))
    case None => None
    case Some((mantissa, scale)) => Some(RoundHalfUp(100 * mantissa, Pow10(scale)))
  }

  // ---- parse_amount ---------------------------------------------------------------

  function OpenParens(s: string): (bool, string) {
    if |s| > 2 && s[0] == '(' && s[|s| - 1] == ')' then (true, Strip(s[1..|s| - 1])) else (false, s)
  }

  function LeadingSign(s: string): (bool, string) {
    if s != "" && s[0] == '-' then (true, Strip(s[1..]))
    else if s != "" && s[0] == '+' then (false, Strip(s[1..]))
    else (false, s)
  }

  function TrailingSign(s: string): (bool, string) {
    if s != "" && s[|s| - 1] == '-' then (true, Strip(s[..|s| - 1])) else (false, s)
  }

  /** The number in an unsigned text, and whether a sign or bracket stands right before it. */
  function Reading(s: string): Option<(bool, nat)> {
    var text := CloseGaps(s, false);
    match NumberRun(text, 0)
    case None => None
    case Some((start, num)) =>
      match MinorUnits(num)
      case None => None
      case Some(minor) => Some((start > 0 && (text[start - 1] == '-' || text[start - 1] == '('), minor))
  }

  function Signed(negative: bool, minor: nat): int {
    var m: int := minor;
    if negative then -m else m
  }

  /** The number left once the currency is gone, with any sign around it. */
  function SignedReading(rest: string): Option<(bool, nat)> {
    var (minus, unsigned) := LeadingSign(rest);
    var (minus', bare) := TrailingSign(unsigned);
    match Reading(bare)
    case None => None
    case Some((before, minor)) => Some((minus || minus' || before, minor))
  }

  function Assemble(accounting: bool, number: Option<(bool, nat)>, currency: string): Result<(int, string)> {
    match number
    case None => Failure
    case Some((minus, minor)) => Success((Signed(accounting || minus, minor), currency))
  }

  /** `parse_amount(raw, default)`, Failure where it raises ValueError. */
  function AmountOf(raw: string, default: string): Result<(int, string)> {
    var (accounting, inner) := OpenParens(PlainSpaces(Strip(raw)));
    var (rest, currency) := DetectCurrency(inner, default);
    Assemble(accounting, SignedReading(rest), currency)
  }

  const FIXED_SPACES: seq<char> := ['\U{a0}', '\U{2009}', '\U{202f}', '\U{2007}']

  method ReplaceFixedSpaces(raw: string) returns (text: string)
    ensures text == PlainSpaces(raw)
  {
    text := raw;
    for n := 0 to |FIXED_SPACES|
      invariant |text| == |raw|
      invariant forall i | 0 <= i < |raw| :: text[i] == if raw[i] in FIXED_SPACES[..n] then ' ' else raw[i]
    {
      text := Replace(text, FIXED_SPACES[n], ' ');
    }
    assert forall c :: c in FIXED_SPACES <==> IsFixedSpace(c);
  }

  method ReadNumber(unsigned: string) returns (r: Option<(bool, nat)>)
    ensures r == Reading(unsigned)
  {
    var text := CloseGaps(unsigned, false);
    var found := NumberRun(text, 0);
    if found.None? {
      return None;
    }
    var (start, num) := found.value;
    var value := ToDecimal(Cleaned(num));
    if value.None? {
      return None;
    }
    var minor := RoundHalfUp(100 * value.value.0, Pow10(value.value.1));
    return Some((start > 0 && (text[start - 1] == '-' || text[start - 1] == '('), minor));
  }

  method StripSigns(rest: string) returns (negative: bool, text: string)
    ensures var (minus, unsigned) := LeadingSign(rest);
            var (minus', bare) := TrailingSign(unsigned);
            negative == (minus || minus') && text == bare
  {
    text, negative := rest, false;
    if text != "" && text[0] == '-' {
      negative := true;
      text := Strip(text[1..]);
    } else if text != "" && text[0] == '+' {
      text := Strip(text[1..]);
    }
    assert (negative, text) == LeadingSign(rest);
    if text != "" && text[|text| - 1] == '-' {
      negative := true;
      text := Strip(text[..|text| - 1]);
    }
  }

  method ParseAmount(raw: string, defaultCurrency: string) returns (r: Result<(int, string)>)
    ensures r == AmountOf(raw, defaultCurrency)
  {
    var text := Strip(raw);
    if text == "" {
      EmptyHasNoAmount(raw, defaultCurrency);
      return Failure;
    }
    text := ReplaceFixedSpaces(text);
    var negative := false;
    if |text| > 2 && text[0] == '(' && text[|text| - 1] == ')' {
      negative := true;
      text := Strip(text[1..|text| - 1]);
    }
    var (rest, currency) := DetectCurrency(text, defaultCurrency);
    var minus, bare := StripSigns(rest);
    var number := ReadNumber(bare);
    if number.None? {
      return Failure;
    }
    return Success((Signed(negative || minus || number.value.0, number.value.1), currency));
  }

  lemma EmptyHasNoAmount(raw: string, default: string)
    requires Strip(raw) == ""
    ensures AmountOf(raw, default) == Failure
  {
    assert PlainSpaces("") == "";
    NoPrefix("", 0);
    NoSymbol("", 0, DefaultCode(default));
  }

  lemma PrefixOccurrence(s: string, u: string, p: string)
    requires u == UpperText(s) && |p| >= 2 && p[|p| - 1] == '$' && IsLetter(p[|p| - 2])
    ensures Find(u, p) >= 0 ==>
              exists i | 0 < i < |s| :: s[i] == '$' && IsLetter(s[i - 1])
  {
    var k := Find(u, p);
    if k >= 0 {
      var i := k + |p| - 1;
      assert u[k..k + |p|] == p;
      assert u[i] == p[|p| - 1] && u[i - 1] == p[|p| - 2];
      assert s[i] == '$' && IsLetter(s[i - 1]);
    }
  }

  /** No prefix is found where every dollar sign is first or follows a non-letter. */
  lemma {:induction false} NoPrefix(s: string, n: nat)
    requires n <= PREFIXES
    requires forall i | 0 < i < |s| && s[i] == '$' :: !IsLetter(s[i - 1])
    ensures DetectPrefixed(s, n).None?
    decreases PREFIXES - n
  {
    if n < PREFIXES {
      var u, p := UpperText(s), Prefix(n).0;
      var k := Find(u, p);
      assert k < 0 by { PrefixOccurrence(s, u, p); }
      NoPrefix(s, n + 1);
    }
  }

  lemma {:induction false} NoSymbol(s: string, n: nat, default: string)
    requires n <= SYMBOLS
    requires forall m | n <= m < SYMBOLS :: Symbol(m).0 !in s
    ensures DetectSymbol(s, n, default) == (Strip(s), default)
    decreases SYMBOLS - n
  {
    if n < SYMBOLS {
      NoSymbol(s, n + 1, default);
    }
  }

  // ---- money and money_plain --------------------------------------------------------

  /** The digits of w in groups of three. */
  function Grouped(w: nat, sep: char): (s: string)
    ensures s != "" && IsDigit(s[0]) && IsDigit(s[|s| - 1])
    ensures forall c | c in s :: IsDigit(c) || c == sep
    ensures w < 1000 ==> s == Decimal(w)
  {
    if w < 1000 then Decimal(w) else Grouped(w / 1000, sep) + [sep] + Padded(w % 1000, 3)
  }

  function Magnitude(n: int): nat {
    if n < 0 then -n else n
  }

  /** The symbol `money` prints for a currency, if it has one. */
  function SymbolOf(currency: string): string {
    if currency == "USD" || currency == "CAD" || currency == "AUD" || currency == "NZD" then "$"
    else if currency == "GBP" then "\U{a3}"
    else if currency == "EUR" then "\U{20ac}"
    else if currency == "JPY" then "\U{a5}"
    else if currency == "INR" then "\U{20b9}"
    else ""
  }

  function Cents(n: nat): string {
    "." + Padded(n % 100, 2)
  }

  function Money(amountMinor: int, currency: string): string {
    var sign := if amountMinor < 0 then "-" else "";
    var m := Magnitude(amountMinor);
    var body := Grouped(m / 100, ',') + Cents(m);
    var symbol := SymbolOf(UpperText(currency));
    if symbol != "" then sign + symbol + body else sign + body + " " + UpperText(currency)
  }

  function MoneyPlain(amountMinor: int): string {
    var m := Magnitude(amountMinor);
    (if amountMinor < 0 then "-" else "") + Decimal(m / 100) + Cents(m)
  }
}
