/** Character classes, decimal numerals and the string operations the parsers use. */
module Text {

  predicate IsDigit(c: char) {
    '0' <= c <= '9'
  }

  predicate IsLetter(c: char) {
    'a' <= c <= 'z' || 'A' <= c <= 'Z'
  }

  predicate IsWord(c: char) {
    IsLetter(c) || IsDigit(c) || c == '_'
  }

  predicate IsCapital(c: char) {
    'A' <= c <= 'Z'
  }

  /** The no-break, thin and figure spaces that the parsers turn into plain spaces. */
  predicate IsFixedSpace(c: char) {
    c == '\U{a0}' || c == '\U{2009}' || c == '\U{202f}' || c == '\U{2007}'
  }

  /** Every fixed space made a plain one. */
  function PlainSpaces(s: string): (r: string)
    ensures |r| == |s| && forall i | 0 <= i < |s| :: r[i] == if IsFixedSpace(s[i]) then ' ' else s[i]
  {
    seq(|s|, i requires 0 <= i < |s| => if IsFixedSpace(s[i]) then ' ' else s[i])
  }

  /** ASCII white space and the four fixed spaces. */
  predicate IsSpace(c: char) {
    c == ' ' || '\t' <= c <= '\r' || '\U{1c}' <= c <= '\U{1f}' || IsFixedSpace(c)
  }

  /** The white space that Python's `strip` and `\\s` know, as far as it occurs in alerts. */
  lemma SpacesAre(c: char)
    ensures IsSpace(c) <==>
            c in {' ', '\t', '\n', '\U{b}', '\U{c}', '\r', '\U{1c}', '\U{1d}', '\U{1e}', '\U{1f}',
                  '\U{a0}', '\U{2007}', '\U{2009}', '\U{202f}'}
  {
  }

  function Upper(c: char): (u: char)
    ensures IsLetter(u) <==> IsLetter(c)
    ensures !IsLetter(c) || IsCapital(c) ==> u == c
  {
    if 'a' <= c <= 'z' then (c as int - 'a' as int + 'A' as int) as char else c
  }

  function UpperText(s: string): (u: string)
    ensures |u| == |s| && forall i | 0 <= i < |s| :: u[i] == Upper(s[i])
  {
    seq(|s|, i requires 0 <= i < |s| => Upper(s[i]))
  }

  function Lower(c: char): char {
    if 'A' <= c <= 'Z' then (c as int - 'A' as int + 'a' as int) as char else c
  }

  function LowerText(s: string): (l: string)
    ensures |l| == |s| && forall i | 0 <= i < |s| :: l[i] == Lower(s[i])
  {
    seq(|s|, i requires 0 <= i < |s| => Lower(s[i]))
  }

  /** ASCII letters change case by 32, nothing else changes. */
  lemma CaseIs(c: char)
    ensures 'A' <= c <= 'Z' ==> Lower(c) as int == c as int + 32 && Upper(c) == c
    ensures 'a' <= c <= 'z' ==> Upper(c) as int == c as int - 32 && Lower(c) == c
    ensures !IsLetter(c) ==> Lower(c) == c && Upper(c) == c
  {
  }

  // ---- decimal numerals -------------------------------------------------------

  predicate AllDigits(s: string) {
    forall c | c in s :: IsDigit(c)
  }

  function Digit(n: nat): (c: char)
    requires n < 10
    ensures IsDigit(c) && DigitValue(c) == n
  {
    (n + '0' as int) as char
  }

  function DigitValue(c: char): nat
    requires IsDigit(c)
  {
    c as int - '0' as int
  }

  function Decimal(n: nat): (s: string)
    ensures s != "" && AllDigits(s)
    ensures n > 0 ==> s[0] != '0'
  {
    if n < 10 then [Digit(n)] else Decimal(n / 10) + [Digit(n % 10)]
  }

  function ParseNat(s: string): nat
    requires AllDigits(s)
  {
    if s == "" then 0 else 10 * ParseNat(s[..|s| - 1]) + DigitValue(s[|s| - 1])
  }

  function Pow10(k: nat): (p: nat)
    ensures p > 0
  {
    if k == 0 then 1 else 10 * Pow10(k - 1)
  }

  lemma {:induction false} ParseDecimal(n: nat)
    ensures ParseNat(Decimal(n)) == n
    decreases n
  {
    if n < 10 {
      assert Decimal(n)[..0] == "";
    } else {
      ParseDecimal(n / 10);
      assert Decimal(n)[..|Decimal(n)| - 1] == Decimal(n / 10);
    }
  }

  lemma DecimalInjective(m: nat, n: nat)
    requires Decimal(m) == Decimal(n)
    ensures m == n
  {
    ParseDecimal(m);
    ParseDecimal(n);
  }

  lemma {:induction false} ParseAppend(a: string, b: string)
    requires AllDigits(a) && AllDigits(b)
    ensures AllDigits(a + b)
    ensures ParseNat(a + b) == ParseNat(a) * Pow10(|b|) + ParseNat(b)
    decreases |b|
  {
    if b == "" {
      assert a + b == a;
    } else {
      var b' := b[..|b| - 1];
      ParseAppend(a, b');
      assert (a + b)[..|a + b| - 1] == a + b';
      calc {
        ParseNat(a + b);
        10 * ParseNat(a + b') + DigitValue(b[|b| - 1]);
        10 * (ParseNat(a) * Pow10(|b'|) + ParseNat(b')) + DigitValue(b[|b| - 1]);
        { MulTen(ParseNat(a), Pow10(|b'|)); }
        ParseNat(a) * Pow10(|b|) + (10 * ParseNat(b') + DigitValue(b[|b| - 1]));
      }
    }
  }

  lemma MulTen(a: nat, p: nat)
    ensures 10 * (a * p) == a * (10 * p)
  {
  }

  /** `n` in exactly `k` digits, zero-padded. */
  function Padded(n: nat, k: nat): (s: string)
    ensures |s| == k && AllDigits(s)
  {
    if k == 0 then "" else Padded(n / 10, k - 1) + [Digit(n % 10)]
  }

  lemma {:induction false} DecimalSplit(n: nat, k: nat)
    requires n >= Pow10(k)
    ensures Decimal(n) == Decimal(n / Pow10(k)) + Padded(n % Pow10(k), k)
    decreases k
  {
    if k > 0 {
      var p := Pow10(k - 1);
      NestedDivMod(n, p);
      assert n / 10 >= p;
      DecimalSplit(n / 10, k - 1);
      assert n >= 10;
    }
  }

  lemma NestedDivMod(n: nat, p: nat)
    requires p > 0
    ensures n / 10 / p == n / (10 * p)
    ensures (n / 10) % p == (n % (10 * p)) / 10
    ensures n % 10 == (n % (10 * p)) % 10
  {
    var q, r := n / (10 * p), n % (10 * p);
    assert n == (10 * p) * q + r;
    assert n == 10 * (p * q) + r;
    assert n / 10 == p * q + r / 10;
    assert r / 10 < p;
    DivModUnique(n / 10, p, q, r / 10);
    assert n % 10 == r % 10;
  }

  lemma DivModUnique(n: nat, p: nat, q: nat, r: nat)
    requires r < p && n == p * q + r
    ensures n / p == q && n % p == r
  {
    var d, b: int := n / p - q, p;
    assert b * d == r - n % p;
    assert d >= 1 ==> b * d >= b;
    assert d <= -1 ==> b * d <= -b;
  }

  lemma {:induction false} ParsePadded(n: nat, k: nat)
    requires n < Pow10(k)
    ensures ParseNat(Padded(n, k)) == n
    decreases k
  {
    if k > 0 {
      ParsePadded(n / 10, k - 1);
      assert Padded(n, k)[..k - 1] == Padded(n / 10, k - 1);
    }
  }

  // ---- searching and replacing --------------------------------------------------

  function Remove(s: string, c: char): (r: string)
    ensures c !in r
    ensures forall x | x in r :: x in s
    ensures c !in s ==> r == s
  {
    if s == "" then "" else if s[0] == c then Remove(s[1..], c) else [s[0]] + Remove(s[1..], c)
  }

  lemma {:induction false} RemoveAppend(a: string, b: string, c: char)
    ensures Remove(a + b, c) == Remove(a, c) + Remove(b, c)
    decreases |a|
  {
    if a == "" {
      assert a + b == b;
    } else {
      var t := a + b;
      assert t[0] == a[0] && t[1..] == a[1..] + b;
      RemoveAppend(a[1..], b, c);
      if a[0] != c {
        assert [a[0]] + (Remove(a[1..], c) + Remove(b, c)) == [a[0]] + Remove(a[1..], c) + Remove(b, c);
      }
    }
  }

  function Replace(s: string, c: char, d: char): (r: string)
    ensures |r| == |s| && forall i | 0 <= i < |s| :: r[i] == if s[i] == c then d else s[i]
  {
    seq(|s|, i requires 0 <= i < |s| => if s[i] == c then d else s[i])
  }

  function Count(s: string, c: char): (n: nat)
    ensures n == 0 <==> c !in s
  {
    if s == "" then 0 else (if s[0] == c then 1 else 0) + Count(s[1..], c)
  }

  lemma {:induction false} CountAppend(a: string, b: string, c: char)
    ensures Count(a + b, c) == Count(a, c) + Count(b, c)
    decreases |a|
  {
    if a == "" {
      assert a + b == b;
    } else {
      CountAppend(a[1..], b, c);
      assert (a + b)[1..] == a[1..] + b;
    }
  }

  /** Position of the last `c` before n, or -1. */
  function LastIndexBelow(s: string, c: char, n: nat): (k: int)
    requires n <= |s|
    ensures -1 <= k < n && (k >= 0 ==> s[k] == c)
    ensures forall j | k < j < n :: s[j] != c
  {
    if n == 0 then -1 else if s[n - 1] == c then n - 1 else LastIndexBelow(s, c, n - 1)
  }

  function LastIndex(s: string, c: char): (k: int)
    ensures -1 <= k < |s| && (k >= 0 ==> s[k] == c)
    ensures forall j | k < j < |s| :: s[j] != c
  {
    LastIndexBelow(s, c, |s|)
  }

  /** Position of the first `c` at or after i, or |s|. */
  function FirstIndexFrom(s: string, c: char, i: nat): (k: nat)
    requires i <= |s|
    ensures i <= k <= |s| && (k < |s| ==> s[k] == c)
    ensures forall j | i <= j < k :: s[j] != c
    decreases |s| - i
  {
    if i == |s| || s[i] == c then i else FirstIndexFrom(s, c, i + 1)
  }

  function FirstIndex(s: string, c: char): (k: nat)
    ensures k <= |s| && (k < |s| ==> s[k] == c)
    ensures forall j | 0 <= j < k :: s[j] != c
  {
    FirstIndexFrom(s, c, 0)
  }

  predicate OccursAt(s: string, p: string, i: int) {
    0 <= i <= |s| - |p| && s[i..i + |p|] == p
  }

  /** Position of the first occurrence of `p` at or after i, or -1. */
  function FindFrom(s: string, p: string, i: nat): (k: int)
    ensures k >= 0 ==> k >= i && OccursAt(s, p, k)
    ensures forall j | i <= j && (k == -1 || j < k) :: !OccursAt(s, p, j)
    ensures k >= -1
    decreases |s| - i
  {
    if i > |s| - |p| then -1 else if OccursAt(s, p, i) then i else FindFrom(s, p, i + 1)
  }

  function Find(s: string, p: string): int {
    FindFrom(s, p, 0)
  }

  predicate Contains(s: string, p: string) {
    Find(s, p) >= 0
  }

  /** The same character, or the same letter in the other case. */
  predicate SameLetter(c: char, d: char) {
    || c == d
    || ('A' <= c <= 'Z' && d as int == c as int + 32)
    || ('A' <= d <= 'Z' && c as int == d as int + 32)
  }

  predicate ReadsAt(s: string, p: string, i: nat) {
    i + |p| <= |s| && forall k | 0 <= k < |p| :: SameLetter(s[i + k], p[k])
  }

  lemma LowerSame(c: char, d: char)
    ensures Lower(c) == Lower(d) <==> SameLetter(c, d)
  {
  }

  /** Comparing in lower case finds a text wherever it stands, in any mixture of cases. */
  lemma ContainsIgnoresCase(s: string, p: string)
    ensures Contains(LowerText(s), LowerText(p)) <==> exists i :: ReadsAt(s, p, i)
  {
    var k := Find(LowerText(s), LowerText(p));
    hide OccursAt, ReadsAt, LowerText, FindFrom;
    if k >= 0 {
      OccursIgnoringCase(s, p, k);
    } else if exists i :: ReadsAt(s, p, i) {
      var i :| ReadsAt(s, p, i);
      OccursIgnoringCase(s, p, i);
      assert false;
    }
  }

  lemma OccursIgnoringCase(s: string, p: string, i: nat)
    ensures OccursAt(LowerText(s), LowerText(p), i) <==> ReadsAt(s, p, i)
  {
    if i + |p| <= |s| {
      var t := LowerText(s)[i..i + |p|];
      forall k | 0 <= k < |p| ensures t[k] == LowerText(p)[k] <==> SameLetter(s[i + k], p[k]) {
        LowerSame(s[i + k], p[k]);
      }
      assert |t| == |p| == |LowerText(p)|;
    }
  }

  function StripLeft(s: string): (r: string)
    ensures |r| <= |s|
  {
    if s != "" && IsSpace(s[0]) then StripLeft(s[1..]) else s
  }

  lemma {:induction false} StripLeftSplits(s: string)
    ensures var d := |s| - |StripLeft(s)|;
            && StripLeft(s) == s[d..] && (forall k | 0 <= k < d :: IsSpace(s[k]))
            && (d < |s| ==> !IsSpace(s[d]))
    decreases |s|
  {
    if s != "" && IsSpace(s[0]) {
      StripLeftSplits(s[1..]);
      var d := |s| - |StripLeft(s)|;
      assert s[1..][d - 1..] == s[d..];
      forall k | 0 <= k < d ensures IsSpace(s[k]) { if k > 0 { assert s[k] == s[1..][k - 1]; } }
    }
  }

  function StripRight(s: string): string {
    if s != "" && IsSpace(s[|s| - 1]) then StripRight(s[..|s| - 1]) else s
  }

  function Strip(s: string): string {
    StripRight(StripLeft(s))
  }

  predicate Tight(s: string) {
    s != "" ==> !IsSpace(s[0]) && !IsSpace(s[|s| - 1])
  }

  lemma StripTight(s: string)
    requires Tight(s)
    ensures Strip(s) == s
  {
  }

  // ---- splitting and joining ------------------------------------------------------

  function Split(s: string, sep: char): (parts: seq<string>)
    ensures |parts| >= 1
    ensures forall p | p in parts :: sep !in p
    decreases |s|
  {
    var k := FirstIndex(s, sep);
    if k == |s| then [s] else [s[..k]] + Split(s[k + 1..], sep)
  }

  function Join(parts: seq<string>, sep: char): string {
    if parts == [] then ""
    else if |parts| == 1 then parts[0]
    else parts[0] + [sep] + Join(parts[1..], sep)
  }

  lemma {:induction false} JoinSplit(s: string, sep: char)
    ensures Join(Split(s, sep), sep) == s
    decreases |s|
  {
    var k := FirstIndex(s, sep);
    if k < |s| {
      var rest := Split(s[k + 1..], sep);
      var parts := [s[..k]] + rest;
      JoinSplit(s[k + 1..], sep);
      assert parts[0] == s[..k] && parts[1..] == rest && |parts| > 1;
      assert Join(parts, sep) == s[..k] + [sep] + s[k + 1..];
    }
  }

  lemma FirstSeparator(a: string, b: string, sep: char)
    requires sep !in a
    ensures FirstIndex(a + [sep] + b, sep) == |a|
  {
    var s := a + [sep] + b;
    assert s[|a|] == sep;
    assert forall j | 0 <= j < |a| :: s[j] == a[j] && a[j] in a;
  }

  lemma LastSeparator(a: string, b: string, sep: char)
    requires sep !in b
    ensures LastIndex(a + [sep] + b, sep) == |a|
  {
    var s := a + [sep] + b;
    assert s[|a|] == sep;
    assert forall j | |a| < j < |s| :: s[j] == b[j - |a| - 1] && b[j - |a| - 1] in b;
  }

  lemma {:induction false} SplitJoin(parts: seq<string>, sep: char)
    requires |parts| >= 1 && forall p | p in parts :: sep !in p
    ensures Split(Join(parts, sep), sep) == parts
    decreases |parts|
  {
    if |parts| == 1 {
      assert parts == [parts[0]] && parts[0] in parts;
      assert Join(parts, sep) == parts[0];
      assert FirstIndex(parts[0], sep) == |parts[0]|;
    } else {
      assert parts[0] in parts;
      SplitJoin(parts[1..], sep);
      var rest := Join(parts[1..], sep);
      FirstSeparator(parts[0], rest, sep);
      var s := parts[0] + [sep] + rest;
      assert s[..|parts[0]|] == parts[0] && s[|parts[0]| + 1..] == rest;
    }
  }
}
