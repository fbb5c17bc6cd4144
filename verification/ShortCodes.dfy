/** Short handles for charges (app/services/shortcode.py). */
module ShortCodes {
  import opened Schema
  import opened Ordering
  import opened Text

  const START_AT: nat := 1000

  const ATTEMPTS: nat := 5

  function DigitRun(s: string): (n: nat)
    ensures n <= |s| && AllDigits(s[..n])
  {
    if s != "" && IsDigit(s[0]) then
      var n := DigitRun(s[1..]);
      assert s[..n + 1] == [s[0]] + s[1..][..n];
      n + 1
    else 0
  }

  /** SQLite's `CAST(code AS INTEGER)`: the value of the leading digits. */
  function CodeValue(code: string): nat {
    ParseNat(code[..DigitRun(code)])
  }

  function Highest(txs: Transactions): (h: nat)
    ensures forall i | i in txs :: CodeValue(txs[i].shortCode) <= h
  {
    var values := set i | i in txs :: CodeValue(txs[i].shortCode);
    assert forall i | i in txs :: CodeValue(txs[i].shortCode) in values;
    if values == {} then 0 else MaxOf(values)
  }

  function FirstTry(txs: Transactions): nat {
    if Highest(txs) + 1 < START_AT then START_AT else Highest(txs) + 1
  }

  predicate Taken(txs: Transactions, code: string) {
    exists i | i in txs :: txs[i].shortCode == code
  }

  lemma {:induction false} WholeDigitRun(s: string)
    requires AllDigits(s)
    ensures DigitRun(s) == |s|
    decreases |s|
  {
    if s != "" {
      assert s[0] in s;
      WholeDigitRun(s[1..]);
    }
  }

  /** A number whose text is a code in use is at most the highest code. */
  lemma TakenIsAtMostHighest(txs: Transactions, n: nat)
    requires Taken(txs, Decimal(n))
    ensures n <= Highest(txs)
  {
    var s := Decimal(n);
    WholeDigitRun(s);
    assert s[..|s|] == s;
    ParseDecimal(n);
    assert CodeValue(s) == n;
  }

  lemma FirstTryIsFree(txs: Transactions)
    ensures !Taken(txs, Decimal(FirstTry(txs)))
  {
    if Taken(txs, Decimal(FirstTry(txs))) {
      TakenIsAtMostHighest(txs, FirstTry(txs));
    }
  }

  /**
   One past the highest code, at least 1000.  The search for a free number after
   that never moves, whatever the codes look like.
  */
  method NextShortCode(db: Database) returns (code: string)
    ensures code == Decimal(FirstTry(db.transactions))
    ensures !Taken(db.transactions, code)
  {
    hide FirstTry, Highest, Decimal;
    var nxt := FirstTry(db.transactions);
    ghost var first := nxt;
    while Taken(db.transactions, Decimal(nxt))
      invariant nxt >= first && (nxt > first ==> Taken(db.transactions, Decimal(first)))
      decreases Highest(db.transactions) - nxt
    {
      TakenIsAtMostHighest(db.transactions, nxt);
      nxt := nxt + 1;
    }
    FirstTryIsFree(db.transactions);
    code := Decimal(nxt);
  }

  function NextCode(txs: Transactions): string {
    Decimal(FirstTry(txs))
  }

  /**
   Create a charge under a fresh code.  `rivals[n]` are codes another writer
   holds at the n-th attempt without our SELECT having seen them; each attempt
   is a savepoint, so only the failed INSERT is undone.  The frame says the
   caller's other rows, such as the email just stored, survive every collision.
  */
  method Allocate(db: Database, row: Transaction, rivals: seq<set<string>>) returns (r: Result<nat>)
    requires |rivals| == ATTEMPTS
    modifies db`transactions
    ensures r.Failure? <==> forall n | 0 <= n < ATTEMPTS :: NextCode(old(db.transactions)) in rivals[n]
    ensures r.Failure? ==> db.transactions == old(db.transactions)
    ensures r.Success? ==>
              && r.value == NextId(old(db.transactions))
              && !Taken(old(db.transactions), NextCode(old(db.transactions)))
              && db.transactions
                 == old(db.transactions)[r.value := row.(shortCode := NextCode(old(db.transactions)))]
  {
    for n := 0 to ATTEMPTS
      invariant db.transactions == old(db.transactions)
      invariant forall k | 0 <= k < n :: NextCode(db.transactions) in rivals[k]
    {
      var code := NextShortCode(db);
      if code !in rivals[n] {
        var id := NextId(db.transactions);
        db.transactions := db.transactions[id := row.(shortCode := code)];
        return Success(id);
      }
    }
    return Failure;
  }

  /** A code the application can have handed out: a number from 1000 on, without leading zeros. */
  ghost predicate Allocated(code: string) {
    exists n: nat :: n >= START_AT && code == Decimal(n)
  }

  lemma NextCodeIsAllocated(txs: Transactions)
    ensures Allocated(NextCode(txs))
  {
    hide Highest, Decimal;
    assert FirstTry(txs) >= START_AT;
  }

  lemma AllocatedIsNumeric(code: string)
    requires Allocated(code)
    ensures AllDigits(code) && |code| >= 4
  {
    var n: nat :| n >= START_AT && code == Decimal(n);
    assert Decimal(n) == Decimal(n / 10) + [Digit(n % 10)];
    assert Decimal(n / 10) == Decimal(n / 10 / 10) + [Digit(n / 10 % 10)];
    assert Decimal(n / 10 / 10) == Decimal(n / 10 / 10 / 10) + [Digit(n / 10 / 10 % 10)];
  }

  lemma NumberOf(n: nat)
    ensures CodeValue(Decimal(n)) == n
  {
    var s := Decimal(n);
    WholeDigitRun(s);
    assert s[..|s|] == s;
    ParseDecimal(n);
  }

  /** Of charges with allocated codes, the next code is the least number from 1000 on that is above them all. */
  lemma NextCodeFollows(txs: Transactions)
    requires forall i | i in txs :: Allocated(txs[i].shortCode)
    ensures FirstTry(txs) >= 1000
    ensures forall n: nat | Taken(txs, Decimal(n)) :: n < FirstTry(txs)
    ensures FirstTry(txs) == 1000 || Taken(txs, Decimal(FirstTry(txs) - 1))
  {
    hide Decimal;
    forall n: nat | Taken(txs, Decimal(n)) ensures n < FirstTry(txs) { TakenIsAtMostHighest(txs, n); }
    if FirstTry(txs) > 1000 {
      var i := HighestHolder(txs);
      var n: nat :| n >= START_AT && txs[i].shortCode == Decimal(n);
      NumberOf(n);
    }
  }

  lemma HighestHolder(txs: Transactions) returns (i: nat)
    requires Highest(txs) > 0
    ensures i in txs && CodeValue(txs[i].shortCode) == Highest(txs)
  {
    hide CodeValue;
    var values := set i | i in txs :: CodeValue(txs[i].shortCode);
    assert Highest(txs) in values;
    i :| i in txs && CodeValue(txs[i].shortCode) == Highest(txs);
  }

  /** The text after a `#` starts with a code. */
  predicate CodeHere(t: string) {
    var n := DigitRun(t);
    3 <= n <= 9 && (n == |t| || !IsWord(t[n]))
  }

  /** All matches of `#\s*(\d{3,9})\b`, in text order. */
  function ExtractCodes(s: string): seq<string>
    decreases |s|
  {
    if s == "" then []
    else if s[0] != '#' then ExtractCodes(s[1..])
    else
      var t := StripLeft(s[1..]);
      if CodeHere(t) then [t[..DigitRun(t)]] + ExtractCodes(t[DigitRun(t)..])
      else ExtractCodes(s[1..])
  }

  lemma {:induction false} DigitRunStops(s: string, rest: string)
    requires AllDigits(s) && (rest == "" || !IsDigit(rest[0]))
    ensures DigitRun(s + rest) == |s|
    decreases |s|
  {
    if s == "" {
      assert s + rest == rest;
    } else {
      assert s[0] in s && (s + rest)[0] == s[0] && (s + rest)[1..] == s[1..] + rest;
      DigitRunStops(s[1..], rest);
    }
  }

  lemma {:induction false} StripLeftBefore(s: string, rest: string)
    requires rest != "" && !IsSpace(rest[0])
    ensures StripLeft(s + rest) == StripLeft(s) + rest
    decreases |s|
  {
    if s == "" {
      assert s + rest == rest;
    } else {
      assert (s + rest)[0] == s[0] && (s + rest)[1..] == s[1..] + rest;
      if IsSpace(s[0]) { StripLeftBefore(s[1..], rest); }
    }
  }

  lemma {:induction false} DigitRunBefore(s: string, rest: string)
    requires rest == "" || !IsDigit(rest[0])
    ensures DigitRun(s + rest) == DigitRun(s)
    decreases |s|
  {
    if s == "" {
      assert s + rest == rest;
    } else {
      assert (s + rest)[0] == s[0] && (s + rest)[1..] == s[1..] + rest;
      DigitRunBefore(s[1..], rest);
    }
  }

  lemma CodeHereBefore(s: string, rest: string)
    requires rest != "" && rest[0] == '#'
    ensures CodeHere(s + rest) <==> CodeHere(s)
    ensures DigitRun(s + rest) == DigitRun(s)
    ensures StripLeft(s + rest) == StripLeft(s) + rest
  {
    DigitRunBefore(s, rest);
    StripLeftBefore(s, rest);
    var n := DigitRun(s);
    if n < |s| { assert (s + rest)[n] == s[n]; } else { assert (s + rest)[n] == '#'; }
  }

  /** A new `#` neither completes nor spoils what stands before it. */
  lemma {:induction false} CodesBeforeHash(before: string, rest: string)
    requires rest != "" && rest[0] == '#'
    ensures ExtractCodes(before + rest) == ExtractCodes(before) + ExtractCodes(rest)
    decreases |before|
  {
    hide StripLeft, DigitRun, CodeHere, ExtractCodes;
    if before == "" {
      assert before + rest == rest;
      NoCodes();
    } else {
      var s, tail := before + rest, before[1..];
      assert s[0] == before[0] && s[1..] == tail + rest;
      if before[0] != '#' {
        SkipsChar(s);
        SkipsChar(before);
        CodesBeforeHash(tail, rest);
      } else {
        var t := StripLeft(tail);
        CodeHereBefore(tail, rest);
        CodeHereBefore(t, rest);
        TakesCode(s);
        TakesCode(before);
        var n := DigitRun(t);
        CutsBefore(t, n, rest);
        if CodeHere(t) {
          CodesBeforeHash(t[n..], rest);
          Regroup([t[..n]], ExtractCodes(t[n..]), ExtractCodes(rest));
        } else {
          CodesBeforeHash(tail, rest);
        }
      }
    }
  }

  lemma CutsBefore(t: string, n: nat, rest: string)
    requires n <= |t|
    ensures (t + rest)[..n] == t[..n] && (t + rest)[n..] == t[n..] + rest
  {
  }

  lemma Regroup(a: seq<string>, b: seq<string>, c: seq<string>)
    ensures a + (b + c) == a + b + c
  {
  }

  lemma NoCodes()
    ensures ExtractCodes("") == []
  {
  }

  lemma SkipsChar(s: string)
    requires s != "" && s[0] != '#'
    ensures ExtractCodes(s) == ExtractCodes(s[1..])
  {
  }

  lemma TakesCode(s: string)
    requires s != "" && s[0] == '#'
    ensures var t := StripLeft(s[1..]);
            ExtractCodes(s) == if CodeHere(t) then [t[..DigitRun(t)]] + ExtractCodes(t[DigitRun(t)..])
                               else ExtractCodes(s[1..])
  {
  }

  /**
   A code written as the bot writes it is found wherever it stands: the codes of
   the text before it come first, whatever that text is, then this one, then
   those of the text after it.
  */
  lemma WrittenCodeIsFound(before: string, code: string, after: string)
    requires AllDigits(code) && 3 <= |code| <= 9
    requires after == "" || !IsWord(after[0])
    ensures ExtractCodes(before + "#" + code + after) == ExtractCodes(before) + [code] + ExtractCodes(after)
  {
    hide ExtractCodes;
    var rest := "#" + code + after;
    assert before + "#" + code + after == before + rest;
    CodesBeforeHash(before, rest);
    CodeAtFront(code, after);
    assert ExtractCodes(before) + ([code] + ExtractCodes(after)) == ExtractCodes(before) + [code] + ExtractCodes(after);
  }

  /** What the reader makes of a `#` and a number. */
  lemma NumberAtFront(code: string, after: string)
    requires AllDigits(code) && code != "" && (after == "" || !IsDigit(after[0]))
    ensures var s := "#" + code + after;
            && s[0] == '#' && s[1..] == code + after && StripLeft(s[1..]) == code + after
            && DigitRun(code + after) == |code|
  {
    DigitRunStops(code, after);
    hide DigitRun, AllDigits;
    var s := "#" + code + after;
    assert s[1..] == code + after;
    DigitFirst(code, after);
  }

  lemma DigitFirst(code: string, after: string)
    requires AllDigits(code) && code != ""
    ensures StripLeft(code + after) == code + after
  {
    assert code[0] in code && (code + after)[0] == code[0];
  }

  lemma SplitsBack(code: string, after: string)
    ensures (code + after)[..|code|] == code && (code + after)[|code|..] == after
    ensures after != "" ==> (code + after)[|code|] == after[0]
  {
  }

  lemma CodeAtFront(code: string, after: string)
    requires AllDigits(code) && 3 <= |code| <= 9
    requires after == "" || !IsWord(after[0])
    ensures ExtractCodes("#" + code + after) == [code] + ExtractCodes(after)
  {
    NumberAtFront(code, after);
    SplitsBack(code, after);
    hide ExtractCodes, DigitRun, StripLeft, AllDigits;
    TakesCode("#" + code + after);
  }

  /** A number of ten digits or more is no code: it is passed over like any other text. */
  lemma LongCodeIsPassedOver(code: string, after: string)
    requires AllDigits(code) && |code| > 9 && (after == "" || !IsDigit(after[0]))
    ensures ExtractCodes("#" + code + after) == ExtractCodes(after)
  {
    NumberAtFront(code, after);
    DigitsHoldNoCode(code, after);
    hide ExtractCodes, DigitRun, StripLeft, AllDigits;
    TakesCode("#" + code + after);
  }

  lemma {:induction false} DigitsHoldNoCode(digits: string, after: string)
    requires AllDigits(digits)
    ensures ExtractCodes(digits + after) == ExtractCodes(after)
    decreases |digits|
  {
    if digits == "" {
      assert digits + after == after;
    } else {
      var s := digits + after;
      assert s[0] == digits[0] && digits[0] in digits && s[1..] == digits[1..] + after;
      DigitsHoldNoCode(digits[1..], after);
    }
  }

  // ---- which codes a text holds --------------------------------------------------------

  /**
   At `i` stands a `#`, then white space up to `j`, then the code: three to nine
   digits that end the text or that no word character follows.
  */
  ghost predicate CodeReads(s: string, i: nat, j: nat, code: string) {
    && i < j && j + |code| <= |s| && s[i] == '#' && (forall k | i < k < j :: IsSpace(s[k]))
    && s[j..j + |code|] == code && AllDigits(code) && 3 <= |code| <= 9
    && (j + |code| < |s| ==> !IsWord(s[j + |code|]))
  }

  lemma ReadsLater(s: string, d: nat, i: nat, j: nat, code: string)
    requires d <= |s|
    ensures CodeReads(s[d..], i, j, code) <==> CodeReads(s, i + d, j + d, code)
  {
    var u := s[d..];
    if j + |code| <= |u| {
      assert u[j..j + |code|] == s[j + d..j + d + |code|];
      assert forall k | 0 <= k < |u| :: u[k] == s[k + d];
      if CodeReads(u, i, j, code) {
        forall k | i + d < k < j + d ensures IsSpace(s[k]) { assert u[k - d] == s[k]; }
      }
    }
  }

  /** A run of digits cut off by a non-word character is the whole run of digits. */
  lemma RunEnds(t: string, code: string)
    requires |code| <= |t| && t[..|code|] == code && AllDigits(code)
    requires |code| == |t| || !IsWord(t[|code|])
    ensures DigitRun(t) == |code|
  {
    var rest := t[|code|..];
    assert t == code + rest;
    DigitRunStops(code, rest);
  }

  /** What a `#` at the front reads is what the reader takes, and nothing else. */
  lemma FrontReads(s: string, j: nat, code: string)
    requires s != "" && s[0] == '#' && CodeReads(s, 0, j, code)
    ensures var t := StripLeft(s[1..]);
            |s| - |t| == j && CodeHere(t) && t[..DigitRun(t)] == code
  {
    var tail := s[1..];
    StripLeftSplits(tail);
    hide StripLeft, DigitRun;
    var t := StripLeft(tail);
    assert s[j] == s[j..j + |code|][0] && s[j] in code;
    assert tail[j - 1] == s[j] && !IsSpace(tail[j - 1]);
    assert forall k | 0 <= k < j - 1 :: tail[k] == s[k + 1] && IsSpace(tail[k]);
    assert |tail| - |t| == j - 1;
    assert t == s[j..];
    assert t[..|code|] == code;
    RunEnds(t, code);
  }

  lemma FrontCode(s: string)
    requires s != "" && s[0] == '#' && CodeHere(StripLeft(s[1..]))
    ensures var t := StripLeft(s[1..]);
            |t| < |s| && CodeReads(s, 0, |s| - |t|, t[..DigitRun(t)])
  {
    var tail := s[1..];
    StripLeftSplits(tail);
    hide StripLeft, DigitRun;
    var t := StripLeft(tail);
    var j, n := |s| - |t|, DigitRun(t);
    assert t == s[j..];
    BehindFront(s, t, j, n);
    hide AllDigits, IsWord, IsSpace;
    assert forall k | 0 < k < j :: s[k] == tail[k - 1] && IsSpace(s[k]);
  }

  lemma BehindFront(s: string, t: string, j: nat, n: nat)
    requires j <= |s| && t == s[j..] && n <= |t|
    ensures t[..n] == s[j..j + n] && t[n..] == s[j + n..] && (n < |t| ==> t[n] == s[j + n])
  {
  }

  /** No `#` among the white space and digits that a code takes up. */
  lemma NoHashInside(s: string, i: nat)
    requires s != "" && s[0] == '#' && 0 < i < |s| && s[i] == '#'
    ensures var t := StripLeft(s[1..]);
            |s| - |t| + DigitRun(t) <= i
  {
    var tail := s[1..];
    StripLeftSplits(tail);
    hide StripLeft, DigitRun;
    var t := StripLeft(tail);
    var j, n := |s| - |t|, DigitRun(t);
    assert t == s[j..];
    assert forall k | 0 < k < j :: s[k] == tail[k - 1] && IsSpace(s[k]);
    assert forall k | j <= k < j + n :: s[k] == t[..n][k - j] && s[k] in t[..n];
  }

  /** How far the reader moves on from the front of a text, and the code it takes there, if any. */
  function Advance(s: string): (d: nat)
    requires s != ""
    ensures 0 < d <= |s|
  {
    var t := StripLeft(s[1..]);
    if s[0] == '#' && CodeHere(t) then |s| - |t| + DigitRun(t) else 1
  }

  function CodesAtFront(s: string): seq<string>
    requires s != ""
  {
    var t := StripLeft(s[1..]);
    if s[0] == '#' && CodeHere(t) then [t[..DigitRun(t)]] else []
  }

  lemma ExtractStep(s: string)
    requires s != ""
    ensures ExtractCodes(s) == CodesAtFront(s) + ExtractCodes(s[Advance(s)..])
  {
    hide *;
    if s[0] == '#' {
      StepAtHash(s);
    } else {
      StepAtOther(s);
    }
  }

  lemma StepAtOther(s: string)
    requires s != "" && s[0] != '#'
    ensures ExtractCodes(s) == CodesAtFront(s) + ExtractCodes(s[Advance(s)..])
  {
    SkipsChar(s);
    hide StripLeft, DigitRun, CodeHere, ExtractCodes;
  }

  lemma StepAtHash(s: string)
    requires s != "" && s[0] == '#'
    ensures ExtractCodes(s) == CodesAtFront(s) + ExtractCodes(s[Advance(s)..])
  {
    AfterHash(s);
    TakesCode(s);
    FrontParts(s);
    hide *;
    NoneBefore(ExtractCodes(s[1..]));
  }

  lemma FrontParts(s: string)
    requires s != "" && s[0] == '#'
    ensures var t := StripLeft(s[1..]);
            && |t| < |s|
            && CodesAtFront(s) == (if CodeHere(t) then [t[..DigitRun(t)]] else [])
            && Advance(s) == (if CodeHere(t) then |s| - |t| + DigitRun(t) else 1)
  {
    hide StripLeft, DigitRun, CodeHere;
  }

  lemma NoneBefore(codes: seq<string>)
    ensures [] + codes == codes
  {
  }

  lemma AfterHash(s: string)
    requires s != ""
    ensures var t := StripLeft(s[1..]);
            |t| < |s| && t == s[|s| - |t|..] && t[DigitRun(t)..] == s[|s| - |t| + DigitRun(t)..]
  {
    StripLeftSplits(s[1..]);
    hide StripLeft, DigitRun;
    var t := StripLeft(s[1..]);
    BehindFront(s, t, |s| - |t|, DigitRun(t));
  }

  lemma FrontExactly(s: string, code: string)
    requires s != ""
    ensures code in CodesAtFront(s) <==> exists j :: CodeReads(s, 0, j, code)
  {
    hide CodeReads, StripLeft, DigitRun, CodeHere;
    if j :| CodeReads(s, 0, j, code) {
      ReadsAfterHash(s, 0, j, code);
      FrontReads(s, j, code);
    }
    if s[0] == '#' && CodeHere(StripLeft(s[1..])) { FrontCode(s); }
  }

  lemma ReadsAfterHash(s: string, i: nat, j: nat, code: string)
    requires CodeReads(s, i, j, code)
    ensures i < |s| && s[i] == '#' && i < j
  {
  }

  lemma ReadsBehind(s: string, i: nat, j: nat, code: string)
    requires CodeReads(s, i, j, code) && i > 0
    ensures Advance(s) <= i
  {
    if s[0] == '#' { NoHashInside(s, i); }
  }

  lemma NothingReads(i: nat, j: nat, code: string)
    ensures !CodeReads("", i, j, code)
  {
  }

  /** `extract_codes` finds a code exactly when it stands somewhere in the text. */
  lemma {:induction false} ExtractedExactly(s: string, code: string)
    ensures code in ExtractCodes(s) <==> exists i, j :: CodeReads(s, i, j, code)
    decreases |s|
  {
    hide *;
    if s != "" {
      var d := Advance(s);
      ExtractStep(s);
      ExtractedExactly(s[d..], code);
      FrontExactly(s, code);
      if i, j :| CodeReads(s[d..], i, j, code) { ReadsLater(s, d, i, j, code); }
      if i, j :| CodeReads(s, i, j, code) && i > 0 {
        ReadsBehind(s, i, j, code);
        ReadsAfterHash(s, i, j, code);
        ReadsLater(s, d, i - d, j - d, code);
      }
    } else {
      NoCodes();
      if i, j :| CodeReads(s, i, j, code) { NothingReads(i, j, code); }
    }
  }
}
