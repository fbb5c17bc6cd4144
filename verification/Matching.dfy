/** Which charge an upload belongs to (app/services/matching.py). */
module Matching {
  import opened Schema
  import opened Ordering
  import opened ShortCodes
  import opened Text
  import opened Lapsing
  import opened Invariants

  const MAX_PICKER_OPTIONS: nat := 25

  datatype MatchMethod = Reply | Code | SoleOpen | Ambiguous | NoneOpen

  datatype MatchResult = MatchResult(how: MatchMethod, charge: Option<nat>, candidates: seq<nat>, truncated: bool)

  // ---- the queries ----------------------------------------------------------------------

  function FindByReply(d: Db, referenced: Option<nat>): Option<nat> {
    if referenced.None? || referenced.value !in d.messages then None
    else
      var tx := d.messages[referenced.value].transactionId;
      if tx.Some? && tx.value in d.transactions then tx else None
  }

  /** The first code that some charge has. */
  function FirstCharge(txs: Transactions, codes: seq<string>): Option<nat> {
    if codes == [] then None
    else
      var tx := WithCode(txs, codes[0]);
      if tx.Some? then tx else FirstCharge(txs, codes[1..])
  }

  function FindByCode(txs: Transactions, text: string): Option<nat> {
    FirstCharge(txs, ExtractCodes(text))
  }

  function Recency(txs: Transactions): map<nat, int> {
    map i | i in txs :: -txs[i].occurredAt
  }

  function ByRecency(txs: Transactions, some: set<nat>): seq<nat>
    requires some <= txs.Keys
  {
    Ordered(Recency(txs), some)
  }

  /** ORDER BY occurred_at DESC LIMIT limit; rows of equal time are taken by id. */
  function Newest(txs: Transactions, some: set<nat>, limit: nat): seq<nat>
    requires some <= txs.Keys
  {
    var all := ByRecency(txs, some);
    if |all| <= limit then all else all[..limit]
  }

  function OpenTransactions(txs: Transactions, limit: nat): seq<nat> {
    Newest(txs, OutstandingCharges(txs), limit)
  }

  function Recent(txs: Transactions, now: int): (r: set<nat>)
    ensures r <= txs.Keys
    ensures forall i | i in txs :: i in r <==> txs[i].occurredAt + 604800 >= now
  {
    set i | i in txs && txs[i].occurredAt >= now - WEEK
  }

  function CountOpen(txs: Transactions): nat {
    |OutstandingCharges(txs)|
  }

  function Resolve(d: Db, referenced: Option<nat>, text: string, now: int): MatchResult {
    var replied := FindByReply(d, referenced);
    if replied.Some? then MatchResult(Reply, replied, [], false)
    else
      var coded := FindByCode(d.transactions, text);
      if coded.Some? then MatchResult(Code, coded, [], false)
      else
        var found := OpenTransactions(d.transactions, MAX_PICKER_OPTIONS + 1);
        var truncated := |found| > MAX_PICKER_OPTIONS;
        var candidates := if truncated then found[..MAX_PICKER_OPTIONS] else found;
        if |candidates| == 1 && !truncated then MatchResult(SoleOpen, Some(candidates[0]), [], false)
        else if candidates != [] then MatchResult(Ambiguous, None, candidates, truncated)
        else MatchResult(NoneOpen, None, Newest(d.transactions, Recent(d.transactions, now), MAX_PICKER_OPTIONS), false)
  }

  // ---- the priority rule ------------------------------------------------------------------

  /** A list of distinct members of `some`, newest first, that leaves out no newer one, as long as `limit` allows. */
  ghost predicate IsNewest(txs: Transactions, some: set<nat>, limit: nat, ids: seq<nat>)
    requires some <= txs.Keys
  {
    && |ids| == (if |some| <= limit then |some| else limit)
    && (forall n | 0 <= n < |ids| :: ids[n] in some)
    && (forall m, n | 0 <= m < n < |ids| :: ids[m] != ids[n] && txs[ids[m]].occurredAt >= txs[ids[n]].occurredAt)
    && (forall i, n | i in some && i !in ids && 0 <= n < |ids| :: txs[ids[n]].occurredAt >= txs[i].occurredAt)
  }

  /** The code that decides: some charge has it, and no charge has a code before it in the text. */
  ghost predicate DecidingCode(txs: Transactions, codes: seq<string>, n: nat) {
    && n < |codes| && (exists i | i in txs :: txs[i].shortCode == codes[n])
    && forall i, k | i in txs && 0 <= k < n :: txs[i].shortCode != codes[k]
  }

  /**
   What the module documentation promises: a reply decides, then the first code
   in the text that exists, then the only charge awaiting a receipt, then a choice
   among the 25 newest of those, then a choice among the recent charges.
  */
  ghost predicate FollowsPriority(d: Db, referenced: Option<nat>, text: string, now: int, r: MatchResult) {
    var txs := d.transactions;
    var open := OutstandingCharges(txs);
    if exists m, tx ::
         referenced == Some(m) && m in d.messages && d.messages[m].transactionId == Some(tx) && tx in txs then
      r.how == Reply && r.charge == d.messages[referenced.value].transactionId && r.candidates == [] && !r.truncated
    else if exists n: nat :: DecidingCode(txs, ExtractCodes(text), n) then
      && r.how == Code && r.charge.Some? && r.charge.value in txs && r.candidates == [] && !r.truncated
      && (forall n: nat | DecidingCode(txs, ExtractCodes(text), n) ::
            txs[r.charge.value].shortCode == ExtractCodes(text)[n])
    else if |open| == 1 then
      r.how == SoleOpen && r.charge.Some? && open == {r.charge.value} && r.candidates == [] && !r.truncated
    else if open != {} then
      && r.how == Ambiguous && r.charge.None? && IsNewest(txs, open, 25, r.candidates)
      && (r.truncated <==> |open| > 25)
    else
      && r.how == NoneOpen && r.charge.None? && !r.truncated
      && IsNewest(txs, Recent(txs, now), 25, r.candidates)
  }

  lemma RecencyOrder(txs: Transactions, some: set<nat>)
    requires some <= txs.Keys
    ensures var all := ByRecency(txs, some);
            && |all| == |some| && (forall i :: i in all <==> i in some)
            && (forall n | 0 <= n < |all| :: all[n] in some)
            && forall m, n | 0 <= m < n < |all| ::
                 all[m] != all[n] && txs[all[m]].occurredAt >= txs[all[n]].occurredAt
  {
    hide Ordered;
    var all := ByRecency(txs, some);
    forall n | 0 <= n < |all| ensures all[n] in some { assert all[n] in all; }
  }

  lemma NewestIsNewest(txs: Transactions, some: set<nat>, limit: nat)
    requires some <= txs.Keys
    ensures IsNewest(txs, some, limit, Newest(txs, some, limit))
  {
    hide ByRecency;
    RecencyOrder(txs, some);
    var all := ByRecency(txs, some);
    var ids := Newest(txs, some, limit);
    assert forall n | 0 <= n < |ids| :: ids[n] == all[n];
    forall i, n | i in some && i !in ids && 0 <= n < |ids| ensures txs[ids[n]].occurredAt >= txs[i].occurredAt {
      LeftOut(all, ids, i, n);
      var m :| n < m < |all| && all[m] == i;
    }
  }

  lemma {:induction false} FirstChargeDecides(txs: Transactions, codes: seq<string>) returns (n: nat)
    ensures FirstCharge(txs, codes).None? ==> n == |codes| && forall k | 0 <= k < n :: !Taken(txs, codes[k])
    ensures FirstCharge(txs, codes).Some? ==>
              DecidingCode(txs, codes, n) && FirstCharge(txs, codes) == WithCode(txs, codes[n])
    decreases |codes|
  {
    if codes == [] {
      n := 0;
    } else {
      FoundIsTaken(txs, codes[0]);
      if WithCode(txs, codes[0]).Some? {
        n := 0;
      } else {
        var k := FirstChargeDecides(txs, codes[1..]);
        n := k + 1;
        assert forall j | 0 <= j < n && j < |codes| :: j == 0 || codes[j] == codes[1..][j - 1];
      }
    }
  }

  lemma FoundIsTaken(txs: Transactions, code: string)
    ensures WithCode(txs, code).Some? <==> Taken(txs, code)
  {
    if Taken(txs, code) {
      var i :| i in txs && txs[i].shortCode == code;
      assert i in CodeHolders(txs, code);
    }
  }

  lemma DecidingIsUnique(txs: Transactions, codes: seq<string>, m: nat, n: nat)
    requires DecidingCode(txs, codes, m) && DecidingCode(txs, codes, n)
    ensures m == n
  {
    assert Taken(txs, codes[m]) && Taken(txs, codes[n]);
  }

  lemma OneOpen(txs: Transactions, ids: seq<nat>)
    requires IsNewest(txs, OutstandingCharges(txs), MAX_PICKER_OPTIONS + 1, ids) && |ids| == 1
    ensures OutstandingCharges(txs) == {ids[0]}
  {
    var open := OutstandingCharges(txs);
    assert ids[0] in open && |open - {ids[0]}| == 0;
  }

  lemma FirstOfNewest(txs: Transactions, some: set<nat>, limit: nat, ids: seq<nat>)
    requires some <= txs.Keys && IsNewest(txs, some, limit + 1, ids)
    ensures IsNewest(txs, some, limit, if |ids| > limit then ids[..limit] else ids)
  {
    if |ids| > limit {
      var kept := ids[..limit];
      forall i, n | i in some && i !in kept && 0 <= n < |kept| ensures txs[kept[n]].occurredAt >= txs[i].occurredAt {
        if i in ids {
          LeftOut(ids, kept, i, n);
          var m :| n < m < |ids| && ids[m] == i;
          assert ids[n] == kept[n];
        } else {
          assert ids[n] == kept[n];
        }
      }
    }
  }

  /** `resolve` follows the priority rule on every database, reply and text. */
  lemma ResolveFollowsPriority(d: Db, referenced: Option<nat>, text: string, now: int)
    ensures FollowsPriority(d, referenced, text, now, Resolve(d, referenced, text, now))
  {
    hide ExtractCodes, FirstCharge, Newest, IsNewest, OutstandingCharges, Recent, WithCode, DecidingCode;
    var txs := d.transactions;
    var codes := ExtractCodes(text);
    var n := FirstChargeDecides(txs, codes);
    if FindByReply(d, referenced).None? {
      if FindByCode(txs, text).Some? {
        CodeDecides(txs, codes, n);
      } else {
        NoneDecides(txs, codes);
        var open, found := OutstandingCharges(txs), OpenTransactions(txs, MAX_PICKER_OPTIONS + 1);
        NewestIsNewest(txs, open, MAX_PICKER_OPTIONS + 1);
        FirstOfNewest(txs, open, MAX_PICKER_OPTIONS, found);
        NewestLength(txs, open, MAX_PICKER_OPTIONS + 1, found);
        if |found| == 1 {
          OneOpen(txs, found);
        }
        NewestIsNewest(txs, Recent(txs, now), MAX_PICKER_OPTIONS);
      }
    }
  }

  /**
   The choice offered: charges all of them outstanding, or recent when none is, each
   once, newest first, at most 25, and none left out that is newer than one offered.
  */
  lemma ChoiceIsNewest(d: Db, referenced: Option<nat>, text: string, now: int)
    ensures var txs, r := d.transactions, Resolve(d, referenced, text, now);
            && |r.candidates| <= 25
            && (forall n | 0 <= n < |r.candidates| ::
                  && r.candidates[n] in txs
                  && (if r.how == Ambiguous then txs[r.candidates[n]].status in {New, Notified, NeedsAttention}
                      else txs[r.candidates[n]].occurredAt + 604800 >= now))
            && (forall m, n | 0 <= m < n < |r.candidates| ::
                  && r.candidates[m] != r.candidates[n]
                  && txs[r.candidates[m]].occurredAt >= txs[r.candidates[n]].occurredAt)
            && (r.how == Ambiguous ==>
                  forall i, n | i in txs && txs[i].status in {New, Notified, NeedsAttention} && i !in r.candidates
                    && 0 <= n < |r.candidates| :: txs[r.candidates[n]].occurredAt >= txs[i].occurredAt)
            && (r.how == NoneOpen ==>
                  forall i, n | i in txs && txs[i].occurredAt + 604800 >= now && i !in r.candidates
                    && 0 <= n < |r.candidates| :: txs[r.candidates[n]].occurredAt >= txs[i].occurredAt)
  {
    ResolveFollowsPriority(d, referenced, text, now);
    hide Resolve, DecidingCode;
  }

  lemma NewestLength(txs: Transactions, some: set<nat>, limit: nat, ids: seq<nat>)
    requires some <= txs.Keys && IsNewest(txs, some, limit, ids)
    ensures |ids| == (if |some| <= limit then |some| else limit)
  {
  }

  lemma CodeDecides(txs: Transactions, codes: seq<string>, n: nat)
    requires DecidingCode(txs, codes, n) && FirstCharge(txs, codes) == WithCode(txs, codes[n])
    ensures FirstCharge(txs, codes).Some?
    ensures forall k: nat | DecidingCode(txs, codes, k) :: txs[FirstCharge(txs, codes).value].shortCode == codes[k]
  {
    hide FirstCharge, WithCode, DecidingCode;
    forall k: nat | DecidingCode(txs, codes, k) ensures k == n { DecidingIsUnique(txs, codes, k, n); }
    DecidingIsFound(txs, codes, n);
  }

  lemma DecidingIsFound(txs: Transactions, codes: seq<string>, n: nat)
    requires DecidingCode(txs, codes, n)
    ensures n < |codes| && WithCode(txs, codes[n]).Some?
  {
    FoundIsTaken(txs, codes[n]);
  }

  lemma NoneDecides(txs: Transactions, codes: seq<string>)
    requires FirstCharge(txs, codes).None?
    ensures forall n: nat :: !DecidingCode(txs, codes, n)
  {
    hide FirstCharge;
    var n := FirstChargeDecides(txs, codes);
    forall k: nat ensures !DecidingCode(txs, codes, k) {
      if k < |codes| { assert !Taken(txs, codes[k]); }
    }
  }

  // ---- lapsing ----------------------------------------------------------------------------

  /** Any set of charges lapsed. */
  function Lapse(txs: Transactions, some: set<nat>, at: int): Transactions {
    map i | i in txs :: if i in some then txs[i].(status := Lapsed, lapsedAt := Some(at)) else txs[i]
  }

  lemma {:induction false} SameCodesSameCharge(txs: Transactions, txs': Transactions, codes: seq<string>)
    requires txs'.Keys == txs.Keys && forall i | i in txs :: txs'[i].shortCode == txs[i].shortCode
    ensures FirstCharge(txs', codes) == FirstCharge(txs, codes)
    decreases |codes|
  {
    if codes != [] {
      assert CodeHolders(txs', codes[0]) == CodeHolders(txs, codes[0]);
      SameCodesSameCharge(txs, txs', codes[1..]);
    }
  }

  /**
   Lapsing any set of charges takes exactly those out of the implicit choice, and
   never changes what a reply or a code decides, before or after.
  */
  lemma LapsingOnlyQuiets(d: Db, some: set<nat>, at: int, referenced: Option<nat>, text: string, now: int)
    ensures var d' := d.(transactions := Lapse(d.transactions, some, at));
            var r, r' := Resolve(d, referenced, text, now), Resolve(d', referenced, text, now);
            && (r.how.Reply? || r.how.Code? <==> r'.how.Reply? || r'.how.Code?)
            && (r.how.Reply? || r.how.Code? ==> r' == r)
            && OutstandingCharges(d'.transactions) == OutstandingCharges(d.transactions) - some
  {
    hide ExtractCodes, FirstCharge, Newest, OpenTransactions, Recent;
    SameCodesSameCharge(d.transactions, Lapse(d.transactions, some, at), ExtractCodes(text));
  }

  /** The sweep is such a lapse, of exactly the overdue charges. */
  lemma SweepIsALapse(txs: Transactions, hours: int, now: int)
    ensures Swept(txs, hours, now) == Lapse(txs, Overdue(txs, hours, now), now)
  {
    hide Lapses;
  }

  /** Replying to a charge's announcement always finds that charge, whatever the text says. */
  lemma ReplyFindsCharge(d: Db, tx: nat, text: string, now: int)
    requires Inv(d) && tx in d.transactions && d.transactions[tx].notifyMessageId.Some?
    ensures Resolve(d, d.transactions[tx].notifyMessageId, text, now) == MatchResult(Reply, Some(tx), [], false)
  {
    hide Identity, Filing, Work, FindByCode, OpenTransactions, Newest;
    assert AnnouncementsFit(d.transactions, d.messages);
  }

  /** Codes that no charge has are passed over. */
  lemma {:induction false} UntakenArePassedOver(txs: Transactions, codes: seq<string>, rest: seq<string>)
    requires forall code | code in codes :: !Taken(txs, code)
    ensures FirstCharge(txs, codes + rest) == FirstCharge(txs, rest)
    decreases |codes|
  {
    if codes == [] {
      assert codes + rest == rest;
    } else {
      FoundIsTaken(txs, codes[0]);
      assert codes[0] in codes && (codes + rest)[0] == codes[0] && (codes + rest)[1..] == codes[1..] + rest;
      UntakenArePassedOver(txs, codes[1..], rest);
    }
  }

  /**
   A charge's code, written as the bot writes it and after no other charge's
   code, finds that charge in any status, as long as the code has at most nine
   digits; a longer one is passed over.
  */
  lemma CodeFindsCharge(d: Db, tx: nat, referenced: Option<nat>, before: string, after: string, now: int)
    requires Inv(d) && tx in d.transactions && FindByReply(d, referenced).None?
    requires after == "" || !IsWord(after[0])
    requires forall c | c in ExtractCodes(before) :: !Taken(d.transactions, c)
    ensures var code := d.transactions[tx].shortCode;
            var text := before + "#" + code + after;
            if |code| <= 9 then Resolve(d, referenced, text, now) == MatchResult(Code, Some(tx), [], false)
            else FindByCode(d.transactions, text) == FindByCode(d.transactions, after)
  {
    CodeIsTheCharge(d, tx);
    hide Inv, FindByReply, FindByCode, OpenTransactions, Newest, WithCode, Taken, ExtractCodes;
    var txs, code := d.transactions, d.transactions[tx].shortCode;
    if |code| <= 9 {
      ReadableCodeIsFound(txs, before, code, after);
    } else {
      LongCodeIsNotFound(txs, before, code, after);
    }
  }

  lemma ReadableCodeIsFound(txs: Transactions, before: string, code: string, after: string)
    requires AllDigits(code) && 3 <= |code| <= 9 && WithCode(txs, code).Some?
    requires after == "" || !IsWord(after[0])
    requires forall c | c in ExtractCodes(before) :: !Taken(txs, c)
    ensures FindByCode(txs, before + "#" + code + after) == WithCode(txs, code)
  {
    hide ExtractCodes, FirstCharge, WithCode, Taken, AllDigits, IsWord;
    WrittenCodeIsFound(before, code, after);
    var mine, later := ExtractCodes(before), ExtractCodes(after);
    assert mine + [code] + later == mine + ([code] + later);
    UntakenArePassedOver(txs, mine, [code] + later);
    CodeInFront(txs, code, later);
  }

  lemma LongCodeIsNotFound(txs: Transactions, before: string, code: string, after: string)
    requires AllDigits(code) && |code| > 9
    requires after == "" || !IsWord(after[0])
    requires forall c | c in ExtractCodes(before) :: !Taken(txs, c)
    ensures FindByCode(txs, before + "#" + code + after) == FindByCode(txs, after)
  {
    LongCodeIsPassedOver(code, after);
    hide ExtractCodes, FirstCharge, Taken, AllDigits, IsWord;
    LaterHash(before, code, after);
    CodesBeforeHash(before, "#" + code + after);
    UntakenArePassedOver(txs, ExtractCodes(before), ExtractCodes(after));
  }

  lemma LaterHash(before: string, code: string, after: string)
    ensures before + "#" + code + after == before + ("#" + code + after)
    ensures ("#" + code + after)[0] == '#'
  {
  }

  lemma CodeInFront(txs: Transactions, code: string, rest: seq<string>)
    requires WithCode(txs, code).Some?
    ensures FirstCharge(txs, [code] + rest) == WithCode(txs, code)
  {
  }

  lemma CodeIsTheCharge(d: Db, tx: nat)
    requires Inv(d) && tx in d.transactions
    ensures WithCode(d.transactions, d.transactions[tx].shortCode) == Some(tx)
    ensures AllDigits(d.transactions[tx].shortCode) && |d.transactions[tx].shortCode| >= 4
  {
    AllocatedIsNumeric(d.transactions[tx].shortCode);
    hide Filing, Talk, Work, Allocated;
    FoundIsTaken(d.transactions, d.transactions[tx].shortCode);
    assert CodesDistinct(d.transactions);
  }
}
