/** Filing a merchant's charges away, now and in future (`silence_merchant` in app/services/ingest.py). */
module Silencing {
  import opened Schema
  import opened Ordering
  import opened Outbox
  import opened Withdrawal
  import opened Ingest

  datatype Request = Request(pattern: string, isRegex: bool, category: string, note: string)

  // ---- the rule ---------------------------------------------------------------------

  function RulesFor(rules: map<nat, MerchantRule>, pattern: string): set<nat> {
    set r | r in rules && rules[r].pattern == pattern
  }

  /** A rule switched on, skipping receipts, with what the request says overwritten. */
  function SwitchedOn(rule: MerchantRule, q: Request): MerchantRule {
    rule.(enabled := true, skipReceipt := true,
          category := if q.category != "" then q.category else rule.category,
          note := if q.note != "" then q.note else rule.note)
  }

  /** Some rule with the pattern, or a new one, was switched on; the others stay. */
  ghost predicate RuleSet(rules: map<nat, MerchantRule>, rules': map<nat, MerchantRule>, q: Request, r: nat) {
    if RulesFor(rules, q.pattern) == {} then
      && r == NextId(rules)
      && rules' == rules[r := SwitchedOn(MerchantRule(q.pattern, q.isRegex, true, true, "", ""), q)]
    else
      r in RulesFor(rules, q.pattern) && rules' == rules[r := SwitchedOn(rules[r], q)]
  }

  method SetRule(db: Database, q: Request) returns (r: nat)
    modifies db`rules
    ensures RuleSet(old(db.rules), db.rules, q, r)
  {
    var rule;
    var hits := RulesFor(db.rules, q.pattern);
    if hits == {} {
      r := NextId(db.rules);
      rule := MerchantRule(q.pattern, q.isRegex, true, true, "", "");
    } else {
      r :| r in hits;
      rule := db.rules[r];
    }
    rule := rule.(enabled := true, skipReceipt := true);
    if q.category != "" {
      rule := rule.(category := q.category);
    }
    if q.note != "" {
      rule := rule.(note := q.note);
    }
    db.rules := db.rules[r := rule];
  }

  // ---- the charges ------------------------------------------------------------------

  function Stale(txs: Transactions): set<nat> {
    set i | i in txs && Unreceipted(txs[i].status)
  }

  predicate Fileable(txs: Transactions, atts: map<nat, Attachment>, re: Regex, rule: MerchantRule, i: nat) {
    i in txs && Unreceipted(txs[i].status) && Receipts(atts, i) == {} && Matches(re, rule, txs[i].merchant)
  }

  /** The matching charges in a stale status that have no receipt. */
  function ToFile(txs: Transactions, atts: map<nat, Attachment>, re: Regex, rule: MerchantRule): set<nat> {
    set i | i in txs && Fileable(txs, atts, re, rule, i)
  }

  function Filed(rule: MerchantRule, tx: Transaction): Transaction {
    FiledBy(rule, tx).(notifyMessageId := None)
  }

  function WithFiled(txs: Transactions, rule: MerchantRule, filed: set<nat>): Transactions {
    map i | i in txs :: if i in filed then Filed(rule, txs[i]) else txs[i]
  }

  /** The announcements of some charges. */
  function Announcements(txs: Transactions, charges: set<nat>): set<nat> {
    set i | i in charges && i in txs && txs[i].notifyMessageId.Some? :: txs[i].notifyMessageId.value
  }

  /** Everything `silence_merchant` does, with the rule it used and the charges it filed. */
  ghost predicate Silenced(d: Db, d': Db, re: Regex, q: Request, now: int, r: nat, filed: set<nat>)
    requires r in d'.rules
  {
    && RuleSet(d.rules, d'.rules, q, r)
    && filed == ToFile(d.transactions, d.attachments, re, d'.rules[r])
    && d'.transactions == WithFiled(d.transactions, d'.rules[r], filed)
    && Withdrawn(d.jobs, d'.jobs, filed, Announcements(d.transactions, filed), now)
    && d'.attachments == d.attachments && d'.emails == d.emails && d'.messages == d.messages
  }

  /**
   The charges filed are those without a receipt whose status still asks for one
   and to whose merchant the rule applies.  Each loses its announcement and gets the
   status, the rule's category if it has none, and the rule's note; no other changes.
  */
  lemma SilencedCharges(d: Db, d': Db, re: Regex, q: Request, now: int, r: nat, filed: set<nat>)
    requires r in d'.rules && Silenced(d, d', re, q, now, r, filed)
    ensures forall i :: i in filed <==>
              && i in d.transactions && d.transactions[i].status in {New, Notified, Lapsed, NeedsAttention}
              && (forall a | a in d.attachments :: d.attachments[a].transactionId != Some(i))
              && Applies(re, d'.rules[r], d.transactions[i].merchant)
    ensures d'.transactions.Keys == d.transactions.Keys
    ensures forall i | i in d.transactions && i !in filed :: d'.transactions[i] == d.transactions[i]
    ensures forall i | i in filed ::
              var tx, rule := d.transactions[i], d'.rules[r];
              d'.transactions[i] == tx.(status := NoReceiptRequired, notifyMessageId := None,
                                        category := if tx.category == "" then rule.category else tx.category,
                                        notes := if rule.note == "" then tx.notes
                                                 else if tx.notes == "" then rule.note
                                                 else tx.notes + "\n" + rule.note)
  {
    hide Withdrawn, Matches, Applies;
    RuleIsSet(d.rules, d'.rules, q, r);
    var rule := d'.rules[r];
    forall i | i in d.transactions
      ensures Matches(re, rule, d.transactions[i].merchant) <==> Applies(re, rule, d.transactions[i].merchant)
      ensures Receipts(d.attachments, i) == {} <==>
              forall a | a in d.attachments :: d.attachments[a].transactionId != Some(i)
    {
      MatchesWhereItApplies(re, rule, d.transactions[i].merchant);
      NoReceipts(d.attachments, i);
    }
  }

  lemma NoReceipts(atts: map<nat, Attachment>, i: nat)
    ensures Receipts(atts, i) == {} <==> forall a | a in atts :: atts[a].transactionId != Some(i)
  {
    if a :| a in atts && atts[a].transactionId == Some(i) { assert a in Receipts(atts, i); }
  }

  /** The rule: one with the pattern if there is one, else a new one; on, skipping receipts, with what was asked. */
  lemma SilencedRule(d: Db, d': Db, re: Regex, q: Request, now: int, r: nat, filed: set<nat>)
    requires r in d'.rules && Silenced(d, d', re, q, now, r, filed)
    ensures d'.rules == d.rules[r := d'.rules[r]]
    ensures r in d.rules ==> d.rules[r].pattern == q.pattern
    ensures r !in d.rules <==> forall o | o in d.rules :: d.rules[o].pattern != q.pattern
    ensures var was := if r in d.rules then d.rules[r] else MerchantRule(q.pattern, q.isRegex, true, true, "", "");
            d'.rules[r] == was.(enabled := true, skipReceipt := true,
                                category := if q.category == "" then was.category else q.category,
                                note := if q.note == "" then was.note else q.note)
  {
    hide Withdrawn, ToFile, WithFiled;
    assert forall o :: o in RulesFor(d.rules, q.pattern) <==> o in d.rules && d.rules[o].pattern == q.pattern;
  }

  /** Message `m` announced charge `i`, one of those filed. */
  predicate HadAnnouncement(txs: Transactions, charges: set<nat>, i: nat, m: nat) {
    i in charges && i in txs && txs[i].notifyMessageId == Some(m)
  }

  /** The queue: no job of a filed charge is left, its announcement has one deletion, nothing else is new or gone. */
  lemma SilencedJobs(d: Db, d': Db, re: Regex, q: Request, now: int, r: nat, filed: set<nat>)
    requires r in d'.rules && Silenced(d, d', re, q, now, r, filed)
    ensures forall i | i in filed && i in d.transactions && d.transactions[i].notifyMessageId.Some? ::
              OneDeletion(d'.jobs, d.transactions[i].notifyMessageId.value)
    ensures forall j | j in d'.jobs && !(j in d.jobs && d'.jobs[j] == d.jobs[j]) ::
              exists i, m :: HadAnnouncement(d.transactions, filed, i, m) &&
                d'.jobs[j] == Job(DeleteMessage, ForMessage(m), Some(DeleteKey(m)), Pending, 0, 8, now)
    ensures forall j | j in d'.jobs :: !NamesCharge(d'.jobs[j].payload, filed)
    ensures forall j | j in d.jobs && !NamesCharge(d.jobs[j].payload, filed) ::
              (j in d'.jobs && d'.jobs[j] == d.jobs[j])
              || exists i, m :: HadAnnouncement(d.transactions, filed, i, m) &&
                   d.jobs[j].key == Some(DeleteKey(m))
  {
    var asks := Announcements(d.transactions, filed);
    WithdrawnRows(d.jobs, d'.jobs, filed, asks, now);
    forall m: nat ensures m in asks <==> exists i :: HadAnnouncement(d.transactions, filed, i, m) {
      assert m in asks <==>
          exists i | i in filed && i in d.transactions :: d.transactions[i].notifyMessageId == Some(m);
      assert forall i: nat :: HadAnnouncement(d.transactions, filed, i, m) <==>
               i in filed && i in d.transactions && d.transactions[i].notifyMessageId == Some(m);
    }
    hide Withdrawn, OneDeletion, ToFile, WithFiled, RuleSet, NamesCharge, Announcements;
  }

  // ---- the loop -----------------------------------------------------------------------

  /** The state after the charges of `filed` have been dealt with. */
  ghost predicate Progress(txs: Transactions, t: Jobs, txs': Transactions, t': Jobs,
                           rule: MerchantRule, filed: set<nat>, now: int) {
    && txs' == WithFiled(txs, rule, filed)
    && Withdrawn(t, t', filed, Announcements(txs, filed), now)
  }

  lemma ProgressStarts(txs: Transactions, t: Jobs, rule: MerchantRule, now: int)
    requires UniqueKeys(t)
    ensures Progress(txs, t, txs, t, rule, {}, now)
  {
    NothingWithdrawn(t, now);
    assert Announcements(txs, {}) == {};
    assert WithFiled(txs, rule, {}) == txs;
  }

  lemma ProgressOneMore(txs: Transactions, t: Jobs, txs1: Transactions, t1: Jobs, t2: Jobs,
                        rule: MerchantRule, filed: set<nat>, i: nat, now: int)
    requires DeleteKeysAgree(t) && Progress(txs, t, txs1, t1, rule, filed, now)
    requires i in txs && i !in filed
    requires UniqueKeys(Discarded(t1, i)) &&
             t2 == if txs[i].notifyMessageId.None? then Discarded(t1, i)
                   else Enqueued(Discarded(t1, i), DeleteJob(txs[i].notifyMessageId.value, now)).0
    ensures i in txs1 && txs1[i] == txs[i]
    ensures Progress(txs, t, txs1[i := Filed(rule, txs[i])], t2, rule, filed + {i}, now)
  {
    hide Withdrawn, Enqueued, Discarded, Filed, DeleteKeysAgree, UniqueKeys;
    var asks := Announcements(txs, filed);
    DiscardWithdraws(t, t1, filed, asks, i, now);
    if txs[i].notifyMessageId.Some? {
      AskWithdraws(t, Discarded(t1, i), filed + {i}, asks, txs[i].notifyMessageId.value, now);
      assert Announcements(txs, filed + {i}) == asks + {txs[i].notifyMessageId.value};
    } else {
      assert Announcements(txs, filed + {i}) == asks;
    }
    assert txs1[i := Filed(rule, txs[i])] == WithFiled(txs, rule, filed + {i});
  }

  lemma DiscardedKeysUnique(t: Jobs, tx: nat)
    requires UniqueKeys(t)
    ensures UniqueKeys(Discarded(t, tx))
  {
  }

  /** File one charge: status, category, note; withdraw its jobs and its announcement. */
  method FileAndWithdraw(db: Database, rule: MerchantRule, i: nat, now: int)
    requires i in db.transactions && UniqueKeys(db.jobs) && rule.skipReceipt
    modifies db`transactions, db`jobs
    ensures UniqueKeys(Discarded(old(db.jobs), i))
    ensures db.transactions == old(db.transactions)[i := Filed(rule, old(db.transactions)[i])]
    ensures var m := old(db.transactions)[i].notifyMessageId;
            db.jobs == if m.None? then Discarded(old(db.jobs), i)
                       else Enqueued(Discarded(old(db.jobs), i), DeleteJob(m.value, now)).0
  {
    hide UniqueKeys, Discarded, Enqueued, FiledBy;
    DiscardedKeysUnique(db.jobs, i);
    var row := FileUnder(rule, db.transactions[i]);
    var removed := DiscardForTransaction(db, i);
    FilingKeepsAnnouncement(rule, db.transactions[i]);
    if row.notifyMessageId.Some? {
      var m := row.notifyMessageId.value;
      var job := Enqueue(db, DeleteMessage, ForMessage(m), Some(DeleteKey(m)), now);
      row := row.(notifyMessageId := None);
    }
    db.transactions := db.transactions[i := row];
  }

  lemma FilingKeepsAnnouncement(rule: MerchantRule, tx: Transaction)
    ensures FiledBy(rule, tx).notifyMessageId == tx.notifyMessageId
    ensures tx.notifyMessageId.None? ==> Filed(rule, tx) == FiledBy(rule, tx)
  {
  }

  /** With the request carried out, the rule it used is on and skips receipts. */
  lemma RuleIsSet(rules: map<nat, MerchantRule>, rules': map<nat, MerchantRule>, q: Request, r: nat)
    requires RuleSet(rules, rules', q, r)
    ensures r in rules' && rules'[r].pattern == q.pattern && rules'[r].enabled && rules'[r].skipReceipt
    ensures rules' == rules[r := rules'[r]]
  {
  }

  /** File every charge the rule applies to. */
  method FileCharges(db: Database, re: Regex, rule: MerchantRule, now: int)
    returns (affected: nat, ghost filed: set<nat>)
    requires UniqueKeys(db.jobs) && DeleteKeysAgree(db.jobs) && rule.skipReceipt
    modifies db`transactions, db`jobs
    ensures affected == |filed| && filed == ToFile(old(db.transactions), db.attachments, re, rule)
    ensures Progress(old(db.transactions), old(db.jobs), db.transactions, db.jobs, rule, filed, now)
  {
    hide *;
    ghost var txs, t := db.transactions, db.jobs;
    var todo := Stale(db.transactions);
    filed, affected := {}, 0;
    ProgressStarts(txs, t, rule, now);
    StaleIsEnough(txs, db.attachments, re, rule);
    while todo != {}
      invariant todo <= Stale(txs) && filed == ToFile(txs, db.attachments, re, rule) - todo
      invariant Progress(txs, t, db.transactions, db.jobs, rule, filed, now)
      invariant affected == |filed|
      decreases |todo|
    {
      var i :| i in todo;
      todo := todo - {i};
      StaleRow(txs, db.attachments, re, rule, i);
      ProgressKeeps(txs, t, db.transactions, db.jobs, rule, filed, i, now);
      if Receipts(db.attachments, i) == {} && Matches(re, rule, db.transactions[i].merchant) {
        ghost var txs1, t1 := db.transactions, db.jobs;
        FileAndWithdraw(db, rule, i, now);
        ProgressOneMore(txs, t, txs1, t1, db.jobs, rule, filed, i, now);
        filed, affected := filed + {i}, affected + 1;
      }
    }
  }

  lemma StaleIsEnough(txs: Transactions, atts: map<nat, Attachment>, re: Regex, rule: MerchantRule)
    ensures ToFile(txs, atts, re, rule) <= Stale(txs)
  {
  }

  lemma StaleRow(txs: Transactions, atts: map<nat, Attachment>, re: Regex, rule: MerchantRule, i: nat)
    requires i in Stale(txs)
    ensures i in txs
    ensures i in ToFile(txs, atts, re, rule) <==> Receipts(atts, i) == {} && Matches(re, rule, txs[i].merchant)
  {
  }

  method SilenceMerchant(db: Database, re: Regex, q: Request, now: int)
    returns (r: nat, affected: nat, ghost filed: set<nat>)
    requires UniqueKeys(db.jobs) && DeleteKeysAgree(db.jobs)
    modifies db`rules, db`transactions, db`jobs
    ensures affected == |filed|
    ensures r in db.rules && Silenced(old(db.View()), db.View(), re, q, now, r, filed)
  {
    hide UniqueKeys, DeleteKeysAgree, Withdrawn, ToFile, RuleSet, WithFiled, Announcements;
    r := SetRule(db, q);
    RuleIsSet(old(db.rules), db.rules, q, r);
    affected, filed := FileCharges(db, re, db.rules[r], now);
  }

  lemma ProgressKeeps(txs: Transactions, t: Jobs, txs1: Transactions, t1: Jobs,
                      rule: MerchantRule, filed: set<nat>, i: nat, now: int)
    requires Progress(txs, t, txs1, t1, rule, filed, now) && i in txs && i !in filed
    ensures i in txs1 && txs1[i] == txs[i] && UniqueKeys(t1)
  {
  }

  // ---- what silencing is for ----------------------------------------------------------

  lemma SwitchingOnAgain(rule: MerchantRule, q: Request)
    ensures SwitchedOn(SwitchedOn(rule, q), q) == SwitchedOn(rule, q)
  {
  }

  /**
   Silencing the same merchant again files nothing and changes nothing, provided
   the repeat finds the rule the first call used, as it must when the pattern
   was not entered twice.
  */
  lemma SilencingAgainChangesNothing(d: Db, d1: Db, d2: Db, re: Regex, q: Request, now: int, later: int,
                                     r: nat, filed: set<nat>, r2: nat, again: set<nat>)
    requires r in d1.rules && r2 in d2.rules
    requires Silenced(d, d1, re, q, now, r, filed) && Silenced(d1, d2, re, q, later, r2, again)
    requires r2 == r || |RulesFor(d.rules, q.pattern)| <= 1
    ensures again == {} && d2 == d1
  {
    hide Withdrawn, FiledBy, Matches, Receipts, Announcements;
    RepeatFindsRule(d, d1, d2, q, r, r2);
    var rule := d1.rules[r];
    forall i | i in d1.transactions ensures !Fileable(d1.transactions, d1.attachments, re, rule, i) {
      if i in filed { FilingSettles(rule, d.transactions[i]); }
    }
    assert again == {};
    assert Announcements(d1.transactions, {}) == {} by { NoAnnouncements(d1.transactions); }
    WithdrawingNothing(d1.jobs, d2.jobs, later);
    assert d2.transactions == d1.transactions;
  }

  lemma NoAnnouncements(txs: Transactions)
    ensures Announcements(txs, {}) == {}
  {
  }

  lemma FilingSettles(rule: MerchantRule, tx: Transaction)
    requires rule.skipReceipt
    ensures !Unreceipted(Filed(rule, tx).status)
  {
  }

  lemma RepeatFindsRule(d: Db, d1: Db, d2: Db, q: Request, r: nat, r2: nat)
    requires r in d1.rules && RuleSet(d.rules, d1.rules, q, r) && RuleSet(d1.rules, d2.rules, q, r2)
    requires r2 == r || |RulesFor(d.rules, q.pattern)| <= 1
    ensures r2 == r && d2.rules == d1.rules && d1.rules[r].skipReceipt
  {
    RuleIsSet(d.rules, d1.rules, q, r);
    assert r in RulesFor(d1.rules, q.pattern);
    if r2 != r {
      var before := RulesFor(d.rules, q.pattern);
      assert r2 in before;
      assert r in before;
      OnlyMember(before, r, r2);
    }
    SwitchingOnAgain(if r in d.rules then d.rules[r] else MerchantRule(q.pattern, q.isRegex, true, true, "", ""), q);
  }

  lemma OnlyMember(s: set<nat>, a: nat, b: nat)
    requires |s| <= 1 && a in s && b in s
    ensures a == b
  {
    assert |s - {a}| == 0;
    assert b !in s - {a};
  }

  /**
   After silencing, a new charge the rule matches is filed without being
   announced if and only if the matching rule with the lowest id skips receipts;
   so it is announced only when an older matching rule asks for receipts.
  */
  lemma LaterChargesAreFiled(d: Db, d': Db, re: Regex, q: Request, now: int, r: nat, filed: set<nat>, tx: Transaction)
    requires r in d'.rules && Silenced(d, d', re, q, now, r, filed)
    requires Matches(re, d'.rules[r], tx.merchant) && !tx.status.NoReceiptRequired?
    ensures var first := RuleFor(re, d'.rules, tx.merchant);
            && first.Some? && first.value <= r
            && (WithRules(re, d'.rules, tx).status.NoReceiptRequired? <==> d'.rules[first.value].skipReceipt)
            && (!WithRules(re, d'.rules, tx).status.NoReceiptRequired? ==>
                  first.value < r && d'.rules[first.value].enabled)
  {
    hide Withdrawn;
    RuleIsSet(d.rules, d'.rules, q, r);
    assert r in MatchingRules(re, d'.rules, tx.merchant);
  }
}
