/** From an email to a charge (app/services/ingest.py). */
module Ingest {
  import opened Schema
  import opened Ordering
  import opened Text
  import opened ParseRules
  import opened ShortCodes
  import opened Outbox

  /** `re.search(pattern, text, re.IGNORECASE)` succeeds; false for a pattern that does not compile. */
  type Regex = (string, string) -> bool

  datatype GraphMessage = GraphMessage(
    internetMessageId: string, sender: string, subject: string, bodyText: string, receivedAt: int)

  // ---- merchant rules -----------------------------------------------------------

  predicate Matches(re: Regex, rule: MerchantRule, merchant: string) {
    rule.enabled && rule.pattern != "" &&
    if rule.isRegex then re(rule.pattern, merchant)
    else Contains(LowerText(merchant), LowerText(rule.pattern))
  }

  function MatchingRules(re: Regex, rules: map<nat, MerchantRule>, merchant: string): set<nat> {
    set r | r in rules && Matches(re, rules[r], merchant)
  }

  /** The matching rule with the lowest id. */
  function RuleFor(re: Regex, rules: map<nat, MerchantRule>, merchant: string): (r: Option<nat>)
    ensures r.Some? ==> r.value in MatchingRules(re, rules, merchant)
  {
    var hits := MatchingRules(re, rules, merchant);
    if hits == {} then None else Some(MinOf(hits))
  }

  /** A charge filed by a rule. */
  function FiledBy(rule: MerchantRule, tx: Transaction): Transaction {
    var tx := if rule.category != "" && tx.category == "" then tx.(category := rule.category) else tx;
    if !rule.skipReceipt then tx
    else tx.(status := NoReceiptRequired,
             notes := if rule.note == "" then tx.notes else Appended(tx.notes, rule.note))
  }

  function WithRules(re: Regex, rules: map<nat, MerchantRule>, tx: Transaction): Transaction {
    match RuleFor(re, rules, tx.merchant)
    case None => tx
    case Some(r) => FiledBy(rules[r], tx)
  }

  method FileUnder(rule: MerchantRule, tx: Transaction) returns (row: Transaction)
    ensures row == FiledBy(rule, tx)
  {
    row := tx;
    if rule.category != "" && row.category == "" {
      row := row.(category := rule.category);
    }
    if rule.skipReceipt {
      row := row.(status := NoReceiptRequired);
      if rule.note != "" {
        row := row.(notes := Appended(row.notes, rule.note));
      }
    }
  }

  method ApplyMerchantRules(db: Database, re: Regex, tx: nat) returns (r: Option<nat>)
    requires tx in db.transactions
    modifies db`transactions
    ensures r == RuleFor(re, db.rules, old(db.transactions)[tx].merchant)
    ensures db.transactions
            == old(db.transactions)[tx := WithRules(re, db.rules, old(db.transactions)[tx])]
  {
    hide *;
    var rules, row := db.rules, db.transactions[tx];
    var ids := Ascending(rules.Keys);
    for n := 0 to |ids|
      invariant db.transactions == old(db.transactions)
      invariant forall k | 0 <= k < n :: !Matches(re, rules[ids[k]], row.merchant)
    {
      var rule := rules[ids[n]];
      if Matches(re, rule, row.merchant) {
        FirstHit(re, rules, row, ids, n);
        row := FileUnder(rule, row);
        db.transactions := db.transactions[tx := row];
        return Some(ids[n]);
      }
    }
    NoHit(re, rules, row, ids);
    return None;
  }

  lemma NoHit(re: Regex, rules: map<nat, MerchantRule>, tx: Transaction, ids: seq<nat>)
    requires forall x :: x in ids <==> x in rules
    requires forall k | 0 <= k < |ids| :: !Matches(re, rules[ids[k]], tx.merchant)
    ensures RuleFor(re, rules, tx.merchant) == None && WithRules(re, rules, tx) == tx
  {
    hide Matches;
    forall r | r in rules ensures !Matches(re, rules[r], tx.merchant) { assert r in ids; }
    assert MatchingRules(re, rules, tx.merchant) == {};
  }

  lemma FirstHit(re: Regex, rules: map<nat, MerchantRule>, tx: Transaction, ids: seq<nat>, n: nat)
    requires n < |ids| && (forall x :: x in ids <==> x in rules)
    requires forall i, j | 0 <= i < j < |ids| :: ids[i] < ids[j]
    requires forall k | 0 <= k < n :: !Matches(re, rules[ids[k]], tx.merchant)
    requires Matches(re, rules[ids[n]], tx.merchant)
    ensures RuleFor(re, rules, tx.merchant) == Some(ids[n])
    ensures WithRules(re, rules, tx) == FiledBy(rules[ids[n]], tx)
  {
    hide Matches, FiledBy;
    var hits := MatchingRules(re, rules, tx.merchant);
    assert ids[n] in hits;
    var m := MinOf(hits);
    assert m in ids;
    var k :| 0 <= k < |ids| && ids[k] == m;
  }

  /** What a rule's pattern asks of a merchant's name. */
  ghost predicate Applies(re: Regex, rule: MerchantRule, merchant: string) {
    && rule.enabled && rule.pattern != ""
    && if rule.isRegex then re(rule.pattern, merchant) else exists i :: ReadsAt(merchant, rule.pattern, i)
  }

  lemma MatchesWhereItApplies(re: Regex, rule: MerchantRule, merchant: string)
    ensures Matches(re, rule, merchant) <==> Applies(re, rule, merchant)
  {
    ContainsIgnoresCase(merchant, rule.pattern);
  }

  /** The first rule that applies. */
  ghost predicate Decides(re: Regex, rules: map<nat, MerchantRule>, merchant: string, r: nat) {
    r in rules && Applies(re, rules[r], merchant) && forall q | q in rules && q < r :: !Applies(re, rules[q], merchant)
  }

  lemma RuleForDecides(re: Regex, rules: map<nat, MerchantRule>, merchant: string)
    ensures match RuleFor(re, rules, merchant)
            case None => forall r | r in rules :: !Applies(re, rules[r], merchant)
            case Some(r) => Decides(re, rules, merchant, r)
  {
    hide Matches, Applies;
    forall r | r in rules ensures Matches(re, rules[r], merchant) <==> Applies(re, rules[r], merchant) {
      MatchesWhereItApplies(re, rules[r], merchant);
    }
    var hits := MatchingRules(re, rules, merchant);
    assert forall r :: r in hits <==> r in rules && Applies(re, rules[r], merchant);
  }

  /** What the rules make of a charge: only its category, status and notes, as the first rule that applies says. */
  lemma RulesFile(re: Regex, rules: map<nat, MerchantRule>, tx: Transaction)
    ensures var row := WithRules(re, rules, tx);
            && row == tx.(category := row.category, status := row.status, notes := row.notes)
            && ((forall r | r in rules :: !Applies(re, rules[r], tx.merchant)) ==> row == tx)
            && forall r | Decides(re, rules, tx.merchant, r) ::
                 && row.category == (if tx.category == "" then rules[r].category else tx.category)
                 && row.status == (if rules[r].skipReceipt then NoReceiptRequired else tx.status)
                 && row.notes == (if !rules[r].skipReceipt || rules[r].note == "" then tx.notes
                                  else if tx.notes == "" then rules[r].note
                                  else tx.notes + "\n" + rules[r].note)
  {
    RuleForDecides(re, rules, tx.merchant);
    hide Applies, RuleFor;
    forall r, q | Decides(re, rules, tx.merchant, r) && Decides(re, rules, tx.merchant, q) ensures r == q { }
  }

  // ---- refunds --------------------------------------------------------------------

  predicate Reversed(txs: Transactions, o: nat) {
    exists t | t in txs :: txs[t].refundOf == Some(o)
  }

  /** A charge that the credit `tx` may reverse. */
  predicate RefundCandidate(txs: Transactions, tx: nat, o: nat)
    requires tx in txs
  {
    && o in txs && o != tx
    && txs[o].merchant == txs[tx].merchant
    && txs[o].amountMinor == -txs[tx].amountMinor
    && txs[o].occurredAt <= txs[tx].occurredAt
    && txs[o].refundOf.None?
    && !Reversed(txs, o)
  }

  /**
   What `link_refund` may answer: nothing for a charge or when there is no
   candidate, else a most recent candidate (the query leaves ties open).
  */
  ghost predicate IsRefundChoice(txs: Transactions, tx: nat, choice: Option<nat>)
    requires tx in txs
  {
    match choice
    case None => txs[tx].amountMinor >= 0 || forall o | o in txs :: !RefundCandidate(txs, tx, o)
    case Some(o) =>
      && txs[tx].amountMinor < 0 && RefundCandidate(txs, tx, o)
      && forall c | c in txs && RefundCandidate(txs, tx, c) :: txs[c].occurredAt <= txs[o].occurredAt
  }

  /** A charge of row `c` that a credit of row `tx` can reverse, told by the columns. */
  ghost predicate Reverses(txs: Transactions, tx: Transaction, c: nat) {
    && c in txs && txs[c].merchant == tx.merchant && txs[c].amountMinor + tx.amountMinor == 0
    && txs[c].occurredAt <= tx.occurredAt && txs[c].refundOf.None?
    && forall t | t in txs :: txs[t].refundOf != Some(c)
  }

  /** A new credit is linked to a latest of the charges it can reverse, a charge to nothing. */
  lemma RefundIsLatest(txs: Transactions, id: nat, row: Transaction, choice: Option<nat>)
    requires id !in txs && row.refundOf.None? && IsRefundChoice(txs[id := row], id, choice)
    ensures choice.None? <==> row.amountMinor >= 0 || forall c :: !Reverses(txs, row, c)
    ensures choice.Some? ==>
              && Reverses(txs, row, choice.value)
              && forall c | Reverses(txs, row, c) :: txs[c].occurredAt <= txs[choice.value].occurredAt
  {
    var after := txs[id := row];
    forall c: nat ensures RefundCandidate(after, id, c) <==> Reverses(txs, row, c) {
      if RefundCandidate(after, id, c) {
        forall t | t in txs ensures txs[t].refundOf != Some(c) { assert after[t] == txs[t]; }
      }
    }
  }

  method LinkRefund(db: Database, tx: nat) returns (original: Option<nat>)
    requires tx in db.transactions
    modifies db`transactions
    ensures IsRefundChoice(old(db.transactions), tx, original)
    ensures db.transactions == old(db.transactions)[tx :=
              if original.None? then old(db.transactions)[tx]
              else old(db.transactions)[tx].(refundOf := original)]
  {
    var txs := db.transactions;
    if txs[tx].amountMinor >= 0 {
      return None;
    }
    var candidates := set o | o in txs && RefundCandidate(txs, tx, o);
    var newestFirst := Ordered(map o | o in txs :: -txs[o].occurredAt, candidates);
    if newestFirst == [] {
      assert forall o | o in txs && RefundCandidate(txs, tx, o) :: o in candidates;
      return None;
    }
    original := Some(newestFirst[0]);
    assert forall c | c in candidates :: txs[c].occurredAt <= txs[newestFirst[0]].occurredAt by {
      forall c | c in candidates ensures txs[c].occurredAt <= txs[newestFirst[0]].occurredAt {
        var k :| 0 <= k < |newestFirst| && newestFirst[k] == c;
      }
    }
    assert newestFirst[0] in newestFirst;
    db.transactions := db.transactions[tx := txs[tx].(refundOf := original)];
  }

  // ---- ingest -----------------------------------------------------------------------

  /** The coarse filter of Settings: what is wanted of sender and subject, nothing being asked when empty. */
  predicate EnvelopeAllowed(wantSender: string, wantSubject: string, sender: string, subject: string) {
    var a, b := LowerText(Strip(wantSender)), LowerText(Strip(wantSubject));
    (a == "" || Contains(LowerText(sender), a)) && (b == "" || Contains(LowerText(subject), b))
  }

  /** It lets a message pass exactly when each text asked for stands in its field, in any mixture of cases. */
  lemma EnvelopeAllowedExactly(wantSender: string, wantSubject: string, sender: string, subject: string)
    ensures EnvelopeAllowed(wantSender, wantSubject, sender, subject) <==>
              && (Strip(wantSender) == "" || exists i :: ReadsAt(sender, Strip(wantSender), i))
              && (Strip(wantSubject) == "" || exists i :: ReadsAt(subject, Strip(wantSubject), i))
  {
    hide Strip, Contains, ReadsAt;
    ContainsIgnoresCase(sender, Strip(wantSender));
    ContainsIgnoresCase(subject, Strip(wantSubject));
  }

  predicate Known(emails: map<nat, RawEmail>, internetMessageId: string) {
    exists e | e in emails :: emails[e].internetMessageId == internetMessageId
  }

  function EmailRow(m: GraphMessage, parsed: Option<Fields>): RawEmail {
    RawEmail(m.internetMessageId, m.sender, m.subject, m.bodyText, m.receivedAt, parsed.None?)
  }

  /** The charge as parsed, or the placeholder for an alert no rule could read. */
  function ChargeRow(m: GraphMessage, parsed: Option<Fields>, defaultCurrency: string,
                     code: string, email: nat): Transaction {
    var fields := match parsed
      case Some(f) => f
      case None => Fields("(unparsed)", 0, defaultCurrency, None);
    Transaction(
      code, Some(email),
      if fields.occurredAt.Some? then fields.occurredAt.value else m.receivedAt,
      if fields.merchant == "" then "(unknown)" else fields.merchant,
      fields.amountMinor, fields.currency,
      if parsed.Some? then New else NeedsAttention,
      "", "", None, None, None, None, None)
  }

  function NotifyJob(tx: nat, now: int): Job {
    NewJob(Notify, ForCharge(tx), Some(NotifyKey(tx)), now, MAX_ATTEMPTS)
  }

  /** The charge just after its insertion and the merchant rules. */
  function NewCharge(d: Db, re: Regex, m: GraphMessage, parsed: Option<Fields>, defaultCurrency: string): Transaction {
    WithRules(re, d.rules,
      ChargeRow(m, parsed, defaultCurrency, NextCode(d.transactions), NextId(d.emails)))
  }

  /** One email becomes one charge, with its notification queued in the same commit. */
  ghost predicate Ingested(d: Db, d': Db, re: Regex, m: GraphMessage, parsed: Option<Fields>,
                           defaultCurrency: string, now: int, id: nat)
    requires UniqueKeys(d.jobs)
  {
    && !Known(d.emails, m.internetMessageId)
    && id == NextId(d.transactions)
    && var row := NewCharge(d, re, m, parsed, defaultCurrency);
       exists refund: Option<nat> ::
         && IsRefundChoice(d.transactions[id := row], id, refund)
         && d' == d.(
              emails := d.emails[NextId(d.emails) := EmailRow(m, parsed)],
              transactions := d.transactions[id := row.(refundOf := refund)],
              jobs := if row.status.NoReceiptRequired? then d.jobs
                      else Enqueued(d.jobs, NotifyJob(id, now)).0)
  }

  lemma IngestedWith(d: Db, d': Db, re: Regex, m: GraphMessage, parsed: Option<Fields>,
                     defaultCurrency: string, now: int, refund: Option<nat>)
    requires UniqueKeys(d.jobs) && !Known(d.emails, m.internetMessageId)
    requires var id, row := NextId(d.transactions), NewCharge(d, re, m, parsed, defaultCurrency);
             && IsRefundChoice(d.transactions[id := row], id, refund)
             && d' == Db(
                  d.transactions[id := row.(refundOf := refund)], d.attachments,
                  d.emails[NextId(d.emails) := EmailRow(m, parsed)], d.messages,
                  if row.status.NoReceiptRequired? then d.jobs else Enqueued(d.jobs, NotifyJob(id, now)).0, d.rules)
    ensures Ingested(d, d', re, m, parsed, defaultCurrency, now, NextId(d.transactions))
  {
    hide NewCharge, IsRefundChoice, Enqueued, Known, EmailRow;
  }

  lemma NewChargeHasNoRefund(d: Db, re: Regex, m: GraphMessage, parsed: Option<Fields>, defaultCurrency: string)
    ensures NewCharge(d, re, m, parsed, defaultCurrency).refundOf == None
    ensures NewCharge(d, re, m, parsed, defaultCurrency)
            == WithRules(re, d.rules, ChargeRow(m, parsed, defaultCurrency, "", NextId(d.emails))
                                        .(shortCode := NextCode(d.transactions)))
  {
    hide NextCode, RuleFor;
  }

  /**
   What the new rows say.  The email's columns are those of the message.  The
   charge has the parsed amount, currency, merchant and time, with the defaults for
   an empty merchant and a missing time, or the placeholder when nothing could be
   parsed; neither a merchant rule nor the refund link touches those.
  */
  lemma IngestedRows(d: Db, d': Db, re: Regex, m: GraphMessage, parsed: Option<Fields>, defaultCurrency: string,
                     now: int, id: nat)
    requires UniqueKeys(d.jobs) && Ingested(d, d', re, m, parsed, defaultCurrency, now, id)
    ensures id !in d.transactions && d'.transactions.Keys == d.transactions.Keys + {id}
    ensures forall i | i in d.transactions :: d'.transactions[i] == d.transactions[i]
    ensures var row := d'.transactions[id];
            && row.emailId.Some? && row.emailId.value !in d.emails
            && d'.emails == d.emails[row.emailId.value :=
                 RawEmail(m.internetMessageId, m.sender, m.subject, m.bodyText, m.receivedAt, parsed.None?)]
            && (parsed.Some? ==>
                  var f := parsed.value;
                  && row.amountMinor == f.amountMinor && row.currency == f.currency
                  && row.merchant == (if f.merchant == "" then "(unknown)" else f.merchant)
                  && row.occurredAt == (match f.occurredAt case Some(t) => t case None => m.receivedAt))
            && (parsed.None? ==>
                  && row.amountMinor == 0 && row.currency == defaultCurrency
                  && row.merchant == "(unparsed)" && row.occurredAt == m.receivedAt)
            && row.notifyMessageId.None? && row.notifiedAt.None? && row.lapsedAt.None? && row.matchedAt.None?
    ensures d'.attachments == d.attachments && d'.messages == d.messages && d'.rules == d.rules
  {
    hide NextCode, WithRules, IsRefundChoice, Enqueued, Known;
    RulesFile(re, d.rules, ChargeRow(m, parsed, defaultCurrency, NextCode(d.transactions), NextId(d.emails)));
  }

  /**
   How the new charge is filed: by the first merchant rule that applies to its
   merchant, else as new, or as needing attention when nothing could be parsed; a
   credit is linked to a latest charge it can reverse.
  */
  lemma IngestedFiling(d: Db, d': Db, re: Regex, m: GraphMessage, parsed: Option<Fields>, defaultCurrency: string,
                       now: int, id: nat)
    requires UniqueKeys(d.jobs) && Ingested(d, d', re, m, parsed, defaultCurrency, now, id)
    ensures id in d'.transactions
    ensures var row := d'.transactions[id];
            && ((forall r | r in d.rules :: !Applies(re, d.rules[r], row.merchant)) ==>
                  row.status == (if parsed.Some? then New else NeedsAttention) && row.category == "" && row.notes == "")
            && (forall r | Decides(re, d.rules, row.merchant, r) ::
                  var rule := d.rules[r];
                  && row.category == rule.category
                  && row.status == (if rule.skipReceipt then NoReceiptRequired
                                    else if parsed.Some? then New else NeedsAttention)
                  && row.notes == (if rule.skipReceipt then rule.note else ""))
            && (row.refundOf.None? <==> row.amountMinor >= 0 || forall c :: !Reverses(d.transactions, row, c))
            && (row.refundOf.Some? ==>
                  && Reverses(d.transactions, row, row.refundOf.value)
                  && forall c | Reverses(d.transactions, row, c) ::
                       d.transactions[c].occurredAt <= d.transactions[row.refundOf.value].occurredAt)
  {
    hide NextCode, WithRules, IsRefundChoice, Enqueued, Known, Applies;
    var first := ChargeRow(m, parsed, defaultCurrency, NextCode(d.transactions), NextId(d.emails));
    RulesFile(re, d.rules, first);
    var row, last := NewCharge(d, re, m, parsed, defaultCurrency), d'.transactions[id];
    RefundIsLatest(d.transactions, id, row, last.refundOf);
    assert row.merchant == last.merchant == first.merchant;
    forall c: nat ensures Reverses(d.transactions, row, c) <==> Reverses(d.transactions, last, c) { }
  }

  /**
   The announcement of the new charge: none if a rule filed it, else one notify
   job for it, due at once, with the usual eight attempts, unless one is outstanding.
  */
  lemma IngestedNotice(d: Db, d': Db, re: Regex, m: GraphMessage, parsed: Option<Fields>, defaultCurrency: string,
                       now: int, id: nat)
    requires UniqueKeys(d.jobs) && Ingested(d, d', re, m, parsed, defaultCurrency, now, id)
    ensures id in d'.transactions && (d'.transactions[id].status == NoReceiptRequired ==> d'.jobs == d.jobs)
    ensures d'.transactions[id].status != NoReceiptRequired ==>
              && (forall i | i in d.jobs && d.jobs[i].key != Some(NotifyKey(id)) ::
                    i in d'.jobs && d'.jobs[i] == d.jobs[i])
              && (forall i | i in d'.jobs && !(i in d.jobs && d'.jobs[i] == d.jobs[i]) ::
                    d'.jobs[i] == Job(Notify, ForCharge(id), Some(NotifyKey(id)), Pending, 0, 8, now))
              && exists i :: i in d'.jobs && d'.jobs[i].key == Some(NotifyKey(id))
                             && d'.jobs[i].status in {Pending, Running}
  {
    hide NewCharge, IsRefundChoice, Enqueued, Known;
    EnqueueAnswers(d.jobs, NotifyJob(id, now));
  }

  /** The part of ingest that writes the charge: code, merchant rules, refund link. */
  method AddCharge(db: Database, re: Regex, m: GraphMessage, parsed: Option<Fields>, defaultCurrency: string,
                   rivals: seq<set<string>>, email: nat, ghost d: Db)
    returns (r: Result<nat>, refund: Option<nat>)
    requires |rivals| == ATTEMPTS && email == NextId(d.emails)
    requires db.transactions == d.transactions && db.rules == d.rules
    modifies db`transactions
    ensures r.Failure? <==> forall n | 0 <= n < ATTEMPTS :: NextCode(d.transactions) in rivals[n]
    ensures r.Failure? ==> db.transactions == d.transactions
    ensures r.Success? ==>
              var row := NewCharge(d, re, m, parsed, defaultCurrency);
              && r.value == NextId(d.transactions)
              && IsRefundChoice(d.transactions[r.value := row], r.value, refund)
              && db.transactions == d.transactions[r.value := row.(refundOf := refund)]
  {
    hide *;
    var row := ChargeRow(m, parsed, defaultCurrency, "", email);
    r := Allocate(db, row, rivals);
    if r.Failure? {
      return r, None;
    }
    var rule := ApplyMerchantRules(db, re, r.value);
    NewChargeHasNoRefund(d, re, m, parsed, defaultCurrency);
    assert db.transactions == d.transactions[r.value := NewCharge(d, re, m, parsed, defaultCurrency)];
    refund := LinkRefund(db, r.value);
  }

  datatype IngestOutcome = Created(tx: nat) | Duplicate | FilteredOut | Raised

  /** The outcome for a message that is new and wanted. */
  ghost predicate Stored(d: Db, d': Db, re: Regex, m: GraphMessage, parsed: Option<Fields>,
                         defaultCurrency: string, rivals: seq<set<string>>, now: int, r: IngestOutcome)
    requires UniqueKeys(d.jobs) && |rivals| == ATTEMPTS
  {
    if forall n | 0 <= n < ATTEMPTS :: NextCode(d.transactions) in rivals[n] then r == Raised && d' == d
    else r.Created? && Ingested(d, d', re, m, parsed, defaultCurrency, now, r.tx)
  }

  /** What `ingest_message`, run in its own session, does and answers. */
  ghost predicate IngestRan(d: Db, d': Db, re: Regex, m: GraphMessage, allowed: bool, parsed: Option<Fields>,
                            defaultCurrency: string, rivals: seq<set<string>>, now: int, r: IngestOutcome)
    requires UniqueKeys(d.jobs) && |rivals| == ATTEMPTS
  {
    if Known(d.emails, m.internetMessageId) then r == Duplicate && d' == d
    else if !allowed then r == FilteredOut && d' == d
    else Stored(d, d', re, m, parsed, defaultCurrency, rivals, now, r)
  }

  /** The answers: a known id is a duplicate, then the filter speaks, then all five attempts at a code can collide. */
  lemma IngestAnswers(d: Db, d': Db, re: Regex, m: GraphMessage, allowed: bool, parsed: Option<Fields>,
                      defaultCurrency: string, rivals: seq<set<string>>, now: int, r: IngestOutcome)
    requires UniqueKeys(d.jobs) && |rivals| == ATTEMPTS
    requires IngestRan(d, d', re, m, allowed, parsed, defaultCurrency, rivals, now, r)
    ensures r.Duplicate? <==> exists e :: e in d.emails && d.emails[e].internetMessageId == m.internetMessageId
    ensures r.FilteredOut? <==> !r.Duplicate? && !allowed
    ensures r.Raised? <==>
              && !r.Duplicate? && allowed && |rivals| == 5
              && forall n | 0 <= n < 5 :: Decimal(FirstTry(d.transactions)) in rivals[n]
    ensures !r.Created? ==> d' == d
    ensures r.Created? ==> Ingested(d, d', re, m, parsed, defaultCurrency, now, r.tx)
  {
    hide Ingested, FirstTry;
  }

  method StoreMessage(db: Database, re: Regex, m: GraphMessage, parsed: Option<Fields>,
                      defaultCurrency: string, rivals: seq<set<string>>, now: int)
    returns (r: IngestOutcome)
    requires UniqueKeys(db.jobs) && |rivals| == ATTEMPTS && !Known(db.emails, m.internetMessageId)
    modifies db
    ensures Stored(old(db.View()), db.View(), re, m, parsed, defaultCurrency, rivals, now, r)
  {
    hide NewCharge, NextCode, Enqueued, IsRefundChoice, Ingested, EmailRow, Known, UniqueKeys, NextId;
    ghost var d := db.View();
    var email, before := NextId(db.emails), db.emails;
    db.emails := db.emails[email := EmailRow(m, parsed)];
    var charged, refund := AddCharge(db, re, m, parsed, defaultCurrency, rivals, email, d);
    if charged.Failure? {
      db.emails := before;
      return Raised;
    }
    var id := charged.value;
    if !db.transactions[id].status.NoReceiptRequired? {
      var job := Enqueue(db, Notify, ForCharge(id), Some(NotifyKey(id)), now);
    }
    IngestedWith(d, db.View(), re, m, parsed, defaultCurrency, now, refund);
    return Created(id);
  }

  /**
   `allowed` is the verdict of the envelope filter (`EnvelopeAllowed`), `parsed` the outcome of the
   parse rules, and `rivals` the codes that concurrent writers hold at each
   allocation attempt.  Anything but a new charge leaves the database as it was.
  */
  method IngestMessage(db: Database, re: Regex, m: GraphMessage, allowed: bool, parsed: Option<Fields>,
                       defaultCurrency: string, rivals: seq<set<string>>, now: int)
    returns (r: IngestOutcome)
    requires UniqueKeys(db.jobs) && |rivals| == ATTEMPTS
    modifies db
    ensures IngestRan(old(db.View()), db.View(), re, m, allowed, parsed, defaultCurrency, rivals, now, r)
  {
    hide Stored, Known, UniqueKeys;
    if Known(db.emails, m.internetMessageId) {
      r := Duplicate;
    } else if !allowed {
      r := FilteredOut;
    } else {
      r := StoreMessage(db, re, m, parsed, defaultCurrency, rivals, now);
    }
  }
}
