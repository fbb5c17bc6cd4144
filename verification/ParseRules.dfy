/** Choosing the parse rule for an email (`parse_email` in app/services/parsing.py). */
module ParseRules {
  import opened Schema

  datatype ParseRule = ParseRule(id: nat, enabled: bool, priority: int)

  datatype Fields = Fields(merchant: string, amountMinor: int, currency: string, occurredAt: Option<int>)

  /** What the regular expressions of a rule make of one email. */
  datatype Email = Email(envelope: ParseRule -> bool, extract: ParseRule -> Option<Fields>)

  datatype Outcome =
    | Parsed(rule: ParseRule, fields: Fields)
    | NoneExtracted(first: ParseRule, tried: seq<ParseRule>)
    | NoRule

  predicate Before(a: ParseRule, b: ParseRule) {
    a.priority < b.priority || (a.priority == b.priority && a.id < b.id)
  }

  predicate Candidate(r: ParseRule, e: Email) {
    r.enabled && e.envelope(r)
  }

  ghost predicate Sorted(rules: seq<ParseRule>) {
    forall i, j | 0 <= i < j < |rules| :: Before(rules[i], rules[j])
  }

  /** Rule ids are the primary key. */
  ghost predicate DistinctIds(rules: seq<ParseRule>) {
    forall i, j | 0 <= i < j < |rules| :: rules[i].id != rules[j].id
  }

  function Insert(r: ParseRule, rules: seq<ParseRule>): seq<ParseRule> {
    if rules == [] || Before(r, rules[0]) then [r] + rules else [rules[0]] + Insert(r, rules[1..])
  }

  /** `sorted(..., key=(priority, id))`. */
  function ByPriority(rules: seq<ParseRule>): seq<ParseRule> {
    if rules == [] then [] else Insert(rules[0], ByPriority(rules[1..]))
  }

  lemma {:induction false} InsertSorted(r: ParseRule, rules: seq<ParseRule>)
    requires Sorted(rules) && forall q | q in rules :: q.id != r.id
    ensures Sorted(Insert(r, rules))
    ensures forall q :: q in Insert(r, rules) <==> q == r || q in rules
    decreases |rules|
  {
    if rules != [] && !Before(r, rules[0]) {
      assert rules[0] in rules;
      InsertSorted(r, rules[1..]);
      var rest := Insert(r, rules[1..]);
      assert forall j | 0 <= j < |rest| :: rest[j] in rest;
      assert forall q | q in rules[1..] :: Before(rules[0], q);
      assert rules == [rules[0]] + rules[1..];
    }
  }

  lemma {:induction false} ByPrioritySorted(rules: seq<ParseRule>)
    requires DistinctIds(rules)
    ensures Sorted(ByPriority(rules))
    ensures forall q :: q in ByPriority(rules) <==> q in rules
    decreases |rules|
  {
    if rules != [] {
      ByPrioritySorted(rules[1..]);
      InsertSorted(rules[0], ByPriority(rules[1..]));
      assert rules == [rules[0]] + rules[1..];
    }
  }

  /**
   The outcome that a set of rules calls for: the fields from the least
   (priority, id) rule that is enabled, matches the envelope and extracts; with
   no such rule, every matching rule in order, or none.
  */
  ghost predicate IsOutcome(o: Outcome, rules: set<ParseRule>, e: Email) {
    match o
    case Parsed(r, f) =>
      && r in rules && Candidate(r, e) && e.extract(r) == Some(f)
      && (forall q | q in rules && q != r && Candidate(q, e) && e.extract(q).Some? :: Before(r, q))
    case NoneExtracted(first, tried) =>
      && (forall q :: q in tried <==> q in rules && Candidate(q, e))
      && (forall q | q in tried :: e.extract(q).None?)
      && Sorted(tried) && first in tried && first == tried[0]
    case NoRule =>
      forall q | q in rules :: !Candidate(q, e)
  }

  method ParseEmail(rules: seq<ParseRule>, e: Email) returns (o: Outcome)
    requires DistinctIds(rules)
    ensures IsOutcome(o, (set r | r in rules), e)
  {
    var ordered := ByPriority(rules);
    ByPrioritySorted(rules);
    var tried: seq<ParseRule> := [];
    for n := 0 to |ordered|
      invariant forall q :: q in tried <==> q in ordered[..n] && Candidate(q, e)
      invariant forall q | q in tried :: e.extract(q).None?
      invariant Sorted(tried)
    {
      var rule := ordered[n];
      assert ordered[..n + 1] == ordered[..n] + [rule];
      if Candidate(rule, e) {
        var fields := e.extract(rule);
        if fields.Some? {
          o := Parsed(rule, fields.value);
          LeastExtracts(ordered, n, rules, e);
          return;
        }
        assert forall q | q in tried :: q in ordered[..n] && Before(q, rule);
        tried := tried + [rule];
      }
    }
    assert ordered[..|ordered|] == ordered;
    if tried != [] {
      o := NoneExtracted(tried[0], tried);
    } else {
      o := NoRule;
    }
  }

  lemma LeastExtracts(ordered: seq<ParseRule>, n: nat, rules: seq<ParseRule>, e: Email)
    requires n < |ordered| && Sorted(ordered) && forall q :: q in ordered <==> q in rules
    requires forall q | q in ordered[..n] && Candidate(q, e) :: e.extract(q).None?
    ensures forall q | q in rules && q != ordered[n] && Candidate(q, e) && e.extract(q).Some? ::
              Before(ordered[n], q)
  {
    forall q | q in rules && q != ordered[n] && Candidate(q, e) && e.extract(q).Some?
      ensures Before(ordered[n], q)
    {
      assert q in ordered;
      var m :| 0 <= m < |ordered| && ordered[m] == q;
      assert forall k | 0 <= k < n :: ordered[k] in ordered[..n];
    }
  }

  lemma {:induction false} SortedUnique(a: seq<ParseRule>, b: seq<ParseRule>)
    requires Sorted(a) && Sorted(b) && forall q :: q in a <==> q in b
    ensures a == b
    decreases |a|
  {
    if |a + b| > 0 {
      var some := (a + b)[0];
      assert some in a + b;
      assert some in a && some in b;
      assert a[0] in b && b[0] in a;
      HeadIsLeast(a, b[0]);
      HeadIsLeast(b, a[0]);
      forall q ensures q in a[1..] <==> q in b[1..] {
        TailIsRest(a, q);
        TailIsRest(b, q);
      }
      SortedUnique(a[1..], b[1..]);
      assert a == [a[0]] + a[1..] && b == [b[0]] + b[1..];
    }
  }

  lemma HeadIsLeast(a: seq<ParseRule>, q: ParseRule)
    requires Sorted(a) && q in a
    ensures q == a[0] || Before(a[0], q)
  {
  }

  lemma TailIsRest(a: seq<ParseRule>, q: ParseRule)
    requires Sorted(a) && a != []
    ensures q in a[1..] <==> q in a && q != a[0]
  {
    assert a == [a[0]] + a[1..];
    assert forall j | 0 <= j < |a[1..]| :: a[1..][j] == a[j + 1] && Before(a[0], a[j + 1]);
  }

  /** So the outcome does not depend on the order in which the rules are listed. */
  lemma OutcomeIgnoresListOrder(o: Outcome, o': Outcome, rules: set<ParseRule>, e: Email)
    requires IsOutcome(o, rules, e) && IsOutcome(o', rules, e)
    ensures o == o'
  {
    if o.NoneExtracted? && o'.NoneExtracted? {
      SortedUnique(o.tried, o'.tried);
    }
  }

  /** An enabled rule whose envelope fits and that finds the fields `f`. */
  predicate Finds(r: ParseRule, e: Email, f: Fields) {
    r.enabled && e.envelope(r) && e.extract(r) == Some(f)
  }

  /**
   The outcome, told by the rules: the fields of the enabled, fitting rule that finds
   some with the smallest priority number, then the smallest id; a failure exactly
   when no such rule finds any, naming the fitting rules in that order.
  */
  lemma OutcomeIs(o: Outcome, rules: set<ParseRule>, e: Email)
    requires IsOutcome(o, rules, e)
    ensures o.Parsed? <==> exists r, f :: r in rules && Finds(r, e, f)
    ensures o.Parsed? ==>
              && o.rule in rules && Finds(o.rule, e, o.fields)
              && forall q, f | q in rules && q != o.rule && Finds(q, e, f) ::
                   o.rule.priority < q.priority || (o.rule.priority == q.priority && o.rule.id < q.id)
    ensures o.NoRule? <==> forall q | q in rules :: !(q.enabled && e.envelope(q))
    ensures o.NoneExtracted? ==>
              && (forall q :: q in o.tried <==> q in rules && q.enabled && e.envelope(q))
              && o.tried != [] && o.first == o.tried[0]
              && forall i, j | 0 <= i < j < |o.tried| ::
                   o.tried[i].priority < o.tried[j].priority
                   || (o.tried[i].priority == o.tried[j].priority && o.tried[i].id < o.tried[j].id)
  {
    match o
    case Parsed(r, f) => assert Finds(r, e, f);
    case NoneExtracted(first, tried) =>
      assert forall r | r in rules && Candidate(r, e) :: r in tried;
    case NoRule =>
  }
}
