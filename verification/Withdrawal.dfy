/**
 Taking a charge's queued work and channel messages back, the job-queue half of
 silencing a merchant and of deleting a charge.
*/
module Withdrawal {
  import opened Schema
  import opened Outbox

  function DeleteJob(m: nat, now: int): Job {
    NewJob(DeleteMessage, ForMessage(m), Some(DeleteKey(m)), now, MAX_ATTEMPTS)
  }

  /** Whether a key asks for the deletion of one of `messages`. */
  predicate AsksFor(key: Option<Key>, messages: set<nat>) {
    key.Some? && key.value.DeleteKey? && key.value.message in messages
  }

  predicate BelongsTo(j: Job, charges: set<nat>) {
    ChargeOf(j.payload).Some? && ChargeOf(j.payload).value in charges
  }

  /** A deletion key is only ever enqueued with the message it names. */
  ghost predicate DeleteKeysAgree(t: Jobs) {
    forall i | i in t && t[i].key.Some? && t[i].key.value.DeleteKey? ::
      t[i].payload == ForMessage(t[i].key.value.message)
  }

  /** A row of `t'` is a row of `t` that was kept, or a fresh deletion of one of `messages`. */
  predicate Accounted(t: Jobs, t': Jobs, i: nat, charges: set<nat>, messages: set<nat>, now: int)
    requires i in t'
  {
    || (i in t && t'[i] == t[i] && !BelongsTo(t[i], charges))
    || (AsksFor(t'[i].key, messages) && t'[i] == DeleteJob(t'[i].key.value.message, now))
  }

  /**
   No job of `charges` is left, each of `messages` has exactly one outstanding
   deletion, and every job that is about neither is as it was.
  */
  ghost predicate Withdrawn(t: Jobs, t': Jobs, charges: set<nat>, messages: set<nat>, now: int) {
    && UniqueKeys(t')
    && (forall i | i in t' :: Accounted(t, t', i, charges, messages, now))
    && (forall i | i in t && !BelongsTo(t[i], charges) && !AsksFor(t[i].key, messages) ::
          i in t' && t'[i] == t[i])
    && (forall m | m in messages :: EnsuredOnce(t', DeleteKey(m)))
  }

  /** The payload names one of the charges. */
  predicate NamesCharge(p: Payload, charges: set<nat>) {
    (p.ForCharge? && p.tx in charges) || (p.ForReceipts? && p.tx in charges)
  }

  /** There is one job to delete the message, and it is still to be run or running. */
  ghost predicate OneDeletion(t: Jobs, m: nat) {
    exists i :: i in t && t[i].key == Some(DeleteKey(m)) && t[i].status in {Pending, Running}
                && forall k | k in t && t[k].key == Some(DeleteKey(m)) :: k == i
  }

  /**
   Row by row: what is new is the deletion of one of the messages, due at once;
   what is gone named one of the charges or was an old deletion of such a message.
  */
  lemma WithdrawnRows(t: Jobs, t': Jobs, charges: set<nat>, messages: set<nat>, now: int)
    requires Withdrawn(t, t', charges, messages, now)
    ensures forall i | i in t' && !(i in t && t'[i] == t[i]) ::
              exists m | m in messages ::
                t'[i] == Job(DeleteMessage, ForMessage(m), Some(DeleteKey(m)), Pending, 0, 8, now)
    ensures forall i | i in t' :: !NamesCharge(t'[i].payload, charges)
    ensures forall i | i in t && !NamesCharge(t[i].payload, charges) ::
              (i in t' && t'[i] == t[i]) || exists m | m in messages :: t[i].key == Some(DeleteKey(m))
    ensures forall m | m in messages :: OneDeletion(t', m)
  {
    forall i | i in t'
      ensures !NamesCharge(t'[i].payload, charges)
      ensures (i in t && t'[i] == t[i]) ||
              exists m | m in messages ::
                t'[i] == Job(DeleteMessage, ForMessage(m), Some(DeleteKey(m)), Pending, 0, 8, now)
    {
      assert Accounted(t, t', i, charges, messages, now);
    }
    forall m | m in messages ensures OneDeletion(t', m) { EnsuredDeletion(t', m); }
  }

  lemma EnsuredDeletion(t: Jobs, m: nat)
    requires EnsuredOnce(t, DeleteKey(m))
    ensures OneDeletion(t, m)
  {
    var i :| Holders(t, DeleteKey(m)) == {i} && Live(t[i]);
    assert i in Holders(t, DeleteKey(m));
    forall k | k in t && t[k].key == Some(DeleteKey(m)) ensures k == i { assert k in Holders(t, DeleteKey(m)); }
  }

  lemma NothingWithdrawn(t: Jobs, now: int)
    requires UniqueKeys(t)
    ensures Withdrawn(t, t, {}, {}, now)
  {
  }

  lemma WithdrawingNothing(t: Jobs, t': Jobs, now: int)
    requires Withdrawn(t, t', {}, {}, now)
    ensures t' == t
  {
    forall i | i in t' ensures i in t && t'[i] == t[i] { assert Accounted(t, t', i, {}, {}, now); }
    forall i | i in t ensures i in t' { assert !BelongsTo(t[i], {}) && !AsksFor(t[i].key, {}); }
  }

  lemma WithdrawnKeysAgree(t: Jobs, t': Jobs, charges: set<nat>, messages: set<nat>, now: int)
    requires Withdrawn(t, t', charges, messages, now) && DeleteKeysAgree(t)
    ensures DeleteKeysAgree(t')
  {
    forall i | i in t' && t'[i].key.Some? && t'[i].key.value.DeleteKey?
      ensures t'[i].payload == ForMessage(t'[i].key.value.message)
    {
      assert Accounted(t, t', i, charges, messages, now);
    }
  }

  /** Discarding one more charge's jobs loses no deletion: those carry no charge. */
  lemma DiscardWithdraws(t: Jobs, t1: Jobs, charges: set<nat>, messages: set<nat>, tx: nat, now: int)
    requires Withdrawn(t, t1, charges, messages, now) && DeleteKeysAgree(t)
    ensures Withdrawn(t, Discarded(t1, tx), charges + {tx}, messages, now)
  {
    hide EnsuredOnce;
    var t2 := Discarded(t1, tx);
    WithdrawnKeysAgree(t, t1, charges, messages, now);
    forall i | i in t2 ensures Accounted(t, t2, i, charges + {tx}, messages, now) {
      assert Accounted(t, t1, i, charges, messages, now);
    }
    forall m | m in messages ensures EnsuredOnce(t2, DeleteKey(m)) { DiscardKeepsAsk(t1, tx, m); }
  }

  /** A queued deletion names no charge, so discarding a charge's jobs leaves it. */
  lemma DiscardKeepsAsk(t: Jobs, tx: nat, m: nat)
    requires EnsuredOnce(t, DeleteKey(m)) && DeleteKeysAgree(t)
    ensures EnsuredOnce(Discarded(t, tx), DeleteKey(m))
  {
    var i :| Holders(t, DeleteKey(m)) == {i} && Live(t[i]);
    assert i in Holders(t, DeleteKey(m));
    assert Holders(Discarded(t, tx), DeleteKey(m)) == {i};
  }

  /** Asking for one more message disturbs no other row. */
  lemma AskWithdraws(t: Jobs, t1: Jobs, charges: set<nat>, messages: set<nat>, m: nat, now: int)
    requires Withdrawn(t, t1, charges, messages, now)
    ensures Withdrawn(t, Enqueued(t1, DeleteJob(m, now)).0, charges, messages + {m}, now)
  {
    hide Enqueued;
    var job := DeleteJob(m, now);
    var (t2, id) := Enqueued(t1, job);
    EnqueueEnsuresOnce(t1, job);
    forall i | i in t2 ensures Accounted(t, t2, i, charges, messages + {m}, now) {
      if t2[i].key != job.key {
        assert t2[i] == t1[i] && Accounted(t, t1, i, charges, messages, now);
      } else if id.None? {
        assert Accounted(t, t1, i, charges, messages, now);
      } else {
        assert t2[id.value].key == t2[i].key && i == id.value;
      }
    }
    forall i | i in t && !BelongsTo(t[i], charges) && !AsksFor(t[i].key, messages + {m})
      ensures i in t2 && t2[i] == t[i]
    {
      assert !AsksFor(t[i].key, messages);
      assert t1[i].key != job.key;
    }
    forall k | k in messages + {m} ensures EnsuredOnce(t2, DeleteKey(k)) {
      if k != m { AskKeepsOther(t1, m, k, now); }
    }
  }

  lemma AskKeepsOther(t1: Jobs, m: nat, k: nat, now: int)
    requires UniqueKeys(t1) && m != k && EnsuredOnce(t1, DeleteKey(k))
    ensures EnsuredOnce(Enqueued(t1, DeleteJob(m, now)).0, DeleteKey(k))
  {
    hide Enqueued;
    var job := DeleteJob(m, now);
    var t2 := Enqueued(t1, job).0;
    EnqueueEnsuresOnce(t1, job);
    var i :| Holders(t1, DeleteKey(k)) == {i} && Live(t1[i]);
    assert i in Holders(t1, DeleteKey(k));
    forall x | x in Holders(t2, DeleteKey(k)) ensures x in Holders(t1, DeleteKey(k)) {
      assert t2[x].key != job.key;
    }
    assert Holders(t2, DeleteKey(k)) == {i};
  }
}
