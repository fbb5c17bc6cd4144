/**
 Idempotency keys are text in the source; the rest of the model uses them as
 values.  Nothing is lost: different keys have different texts.
*/
module Keys {
  import opened Schema
  import opened Text

  function KindName(kind: Kind): string {
    match kind
    case Notify => "discord.notify"
    case Finalize => "discord.finalize"
    case DeleteMessage => "discord.delete_message"
    case Digest => "discord.digest"
    case LapseSweep => "workflow.lapse_sweep"
    case SyncAccounts => "qbo.sync_accounts"
  }

  /** The fields of a key, as its format string separates them by colons. */
  function Parts(k: Key): seq<string> {
    match k
    case NotifyKey(tx) => ["notify", Decimal(tx)]
    case RenotifyKey(tx, stamp) => ["notify", Decimal(tx), Decimal(stamp)]
    case FinalizeKey(tx, attachment) => ["finalize", Decimal(tx), Decimal(attachment)]
    case DeleteKey(message) => ["delmsg", Decimal(message)]
    case DailyKey(kind, stamp) => [KindName(kind), Decimal(stamp)]
  }

  function KeyText(k: Key): string {
    Join(Parts(k), ':')
  }

  lemma DecimalHasNoColon(n: nat)
    ensures ':' !in Decimal(n)
  {
    assert forall c | c in Decimal(n) :: IsDigit(c);
  }

  lemma KindHasNoColon(kind: Kind)
    ensures ':' !in KindName(kind)
  {
  }

  lemma PartsHaveNoColon(k: Key)
    ensures |Parts(k)| >= 2 && forall p | p in Parts(k) :: ':' !in p
  {
    hide Decimal, KindName;
    match k
    case NotifyKey(tx) => DecimalHasNoColon(tx);
    case RenotifyKey(tx, stamp) => DecimalHasNoColon(tx); DecimalHasNoColon(stamp);
    case FinalizeKey(tx, attachment) => DecimalHasNoColon(tx); DecimalHasNoColon(attachment);
    case DeleteKey(message) => DecimalHasNoColon(message);
    case DailyKey(kind, stamp) => KindHasNoColon(kind); DecimalHasNoColon(stamp);
  }

  /** The first field tells the family of a key, by its length and a letter or two. */
  lemma PartsTellKeys(a: Key, b: Key)
    requires Parts(a) == Parts(b)
    ensures a == b
  {
    hide Decimal;
    assert Parts(a)[0] == Parts(b)[0] && Parts(a)[1] == Parts(b)[1];
    match a
    case NotifyKey(tx) => DecimalInjective(tx, b.tx);
    case RenotifyKey(tx, stamp) =>
      assert Parts(a)[2] == Parts(b)[2];
      DecimalInjective(tx, b.tx);
      DecimalInjective(stamp, b.stamp);
    case FinalizeKey(tx, attachment) =>
      assert Parts(a)[2] == Parts(b)[2];
      DecimalInjective(tx, b.tx);
      DecimalInjective(attachment, b.attachment);
    case DeleteKey(message) => DecimalInjective(message, b.message);
    case DailyKey(kind, stamp) => SameFamily(kind, b); DecimalInjective(stamp, b.stamp);
  }

  lemma SameFamily(kind: Kind, b: Key)
    requires Parts(b)[0] == KindName(kind) && |Parts(b)| == 2
    ensures b.DailyKey? && b.kind == kind
  {
  }

  /** Two jobs share an idempotency key in the source exactly when they share it here. */
  lemma KeyTextIsInjective(a: Key, b: Key)
    ensures KeyText(a) == KeyText(b) <==> a == b
  {
    hide Parts, Join, Split;
    PartsHaveNoColon(a);
    PartsHaveNoColon(b);
    SplitJoin(Parts(a), ':');
    SplitJoin(Parts(b), ':');
    if KeyText(a) == KeyText(b) { PartsTellKeys(a, b); }
  }

  /** The texts themselves: the family, then the numbers, between colons. */
  lemma KeyTexts(tx: nat, n: nat)
    ensures KeyText(NotifyKey(tx)) == "notify:" + Decimal(tx)
    ensures KeyText(RenotifyKey(tx, n)) == "notify:" + Decimal(tx) + ":" + Decimal(n)
    ensures KeyText(FinalizeKey(tx, n)) == "finalize:" + Decimal(tx) + ":" + Decimal(n)
    ensures KeyText(DeleteKey(n)) == "delmsg:" + Decimal(n)
    ensures KeyText(DailyKey(Digest, n)) == "discord.digest:" + Decimal(n)
    ensures KeyText(DailyKey(LapseSweep, n)) == "workflow.lapse_sweep:" + Decimal(n)
    ensures KeyText(DailyKey(SyncAccounts, n)) == "qbo.sync_accounts:" + Decimal(n)
  {
    JoinTwo("notify", Decimal(tx));
    JoinThree("notify", Decimal(tx), Decimal(n));
    JoinThree("finalize", Decimal(tx), Decimal(n));
    JoinTwo("delmsg", Decimal(n));
    JoinTwo("discord.digest", Decimal(n));
    JoinTwo("workflow.lapse_sweep", Decimal(n));
    JoinTwo("qbo.sync_accounts", Decimal(n));
    hide Decimal, Join;
  }

  lemma JoinTwo(a: string, b: string)
    ensures Join([a, b], ':') == a + ":" + b
  {
    assert [a, b][1..] == [b];
  }

  lemma JoinThree(a: string, b: string, c: string)
    ensures Join([a, b, c], ':') == a + ":" + b + ":" + c
  {
    assert [a, b, c][1..] == [b, c];
    JoinTwo(b, c);
  }
}
