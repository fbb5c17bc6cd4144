/** The names of an export taken of a committed state of the database (app/services/export.py). */
module Exports {
  import opened Schema
  import opened Ingest
  import opened Text
  import opened ShortCodes
  import opened Invariants
  import opened ExportNames
  import opened Runs

  /** Some of the database's charges, each once, with their receipts, each once, in any order. */
  datatype Selection = Selection(charges: seq<nat>, receipts: seq<seq<nat>>)

  ghost predicate ListsEach(ids: seq<nat>, some: set<nat>) {
    (forall x :: x in ids <==> x in some) && forall i, j | 0 <= i < j < |ids| :: ids[i] != ids[j]
  }

  ghost predicate IsSelection(d: Db, s: Selection) {
    && |s.receipts| == |s.charges|
    && (forall n | 0 <= n < |s.charges| :: s.charges[n] in d.transactions)
    && (forall m, n | 0 <= m < n < |s.charges| :: s.charges[m] != s.charges[n])
    && forall n | 0 <= n < |s.charges| :: ListsEach(s.receipts[n], Receipts(d.attachments, s.charges[n]))
  }

  function Paths(atts: map<nat, Attachment>, ids: seq<nat>): seq<string>
    requires forall a | a in ids :: a in atts
  {
    seq(|ids|, i requires 0 <= i < |ids| => atts[ids[i]].path)
  }

  /** What the export reads of a charge; `iso` writes a time as a local date. */
  function ChargeOfRow(tx: Transaction, iso: int -> string, paths: seq<string>): Charge {
    Charge(iso(tx.occurredAt), tx.shortCode, tx.merchant, paths)
  }

  lemma SelectedExist(d: Db, s: Selection, n: nat)
    requires IsSelection(d, s) && n < |s.charges|
    ensures forall a | a in s.receipts[n] :: a in d.attachments
    ensures forall i | 0 <= i < |s.receipts[n]| ::
              && s.receipts[n][i] in d.attachments
              && d.attachments[s.receipts[n][i]].transactionId == Some(s.charges[n])
  {
    assert ListsEach(s.receipts[n], Receipts(d.attachments, s.charges[n]));
    forall i | 0 <= i < |s.receipts[n]|
      ensures s.receipts[n][i] in d.attachments
      ensures d.attachments[s.receipts[n][i]].transactionId == Some(s.charges[n])
    {
      assert s.receipts[n][i] in s.receipts[n];
    }
  }

  ghost predicate IsExport(d: Db, s: Selection, iso: int -> string, rows: seq<Charge>) {
    && IsSelection(d, s) && |rows| == |s.charges|
    && forall n | 0 <= n < |rows| ::
         && (forall a | a in s.receipts[n] :: a in d.attachments)
         && rows[n] == ChargeOfRow(d.transactions[s.charges[n]], iso, Paths(d.attachments, s.receipts[n]))
  }

  lemma AllocatedIsSafe(code: string)
    requires Allocated(code)
    ensures '_' !in code && Safe(code) == code
  {
    AllocatedIsNumeric(code);
    SafeFixed(code);
  }

  lemma CodesDiffer(d: Db, i: nat, j: nat)
    requires Inv(d) && i in d.transactions && j in d.transactions && i != j
    ensures Safe(d.transactions[i].shortCode) != Safe(d.transactions[j].shortCode)
  {
    CodeIsSafe(d, i);
    CodeIsSafe(d, j);
    hide Filing, Talk, Work, Safe, Allocated;
    assert CodesDistinct(d.transactions);
  }

  lemma CodeIsSafe(d: Db, i: nat)
    requires Inv(d) && i in d.transactions
    ensures '_' !in d.transactions[i].shortCode && Safe(d.transactions[i].shortCode) == d.transactions[i].shortCode
  {
    hide Filing, Talk, Work, Safe, Allocated;
    assert CodesAllocated(d.transactions);
    AllocatedIsSafe(d.transactions[i].shortCode);
  }

  /** A name as it stands in the CSV's `receipt_files`. */
  function NameAt(rows: seq<Charge>, n: nat, i: nat): string
    requires n < |rows| && i < |rows[n].paths|
  {
    ReceiptFilename(rows[n], rows[n].paths[i], i + 1)
  }

  lemma RowIsProper(d: Db, s: Selection, iso: int -> string, rows: seq<Charge>, n: nat)
    requires Inv(d) && IsExport(d, s, iso, rows) && n < |rows|
    requires forall t :: PlainDate(iso(t))
    ensures s.charges[n] in d.transactions && rows[n].code == d.transactions[s.charges[n]].shortCode
    ensures PlainDate(rows[n].isoDate) && '_' !in rows[n].code
    ensures |rows[n].paths| == |s.receipts[n]|
  {
    hide Inv, Safe, PlainDate, ListsEach;
    CodeIsSafe(d, s.charges[n]);
  }

  lemma RowsDiffer(d: Db, s: Selection, iso: int -> string, rows: seq<Charge>, m: nat, n: nat)
    requires Inv(d) && IsExport(d, s, iso, rows) && m < |rows| && n < |rows| && m != n
    requires forall t :: PlainDate(iso(t))
    ensures Safe(rows[m].code) != Safe(rows[n].code)
  {
    hide Inv, Safe, PlainDate, ListsEach;
    CodesDiffer(d, s.charges[m], s.charges[n]);
  }

  lemma ExportIsProper(d: Db, s: Selection, iso: int -> string, rows: seq<Charge>)
    requires Inv(d) && IsExport(d, s, iso, rows)
    requires forall t :: PlainDate(iso(t))
    ensures ProperCodes(rows)
  {
    hide Inv, Safe, PlainDate, IsExport;
    forall m, n | 0 <= m < n < |rows| ensures Safe(rows[m].code) != Safe(rows[n].code) {
      RowsDiffer(d, s, iso, rows, m, n);
    }
    forall c | c in rows ensures PlainDate(c.isoDate) && '_' !in c.code {
      var n :| 0 <= n < |rows| && rows[n] == c;
      RowIsProper(d, s, iso, rows, n);
    }
  }

  /**
   In every state of every run the codes of an export are proper: no receipt
   name repeats, and so the archive's names are those the CSV lists.
  */
  lemma ExportsKeepTheirNames(r: Run, re: Regex, k: nat, s: Selection, iso: int -> string, rows: seq<Charge>)
    requires IsRun(r, re) && k < |r.states| && IsExport(r.states[k], s, iso, rows)
    requires forall t :: PlainDate(iso(t))
    ensures ProperCodes(rows) && Distinct(AllFiles(rows))
  {
    hide *;
    InvAlways(r, re, k);
    ExportIsProper(r.states[k], s, iso, rows);
    FilesAreDistinct(rows);
  }

  lemma SameNameSamePlace(d: Db, s: Selection, iso: int -> string, rows: seq<Charge>, m: nat, i: nat, n: nat, j: nat)
    requires Inv(d) && IsExport(d, s, iso, rows)
    requires forall t :: PlainDate(iso(t))
    requires m < |rows| && i < |rows[m].paths| && n < |rows| && j < |rows[n].paths|
    ensures NameAt(rows, m, i) == NameAt(rows, n, j) <==> m == n && i == j
  {
    hide Inv, IsExport, Safe, PlainDate, ReceiptFilename;
    RowIsProper(d, s, iso, rows, m);
    RowIsProper(d, s, iso, rows, n);
    if m != n { RowsDiffer(d, s, iso, rows, m, n); }
    if NameAt(rows, m, i) == NameAt(rows, n, j) {
      NameDeterminesCodeAndIndex(rows[m], rows[m].paths[i], i + 1, rows[n], rows[n].paths[j], j + 1);
    }
  }

  lemma SamePlaceSameReceipt(d: Db, s: Selection, m: nat, i: nat, n: nat, j: nat)
    requires IsSelection(d, s) && m < |s.receipts| && n < |s.receipts|
    requires i < |s.receipts[m]| && j < |s.receipts[n]|
    ensures s.receipts[m][i] == s.receipts[n][j] <==> m == n && i == j
  {
    SelectedExist(d, s, m);
    SelectedExist(d, s, n);
    hide ListsEach, Receipts;
    if m == n {
      SamePlace(s.receipts[m], Receipts(d.attachments, s.charges[m]), i, j);
    } else {
      assert s.charges[m] != s.charges[n];
    }
  }

  lemma SamePlace(ids: seq<nat>, some: set<nat>, i: nat, j: nat)
    requires ListsEach(ids, some) && i < |ids| && j < |ids|
    ensures ids[i] == ids[j] <==> i == j
  {
  }

  /** And a name stands for one receipt: two entries have the same name if and only if they are the same attachment. */
  lemma NameTellsTheReceipt(r: Run, re: Regex, k: nat, s: Selection, iso: int -> string, rows: seq<Charge>,
                            m: nat, i: nat, n: nat, j: nat)
    requires IsRun(r, re) && k < |r.states| && IsExport(r.states[k], s, iso, rows)
    requires forall t :: PlainDate(iso(t))
    requires m < |rows| && i < |rows[m].paths| && n < |rows| && j < |rows[n].paths|
    ensures |s.receipts| == |rows| && i < |s.receipts[m]| && j < |s.receipts[n]|
    ensures NameAt(rows, m, i) == NameAt(rows, n, j) <==> s.receipts[m][i] == s.receipts[n][j]
  {
    hide IsRun, Inv, PlainDate, NameAt, ListsEach, IsSelection;
    InvAlways(r, re, k);
    var d := r.states[k];
    Places(d, s, iso, rows);
    RowIsProper(d, s, iso, rows, m);
    RowIsProper(d, s, iso, rows, n);
    SameNameSamePlace(d, s, iso, rows, m, i, n, j);
    SamePlaceSameReceipt(d, s, m, i, n, j);
  }

  lemma Places(d: Db, s: Selection, iso: int -> string, rows: seq<Charge>)
    requires IsExport(d, s, iso, rows)
    ensures IsSelection(d, s) && |s.receipts| == |s.charges| == |rows|
  {
    hide ListsEach, Paths, PlainDate;
  }
}
