/** The original command-line program (main.go:61-117): read the ledger and every statement file, match inline,
    regroup the leftovers per bank, and write the unmatched transactions and one list per bank. It keeps no
    counters, applies no date window, writes no summary and no flag, and ignores every write error. The two CSV
    readers are parameters; the writes are recorded as a trace. */
module MainProgram {
  import opened Wrappers
  import opened Seqs
  import opened Records
  import opened Matching
  import opened Discrepancies
  import opened Engine
  import opened Loading
  import opened Paths

  /** `readTransactionsFromCSV` and `readBankStatementsFromCSV`. */
  datatype Readers = Readers(
    transactions: string -> Result<seq<Transaction>, Error>,
    statements: string -> Result<seq<BankStatement>, Error>)

  /** One write request (the fixed workbook "recon.xlsx" and the "transaction" sheet are left implicit). */
  datatype Write =
    | WriteTransactions(transactions: seq<Transaction>)
    | WriteBankStatements(statements: seq<BankStatement>, bank: string)

  /** The statement files read, in order, the writes issued, and the error printed before returning early. */
  datatype Outcome = Outcome(read: seq<string>, writes: seq<Write>, printed: Option<Error>)

  /** `main` after flag parsing; `amountChoices` and `bankChoices` stand for the runtime's iteration orders of the
      bucket map and the per-bank map. The engine's counters are computed and dropped: the program has none. */
  function Main(p: Readers, txPath: string, pathsText: string, amountChoices: seq<nat>, bankChoices: seq<nat>)
    : Outcome
  {
    var got := p.transactions(txPath);
    if got.Err? then Outcome([], [], Some(got.error))
    else
      var ts := got.value;
      var loaded := LoadFiles(p.statements, Split(pathsText));
      if loaded.result.Err? then Outcome(loaded.read, [], Some(loaded.result.error))
      else
        var st := loaded.result.value;
        var r := Reconcile(st.buckets, Summary(0, st.amount, 0, 0, |ts|), ts,
                           Shuffle(AmountsOf(st.statements), amountChoices));
        Outcome(loaded.read, Writes(r, bankChoices), None)
  }

  /** The writes of main.go:114-117: the unmatched transactions, then one list per bank in the runtime's order. */
  function Writes(r: Reconciliation, bankChoices: seq<nat>): seq<Write> {
    [WriteTransactions(r.unmatched)] + BankWrites(Visits(r, bankChoices))
  }

  /** The per-bank loop's visits: the per-bank lists, in the runtime's order over the leftover banks. */
  function Visits(r: Reconciliation, bankChoices: seq<nat>): seq<(string, seq<BankStatement>)> {
    Visit(Regroup(LeftoverStatements(r)), Shuffle(BanksOf(LeftoverStatements(r)), bankChoices))
  }

  function BankWrites(visits: seq<(string, seq<BankStatement>)>): (r: seq<Write>)
    ensures |r| == |visits|
    ensures forall i | 0 <= i < |r| :: r[i] == WriteBankStatements(visits[i].1, visits[i].0)
  {
    seq(|visits|, i requires 0 <= i < |visits| => WriteBankStatements(visits[i].1, visits[i].0))
  }

  /** The per-bank writes: each is the visited bank's list, no bank twice. */
  lemma BankWritesOf(r: Reconciliation, bankChoices: seq<nat>)
    ensures var w := Writes(r, bankChoices);
      var d := Regroup(LeftoverStatements(r));
      && |w| >= 1
      && w[0] == WriteTransactions(r.unmatched)
      && (forall i | 1 <= i < |w| :: w[i].WriteBankStatements? && w[i].bank in d && w[i].statements == d[w[i].bank])
      && (forall i, j | 1 <= i < j < |w| :: w[i].bank != w[j].bank)
  {
    var d, banks := Regroup(LeftoverStatements(r)), Shuffle(BanksOf(LeftoverStatements(r)), bankChoices);
    VisitEntries(d, banks);
    var w := Writes(r, bankChoices);
    var tail := BankWrites(Visits(r, bankChoices));
    assert w == [WriteTransactions(r.unmatched)] + tail;
    forall i | 1 <= i < |w|
      ensures w[i].WriteBankStatements? && w[i].bank in d && w[i].statements == d[w[i].bank]
    {
      assert w[i] == tail[i - 1];
    }
    forall i, j | 1 <= i < j < |w|
      ensures w[i].bank != w[j].bank
    {
      assert w[i] == tail[i - 1] && w[j] == tail[j - 1];
    }
  }

  /** A visited bank gets a write after the writes `head`. */
  lemma BankWriteFor(head: seq<Write>, visits: seq<(string, seq<BankStatement>)>, bank: string) returns (i: nat)
    requires exists k | 0 <= k < |visits| :: visits[k].0 == bank
    ensures |head| <= i < |head + BankWrites(visits)|
    ensures (head + BankWrites(visits))[i].WriteBankStatements? && (head + BankWrites(visits))[i].bank == bank
  {
    var k :| 0 <= k < |visits| && visits[k].0 == bank;
    i := |head| + k;
    assert (head + BankWrites(visits))[i] == BankWrites(visits)[k];
  }

  /** Every bank with a list gets a write. */
  lemma BankWrittenOf(r: Reconciliation, bankChoices: seq<nat>, bank: string) returns (i: nat)
    requires bank in Regroup(LeftoverStatements(r))
    ensures 1 <= i < |Writes(r, bankChoices)|
    ensures Writes(r, bankChoices)[i].WriteBankStatements? && Writes(r, bankChoices)[i].bank == bank
  {
    BanksCovered(LeftoverStatements(r), bankChoices, bank);
    VisitComplete(Regroup(LeftoverStatements(r)), Shuffle(BanksOf(LeftoverStatements(r)), bankChoices), bank);
    i := BankWriteFor([WriteTransactions(r.unmatched)], Visits(r, bankChoices), bank);
  }

  /** The writes after a run of the engine: the reference unpaired transactions, then one write per bank with a
      leftover, no bank twice, each carrying that bank's share of the reference leftovers. */
  lemma WritesOfRun(ts: seq<Transaction>, ss: seq<BankStatement>, order: seq<int>, bankChoices: seq<nat>)
    requires Covers(order, ss)
    ensures var w := Writes(Run(ts, ss, order), bankChoices);
      var surplus := Surplus(ss, ts);
      && |w| >= 1
      && w[0] == WriteTransactions(Unpaired(ts, ss))
      && (forall i | 1 <= i < |w| :: w[i].WriteBankStatements? && BankShare(w[i].statements, w[i].bank, surplus))
      && (forall i, j | 1 <= i < j < |w| :: w[i].bank != w[j].bank)
      && (forall bank | Filter(surplus, OfBank(bank)) != [] :: exists i | 1 <= i < |w| :: w[i].bank == bank)
  {
    var r := Run(ts, ss, order);
    RunUnmatched(ts, ss, order);
    BankWritesOf(r, bankChoices);
    var w := Writes(r, bankChoices);
    forall i | 1 <= i < |w|
      ensures BankShare(w[i].statements, w[i].bank, Surplus(ss, ts))
    {
      RunDiscrepancies(ts, ss, order, w[i].bank);
      assert |multiset(w[i].statements)| > 0;
    }
    forall bank | Filter(Surplus(ss, ts), OfBank(bank)) != []
      ensures exists i | 1 <= i < |w| :: w[i].bank == bank
    {
      RunDiscrepancies(ts, ss, order, bank);
      var i := BankWrittenOf(r, bankChoices, bank);
    }
  }

  /** Once every read succeeds, nothing is printed, every piece of the path string has been read in order, and the
      writes are those of the engine run on the transactions and the statements of the files in path order. */
  lemma MainLoaded(p: Readers, txPath: string, pathsText: string, amountChoices: seq<nat>, bankChoices: seq<nat>)
    requires p.transactions(txPath).Ok?
    requires AllRead(p.statements, Split(pathsText))
    ensures var ss := Flatten(p.statements, Split(pathsText));
      Main(p, txPath, pathsText, amountChoices, bankChoices)
        == Outcome(Split(pathsText),
                   Writes(Run(p.transactions(txPath).value, ss, Shuffle(AmountsOf(ss), amountChoices)), bankChoices),
                   None)
  {
    LoadFilesSucceeds(p.statements, Split(pathsText));
  }

  /** A failed read is printed and nothing is written: the ledger read fails before any file is read, or the files
      are read up to and including the first failing one `paths[k]`. */
  lemma MainReadFailure(p: Readers, txPath: string, pathsText: string, amountChoices: seq<nat>,
                        bankChoices: seq<nat>) returns (k: nat)
    requires p.transactions(txPath).Err? || !AllRead(p.statements, Split(pathsText))
    ensures var x := Main(p, txPath, pathsText, amountChoices, bankChoices);
      var got, paths := p.transactions(txPath), Split(pathsText);
      && x.writes == []
      && (got.Err? ==> x == Outcome([], [], Some(got.error)))
      && (got.Ok? ==>
            && k < |paths|
            && AllRead(p.statements, paths[..k])
            && p.statements(paths[k]).Err?
            && x == Outcome(paths[..k + 1], [], Some(p.statements(paths[k]).error)))
  {
    k := 0;
    if p.transactions(txPath).Ok? {
      k := LoadFilesFails(p.statements, Split(pathsText));
    }
  }

  /** With every read successful: the files are read in the order of the path string, nothing is printed, and the
      writes are the reference unpaired transactions and one write per bank with a leftover, no bank twice, each
      with that bank's share of the leftovers. */
  lemma MainWrites(p: Readers, txPath: string, pathsText: string, amountChoices: seq<nat>, bankChoices: seq<nat>)
    requires p.transactions(txPath).Ok?
    requires AllRead(p.statements, Split(pathsText))
    ensures var x := Main(p, txPath, pathsText, amountChoices, bankChoices);
      var ts, ss := p.transactions(txPath).value, Flatten(p.statements, Split(pathsText));
      var surplus := Surplus(ss, ts);
      && x.read == Split(pathsText)
      && x.printed == None
      && |x.writes| >= 1
      && x.writes[0] == WriteTransactions(Unpaired(ts, ss))
      && (forall i | 1 <= i < |x.writes| ::
            x.writes[i].WriteBankStatements? && BankShare(x.writes[i].statements, x.writes[i].bank, surplus))
      && (forall i, j | 1 <= i < j < |x.writes| :: x.writes[i].bank != x.writes[j].bank)
      && (forall bank | Filter(surplus, OfBank(bank)) != [] ::
            exists i | 1 <= i < |x.writes| :: x.writes[i].bank == bank)
  {
    var ts, ss := p.transactions(txPath).value, Flatten(p.statements, Split(pathsText));
    MainLoaded(p, txPath, pathsText, amountChoices, bankChoices);
    ShuffleCovers(ss, amountChoices);
    WritesOfRun(ts, ss, Shuffle(AmountsOf(ss), amountChoices), bankChoices);
  }
}
