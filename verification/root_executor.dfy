/** The root package's `ReconExecutor.Execute` (recon_executor.go:30-92): the same load, match and drain as the
    recon package, but the statement paths arrive as one comma-separated string, read errors are logged instead of
    returned, every write's error is ignored, and each per-bank list carries the flag of the bucket its last
    statement came from. The repositories' reads are parameters; their writes are recorded as a trace. */
module RootExecutor {
  import opened Wrappers
  import opened Seqs
  import opened Records
  import opened Matching
  import opened Discrepancies
  import opened Engine
  import opened Loading
  import opened Paths

  /** One write request, with its arguments (the fixed workbook "recon.xlsx" and sheet names are left implicit). */
  datatype Write =
    | WriteSummary(total: Summary)
    | WriteTransactions(transactions: seq<Transaction>)
    | WriteBankStatements(statements: seq<BankStatement>, appearMultiple: bool, bank: string)

  /** The answers of the two repositories' reads. */
  datatype Repos = Repos(
    getTransactions: (string, int, int) -> Result<seq<Transaction>, Error>,
    getBankStatements: (string, int, int) -> Result<seq<BankStatement>, Error>)

  /** The statement files read, in order, the writes issued, and the error logged before returning early. */
  datatype Outcome = Outcome(read: seq<string>, writes: seq<Write>, logged: Option<Error>)

  function Reader(p: Repos, start: int, end: int): string -> Result<seq<BankStatement>, Error> {
    (path: string) => p.getBankStatements(path, start, end)
  }

  /** `Execute(transactionPath, bankStatementPaths, startDate, endDate)`; `amountChoices` and `bankChoices` stand
      for the runtime's iteration orders of the bucket map and the per-bank map. */
  function Execute(p: Repos, txPath: string, pathsText: string, start: int, end: int,
                   amountChoices: seq<nat>, bankChoices: seq<nat>): Outcome
  {
    var got := p.getTransactions(txPath, start, end);
    if got.Err? then Outcome([], [], Some(got.error))
    else
      var ts := got.value;
      var loaded := LoadFiles(Reader(p, start, end), Split(pathsText));
      if loaded.result.Err? then Outcome(loaded.read, [], Some(loaded.result.error))
      else
        var st := loaded.result.value;
        var r := Reconcile(st.buckets, Summary(0, st.amount, 0, 0, |ts|), ts,
                           Shuffle(AmountsOf(st.statements), amountChoices));
        Outcome(loaded.read, Writes(r, bankChoices), None)
  }

  /** The writes of recon_executor.go:86-91: the summary, the unmatched transactions, then one list per bank in
      the runtime's order. */
  function Writes(r: Reconciliation, bankChoices: seq<nat>): seq<Write> {
    [WriteSummary(r.total), WriteTransactions(r.unmatched)] + BankWrites(Visits(r, bankChoices))
  }

  /** The per-bank loop's visits: the flagged groups, in the runtime's order over the leftover banks. */
  function Visits(r: Reconciliation, bankChoices: seq<nat>): seq<(string, DiscrepancyGroup)> {
    Visit(RegroupFlagged(r.leftovers), Shuffle(BanksOf(LeftoverStatements(r)), bankChoices))
  }

  function BankWrites(visits: seq<(string, DiscrepancyGroup)>): (r: seq<Write>)
    ensures |r| == |visits|
    ensures forall i | 0 <= i < |r| ::
      r[i] == WriteBankStatements(visits[i].1.statements, visits[i].1.appearMultiple, visits[i].0)
  {
    seq(|visits|, i requires 0 <= i < |visits| =>
      WriteBankStatements(visits[i].1.statements, visits[i].1.appearMultiple, visits[i].0))
  }

  /** A bank's flag agrees with how often the amounts of its leftovers were loaded: `true` when every one was
      loaded at least twice, `false` when every one was loaded once. */
  ghost predicate FlagFits(flag: bool, bank: string, ss: seq<BankStatement>, surplus: seq<BankStatement>) {
    var mine := Filter(surplus, OfBank(bank));
    && ((forall j | 0 <= j < |mine| :: StatementCount(ss, mine[j].amount) >= 2) ==> flag)
    && ((forall j | 0 <= j < |mine| :: StatementCount(ss, mine[j].amount) < 2) ==> !flag)
  }

  /** The list a bank has after a run is its share of the reference leftovers, with a flag that fits it. */
  lemma GroupOfRun(ts: seq<Transaction>, ss: seq<BankStatement>, order: seq<int>, bank: string)
    requires Covers(order, ss)
    requires bank in RegroupFlagged(Run(ts, ss, order).leftovers)
    ensures var g := RegroupFlagged(Run(ts, ss, order).leftovers)[bank];
      && BankShare(g.statements, bank, Surplus(ss, ts))
      && FlagFits(g.appearMultiple, bank, ss, Surplus(ss, ts))
  {
    var g := RegroupFlagged(Run(ts, ss, order).leftovers)[bank];
    RegroupFlaggedStatements(Run(ts, ss, order).leftovers, bank);
    RunDiscrepancies(ts, ss, order, bank);
    RunBankFlags(ts, ss, order, bank);
    assert |multiset(g.statements)| > 0;
  }

  /** The per-bank writes of a run: each is the visited bank's list and flag, no bank twice. */
  lemma BankWritesOf(r: Reconciliation, bankChoices: seq<nat>)
    ensures var w := Writes(r, bankChoices);
      var groups := RegroupFlagged(r.leftovers);
      && |w| >= 2
      && w[0] == WriteSummary(r.total)
      && w[1] == WriteTransactions(r.unmatched)
      && (forall i | 2 <= i < |w| ::
            w[i].WriteBankStatements? && w[i].bank in groups
            && w[i].statements == groups[w[i].bank].statements && w[i].appearMultiple == groups[w[i].bank].appearMultiple)
      && (forall i, j | 2 <= i < j < |w| :: w[i].bank != w[j].bank)
  {
    var groups, banks := RegroupFlagged(r.leftovers), Shuffle(BanksOf(LeftoverStatements(r)), bankChoices);
    var v := Visits(r, bankChoices);
    VisitEntries(groups, banks);
    var w := Writes(r, bankChoices);
    var tail := BankWrites(v);
    assert w == [WriteSummary(r.total), WriteTransactions(r.unmatched)] + tail;
    forall i | 2 <= i < |w|
      ensures w[i].WriteBankStatements? && w[i].bank in groups
      ensures w[i].statements == groups[w[i].bank].statements && w[i].appearMultiple == groups[w[i].bank].appearMultiple
    {
      assert w[i] == tail[i - 2];
    }
    forall i, j | 2 <= i < j < |w|
      ensures w[i].bank != w[j].bank
    {
      assert w[i] == tail[i - 2] && w[j] == tail[j - 2];
    }
  }

  /** A bank with a list is a key of the flagged groups and is named by the candidate bank order. */
  lemma BankListed(r: Reconciliation, bankChoices: seq<nat>, bank: string)
    requires bank in Regroup(LeftoverStatements(r))
    ensures bank in RegroupFlagged(r.leftovers)
    ensures bank in Shuffle(BanksOf(LeftoverStatements(r)), bankChoices)
  {
    RegroupFlaggedStatements(r.leftovers, bank);
    BanksCovered(LeftoverStatements(r), bankChoices, bank);
  }

  /** A visited bank gets a write after the writes `head`. */
  lemma BankWriteFor(head: seq<Write>, visits: seq<(string, DiscrepancyGroup)>, bank: string) returns (i: nat)
    requires exists k | 0 <= k < |visits| :: visits[k].0 == bank
    ensures |head| <= i < |head + BankWrites(visits)|
    ensures (head + BankWrites(visits))[i].WriteBankStatements? && (head + BankWrites(visits))[i].bank == bank
  {
    var k :| 0 <= k < |visits| && visits[k].0 == bank;
    i := |head| + k;
    assert (head + BankWrites(visits))[i] == BankWrites(visits)[k];
  }

  /** Every bank with a list gets a write. */
  lemma BankWrittenOf(r: Reconciliation, bankChoices: seq<nat>, bank: string) returns (i: nat)
    requires bank in Regroup(LeftoverStatements(r))
    ensures 2 <= i < |Writes(r, bankChoices)|
    ensures Writes(r, bankChoices)[i].WriteBankStatements? && Writes(r, bankChoices)[i].bank == bank
  {
    BankListed(r, bankChoices, bank);
    VisitComplete(RegroupFlagged(r.leftovers), Shuffle(BanksOf(LeftoverStatements(r)), bankChoices), bank);
    i := BankWriteFor([WriteSummary(r.total), WriteTransactions(r.unmatched)], Visits(r, bankChoices), bank);
  }

  /** The writes after a run of the engine: the reference summary, the reference unpaired transactions, then one
      write per bank with a leftover, no bank twice, each carrying that bank's share of the reference leftovers and
      a flag that fits it. */
  lemma WritesOfRun(ts: seq<Transaction>, ss: seq<BankStatement>, order: seq<int>, bankChoices: seq<nat>)
    requires Covers(order, ss)
    ensures var w := Writes(Run(ts, ss, order), bankChoices);
      var surplus := Surplus(ss, ts);
      && |w| >= 2
      && w[0] == WriteSummary(ReferenceTotals(ts, ss))
      && w[1] == WriteTransactions(Unpaired(ts, ss))
      && (forall i | 2 <= i < |w| ::
            && w[i].WriteBankStatements?
            && BankShare(w[i].statements, w[i].bank, surplus)
            && FlagFits(w[i].appearMultiple, w[i].bank, ss, surplus))
      && (forall i, j | 2 <= i < j < |w| :: w[i].bank != w[j].bank)
      && (forall bank | Filter(surplus, OfBank(bank)) != [] :: exists i | 2 <= i < |w| :: w[i].bank == bank)
  {
    var r := Run(ts, ss, order);
    RunSummary(ts, ss, order);
    RunUnmatched(ts, ss, order);
    BankWritesOf(r, bankChoices);
    var w := Writes(r, bankChoices);
    forall i | 2 <= i < |w|
      ensures BankShare(w[i].statements, w[i].bank, Surplus(ss, ts))
      ensures FlagFits(w[i].appearMultiple, w[i].bank, ss, Surplus(ss, ts))
    {
      GroupOfRun(ts, ss, order, w[i].bank);
    }
    forall bank | Filter(Surplus(ss, ts), OfBank(bank)) != []
      ensures exists i | 2 <= i < |w| :: w[i].bank == bank
    {
      RunDiscrepancies(ts, ss, order, bank);
      var i := BankWrittenOf(r, bankChoices, bank);
    }
  }


  /** Once every read succeeds, nothing is logged, every piece of the path string has been read in order, and the
      writes are those of the engine run on the transactions and the statements of the files in path order. */
  lemma ExecuteLoaded(p: Repos, txPath: string, pathsText: string, start: int, end: int,
                      amountChoices: seq<nat>, bankChoices: seq<nat>)
    requires p.getTransactions(txPath, start, end).Ok?
    requires AllRead(Reader(p, start, end), Split(pathsText))
    ensures var ss := Flatten(Reader(p, start, end), Split(pathsText));
      Execute(p, txPath, pathsText, start, end, amountChoices, bankChoices)
        == Outcome(Split(pathsText),
                   Writes(Run(p.getTransactions(txPath, start, end).value, ss, Shuffle(AmountsOf(ss), amountChoices)), bankChoices),
                   None)
  {
    LoadFilesSucceeds(Reader(p, start, end), Split(pathsText));
  }

  /** A path string joined from comma-free paths is read path by path, in that order. */
  lemma ExecuteJoined(p: Repos, txPath: string, paths: seq<string>, start: int, end: int,
                      amountChoices: seq<nat>, bankChoices: seq<nat>)
    requires |paths| >= 1 && forall i | 0 <= i < |paths| :: ',' !in paths[i]
    requires p.getTransactions(txPath, start, end).Ok?
    requires AllRead(Reader(p, start, end), paths)
    ensures var x := Execute(p, txPath, Join(paths), start, end, amountChoices, bankChoices);
      var ss := Flatten(Reader(p, start, end), paths);
      && x.read == paths
      && x.writes == Writes(Run(p.getTransactions(txPath, start, end).value, ss, Shuffle(AmountsOf(ss), amountChoices)), bankChoices)
  {
    SplitJoin(paths);
    ExecuteLoaded(p, txPath, Join(paths), start, end, amountChoices, bankChoices);
  }

  /** A failed read is logged as it is, unwrapped, and nothing is written: the transaction read fails before any
      file is read, or the files are read up to and including the first failing one `paths[k]`. */
  lemma ExecuteReadFailure(p: Repos, txPath: string, pathsText: string, start: int, end: int,
                           amountChoices: seq<nat>, bankChoices: seq<nat>) returns (k: nat)
    requires p.getTransactions(txPath, start, end).Err? || !AllRead(Reader(p, start, end), Split(pathsText))
    ensures var x := Execute(p, txPath, pathsText, start, end, amountChoices, bankChoices);
      var got, paths := p.getTransactions(txPath, start, end), Split(pathsText);
      && x.writes == []
      && (got.Err? ==> x == Outcome([], [], Some(got.error)))
      && (got.Ok? ==>
            && k < |paths|
            && AllRead(Reader(p, start, end), paths[..k])
            && p.getBankStatements(paths[k], start, end).Err?
            && x == Outcome(paths[..k + 1], [], Some(p.getBankStatements(paths[k], start, end).error)))
  {
    k := 0;
    if p.getTransactions(txPath, start, end).Ok? {
      k := LoadFilesFails(Reader(p, start, end), Split(pathsText));
    }
  }

  /** With every read successful: the files are read in the order of the path string, nothing is logged, and the
      writes are the reference summary, the reference unpaired transactions, and one write per bank with a leftover,
      no bank twice, each with that bank's share of the leftovers and a fitting flag. */
  lemma ExecuteWrites(p: Repos, txPath: string, pathsText: string, start: int, end: int,
                      amountChoices: seq<nat>, bankChoices: seq<nat>)
    requires p.getTransactions(txPath, start, end).Ok?
    requires AllRead(Reader(p, start, end), Split(pathsText))
    ensures var x := Execute(p, txPath, pathsText, start, end, amountChoices, bankChoices);
      var ts, ss := p.getTransactions(txPath, start, end).value, Flatten(Reader(p, start, end), Split(pathsText));
      var surplus := Surplus(ss, ts);
      && x.read == Split(pathsText)
      && x.logged == None
      && |x.writes| >= 2
      && x.writes[0] == WriteSummary(ReferenceTotals(ts, ss))
      && x.writes[1] == WriteTransactions(Unpaired(ts, ss))
      && (forall i | 2 <= i < |x.writes| ::
            && x.writes[i].WriteBankStatements?
            && BankShare(x.writes[i].statements, x.writes[i].bank, surplus)
            && FlagFits(x.writes[i].appearMultiple, x.writes[i].bank, ss, surplus))
      && (forall i, j | 2 <= i < j < |x.writes| :: x.writes[i].bank != x.writes[j].bank)
      && (forall bank | Filter(surplus, OfBank(bank)) != [] ::
            exists i | 2 <= i < |x.writes| :: x.writes[i].bank == bank)
  {
    var ts, ss := p.getTransactions(txPath, start, end).value, Flatten(Reader(p, start, end), Split(pathsText));
    ExecuteLoaded(p, txPath, pathsText, start, end, amountChoices, bankChoices);
    ShuffleCovers(ss, amountChoices);
    WritesOfRun(ts, ss, Shuffle(AmountsOf(ss), amountChoices), bankChoices);
  }
}
