/** `ReconExecutor.Execute` of the recon package (recon/recon_executor.go:32-101) as a pure function over injected
    storage ports. The ports stand for the `TransactionStorageProvider`, `BankStatementStorageProvider` and
    `SummaryStorageProvider` interfaces; their answers are fixed functions of their arguments. An execution is the
    trace of port calls made plus the error returned. */
module Executor {
  import opened Wrappers
  import opened Seqs
  import opened Records
  import opened Buckets
  import opened Matching
  import opened Discrepancies
  import opened Engine
  import opened Loading

  /** One call on a storage port, with its arguments. */
  datatype Call =
    | GetTransactions(path: string, start: int, end: int)
    | GetBankStatements(path: string, start: int, end: int)
    | StoreSummary(total: Summary)
    | StoreTransactions(transactions: seq<Transaction>)
    | StoreBankStatements(statements: seq<BankStatement>, bank: string)

  /** The answers of the three storage ports: read results, and `None` for a store that returns `nil`. */
  datatype Ports = Ports(
    getTransactions: (string, int, int) -> Result<seq<Transaction>, Error>,
    getBankStatements: (string, int, int) -> Result<seq<BankStatement>, Error>,
    storeSummary: Summary -> Option<Error>,
    storeTransactions: seq<Transaction> -> Option<Error>,
    storeBankStatements: (seq<BankStatement>, string) -> Option<Error>)

  /** The port calls made, in order, and the error `Execute` returns (`None` for `nil`). */
  datatype Execution = Execution(calls: seq<Call>, err: Option<Error>)

  const TransactionsContext: string := "get transactions error"
  const StatementsContext: string := "get bank statements error"
  const SummaryContext: string := "store summary error"
  const StoreTransactionsContext: string := "store transactions error"
  const StoreStatementsContext: string := "store bank statements error"

  /** The statement port with the run's date window bound, as the file loop calls it. */
  function Reader(p: Ports, start: int, end: int): string -> Result<seq<BankStatement>, Error> {
    (path: string) => p.getBankStatements(path, start, end)
  }

  function ReadCalls(paths: seq<string>, start: int, end: int): (r: seq<Call>)
    ensures |r| == |paths|
    ensures forall i | 0 <= i < |r| :: r[i] == GetBankStatements(paths[i], start, end)
  {
    seq(|paths|, i requires 0 <= i < |paths| => GetBankStatements(paths[i], start, end))
  }

  /** `Execute(transactionPath, bankStatementPathArray, startDate, endDate)`. `amountChoices` and `bankChoices` stand
      for the iteration orders the Go runtime picks for the bucket map and the per-bank map. */
  function Execute(p: Ports, txPath: string, paths: seq<string>, start: int, end: int,
                   amountChoices: seq<nat>, bankChoices: seq<nat>): Execution
  {
    var got := p.getTransactions(txPath, start, end);
    var first := [GetTransactions(txPath, start, end)];
    if got.Err? then Execution(first, Some(Wrapped(TransactionsContext, got.error)))
    else
      var ts := got.value;
      var loaded := LoadFiles(Reader(p, start, end), paths);
      var issued := first + ReadCalls(loaded.read, start, end);
      if loaded.result.Err? then Execution(issued, Some(Wrapped(StatementsContext, loaded.result.error)))
      else
        var st := loaded.result.value;
        var r := Reconcile(st.buckets, Summary(0, st.amount, 0, 0, |ts|), ts, Shuffle(AmountsOf(st.statements), amountChoices));
        Store(p, issued, r, bankChoices)
  }

  /** The three store steps of recon/recon_executor.go:83-98, each returning on its port's error. */
  function Store(p: Ports, calls: seq<Call>, r: Reconciliation, bankChoices: seq<nat>): Execution {
    var withSummary := calls + [StoreSummary(r.total)];
    if p.storeSummary(r.total).Some? then Execution(withSummary, Some(Wrapped(SummaryContext, p.storeSummary(r.total).value)))
    else
      var withTransactions := withSummary + [StoreTransactions(r.unmatched)];
      if p.storeTransactions(r.unmatched).Some? then
        Execution(withTransactions, Some(Wrapped(StoreTransactionsContext, p.storeTransactions(r.unmatched).value)))
      else
        var leftovers := LeftoverStatements(r);
        StoreBanks(p, withTransactions, Regroup(leftovers), Shuffle(BanksOf(leftovers), bankChoices))
  }

  /** The `range` over the per-bank lists in the runtime's order `order`; a visited bank is removed, so each list is
      stored at most once. */
  function StoreBanks(p: Ports, calls: seq<Call>, d: map<string, seq<BankStatement>>, order: seq<string>): Execution
    decreases |order|
  {
    if order == [] then Execution(calls, None)
    else
      var bank := order[0];
      if bank !in d then StoreBanks(p, calls, d, order[1..])
      else
        var stored := calls + [StoreBankStatements(d[bank], bank)];
        var e := p.storeBankStatements(d[bank], bank);
        if e.Some? then Execution(stored, Some(Wrapped(StoreStatementsContext, e.value)))
        else StoreBanks(p, stored, d - {bank}, order[1..])
  }

  /** Whether `c` is a per-bank store of a list that `d` holds under that bank. */
  predicate StoresListOf(c: Call, d: map<string, seq<BankStatement>>) {
    c.StoreBankStatements? && c.bank in d && c.statements == d[c.bank]
  }

  /** The per-bank loop only appends calls; each stores one list of `d` under its own bank, no bank twice. */
  lemma {:induction false} StoreBanksCalls(p: Ports, calls: seq<Call>, d: map<string, seq<BankStatement>>, order: seq<string>)
    ensures var x := StoreBanks(p, calls, d, order);
      && |calls| <= |x.calls| && x.calls[..|calls|] == calls
      && (forall i | |calls| <= i < |x.calls| :: StoresListOf(x.calls[i], d))
      && (forall i, j | |calls| <= i < j < |x.calls| :: x.calls[i].bank != x.calls[j].bank)
    decreases |order|
  {
    if order != [] {
      var bank := order[0];
      if bank !in d {
        StoreBanksCalls(p, calls, d, order[1..]);
      } else if p.storeBankStatements(d[bank], bank).None? {
        var stored := calls + [StoreBankStatements(d[bank], bank)];
        StoreBanksCalls(p, stored, d - {bank}, order[1..]);
        var x := StoreBanks(p, calls, d, order);
        assert x == StoreBanks(p, stored, d - {bank}, order[1..]);
        assert x.calls[..|stored|][..|calls|] == calls;
        forall i | |calls| <= i < |x.calls|
          ensures StoresListOf(x.calls[i], d)
        {
          if i == |calls| {
            assert x.calls[i] == x.calls[..|stored|][i];
          }
        }
        forall i, j | |calls| <= i < j < |x.calls|
          ensures x.calls[i].bank != x.calls[j].bank
        {
          if i == |calls| {
            assert x.calls[i] == x.calls[..|stored|][i];
            assert StoresListOf(x.calls[j], d - {bank});
          }
        }
      }
    }
  }

  /** The per-bank loop returns `nil` exactly when every list it stores is stored without error; on an error the
      failing store is the last call and the error is wrapped. */
  lemma {:induction false} StoreBanksOutcome(p: Ports, calls: seq<Call>, d: map<string, seq<BankStatement>>, order: seq<string>)
    ensures var x := StoreBanks(p, calls, d, order);
      && (forall i | |calls| <= i < |x.calls| - 1 ::
            x.calls[i].StoreBankStatements? && p.storeBankStatements(x.calls[i].statements, x.calls[i].bank).None?)
      && (x.err.None? ==> forall i | |calls| <= i < |x.calls| ::
            x.calls[i].StoreBankStatements? && p.storeBankStatements(x.calls[i].statements, x.calls[i].bank).None?)
      && (x.err.Some? ==>
            && |x.calls| > |calls|
            && var last := x.calls[|x.calls| - 1];
            && last.StoreBankStatements?
            && p.storeBankStatements(last.statements, last.bank).Some?
            && x.err == Some(Wrapped(StoreStatementsContext, p.storeBankStatements(last.statements, last.bank).value)))
    decreases |order|
  {
    if order != [] {
      var bank := order[0];
      if bank !in d {
        StoreBanksOutcome(p, calls, d, order[1..]);
      } else if p.storeBankStatements(d[bank], bank).None? {
        var stored := calls + [StoreBankStatements(d[bank], bank)];
        StoreBanksOutcome(p, stored, d - {bank}, order[1..]);
        StoreBanksCalls(p, stored, d - {bank}, order[1..]);
        var x := StoreBanks(p, calls, d, order);
        assert x == StoreBanks(p, stored, d - {bank}, order[1..]);
        assert x.calls[|calls|] == x.calls[..|stored|][|calls|];
      }
    }
  }

  /** Without an error, every bank of `d` that `order` names has been stored. */
  lemma {:induction false} StoreBanksComplete(p: Ports, calls: seq<Call>, d: map<string, seq<BankStatement>>, order: seq<string>, bank: string)
    requires bank in d && bank in order
    requires StoreBanks(p, calls, d, order).err.None?
    ensures var x := StoreBanks(p, calls, d, order);
      exists i | |calls| <= i < |x.calls| :: x.calls[i] == StoreBankStatements(d[bank], bank)
    decreases |order|
  {
    var head := order[0];
    if head !in d {
      StoreBanksComplete(p, calls, d, order[1..], bank);
    } else {
      var stored := calls + [StoreBankStatements(d[head], head)];
      var x := StoreBanks(p, calls, d, order);
      assert x == StoreBanks(p, stored, d - {head}, order[1..]);
      StoreBanksCalls(p, stored, d - {head}, order[1..]);
      if head == bank {
        assert x.calls[|calls|] == x.calls[..|stored|][|calls|];
      } else {
        StoreBanksComplete(p, stored, d - {head}, order[1..], bank);
      }
    }
  }

  /** Where a call sits in the fixed sequence of steps: transaction read, statement reads, summary store,
      transaction store, per-bank stores. */
  function Stage(c: Call): nat {
    match c
    case GetTransactions(_, _, _) => 0
    case GetBankStatements(_, _, _) => 1
    case StoreSummary(_) => 2
    case StoreTransactions(_) => 3
    case StoreBankStatements(_, _) => 4
  }

  /** Calls appear in stage order, and only statement reads and per-bank stores repeat. */
  predicate Staged(calls: seq<Call>) {
    forall i, j | 0 <= i < j < |calls| ::
      Stage(calls[i]) < Stage(calls[j]) || (Stage(calls[i]) == Stage(calls[j]) && Stage(calls[i]) in {1, 4})
  }

  lemma StagedAppend(xs: seq<Call>, ys: seq<Call>)
    requires Staged(xs) && Staged(ys)
    requires forall i, j | 0 <= i < |xs| && 0 <= j < |ys| :: Stage(xs[i]) < Stage(ys[j])
    ensures Staged(xs + ys)
  {
    forall i, j | 0 <= i < j < |xs + ys|
      ensures Stage((xs + ys)[i]) < Stage((xs + ys)[j])
              || (Stage((xs + ys)[i]) == Stage((xs + ys)[j]) && Stage((xs + ys)[i]) in {1, 4})
    {
      if j < |xs| {
        assert (xs + ys)[i] == xs[i] && (xs + ys)[j] == xs[j];
      } else if i < |xs| {
        assert (xs + ys)[i] == xs[i] && (xs + ys)[j] == ys[j - |xs|];
      } else {
        assert (xs + ys)[i] == ys[i - |xs|] && (xs + ys)[j] == ys[j - |xs|];
      }
    }
  }

  /** Once every file has been read, `Execute` stores the result of the engine on the transactions and the
      concatenated statements, with the bucket order drawn from the loaded amounts. */
  lemma ExecuteLoaded(p: Ports, txPath: string, paths: seq<string>, start: int, end: int,
                      amountChoices: seq<nat>, bankChoices: seq<nat>)
    requires p.getTransactions(txPath, start, end).Ok?
    requires AllRead(Reader(p, start, end), paths)
    ensures var ss := Flatten(Reader(p, start, end), paths);
      Execute(p, txPath, paths, start, end, amountChoices, bankChoices)
        == Store(p, [GetTransactions(txPath, start, end)] + ReadCalls(paths, start, end),
                 Run(p.getTransactions(txPath, start, end).value, ss, Shuffle(AmountsOf(ss), amountChoices)), bankChoices)
  {
    LoadFilesSucceeds(Reader(p, start, end), paths);
  }


  /** The per-bank loop appends only per-bank stores, so a staged prefix of earlier stages stays staged. */
  lemma StoreBanksStaged(p: Ports, calls: seq<Call>, d: map<string, seq<BankStatement>>, order: seq<string>)
    requires Staged(calls)
    requires forall i | 0 <= i < |calls| :: Stage(calls[i]) <= 3
    ensures var x := StoreBanks(p, calls, d, order);
      && |calls| <= |x.calls| && x.calls[..|calls|] == calls
      && Staged(x.calls)
      && forall i | |calls| <= i < |x.calls| :: Stage(x.calls[i]) == 4
  {
    var x := StoreBanks(p, calls, d, order);
    StoreBanksCalls(p, calls, d, order);
    var tail := x.calls[|calls|..];
    assert x.calls == calls + tail;
    forall i | 0 <= i < |tail|
      ensures Stage(tail[i]) == 4
    {
      assert tail[i] == x.calls[|calls| + i];
    }
    StagedAppend(calls, tail);
  }

  /** Appending later-stage calls to a staged prefix of reads keeps the prefix and the stage order. */
  lemma StagedAfterReads(calls: seq<Call>, tail: seq<Call>)
    requires Staged(calls) && Staged(tail)
    requires forall i | 0 <= i < |calls| :: Stage(calls[i]) <= 1
    requires forall i | 0 <= i < |tail| :: Stage(tail[i]) >= 2
    ensures var x := calls + tail;
      && x[..|calls|] == calls
      && Staged(x)
      && forall i | |calls| <= i < |x| :: Stage(x[i]) >= 2
  {
    StagedAppend(calls, tail);
    var x := calls + tail;
    forall i | |calls| <= i < |x|
      ensures Stage(x[i]) >= 2
    {
      assert x[i] == tail[i - |calls|];
    }
  }

  /** The per-bank stage of `Store`, reached once both earlier stores succeed. */
  lemma StoreBanksAfterReads(p: Ports, calls: seq<Call>, stores: seq<Call>, d: map<string, seq<BankStatement>>,
                             order: seq<string>)
    requires Staged(calls) && Staged(stores)
    requires forall i | 0 <= i < |calls| :: Stage(calls[i]) <= 1
    requires forall i | 0 <= i < |stores| :: 2 <= Stage(stores[i]) <= 3
    ensures var x := StoreBanks(p, calls + stores, d, order);
      && |calls| <= |x.calls| && x.calls[..|calls|] == calls
      && Staged(x.calls)
      && forall i | |calls| <= i < |x.calls| :: Stage(x.calls[i]) >= 2
  {
    var banks := StoreBanks(p, calls + stores, d, order).calls;
    StagedAppend(calls, stores);
    StoreBanksStaged(p, calls + stores, d, order);
    var tail := banks[|calls|..];
    assert banks == calls + tail;
    forall i | 0 <= i < |tail|
      ensures Stage(tail[i]) >= 2
    {
      assert tail[i] == banks[|calls| + i];
      if i < |stores| {
        assert banks[|calls| + i] == (calls + stores)[|calls| + i];
      }
    }
    forall i, j | 0 <= i < j < |tail|
      ensures Stage(tail[i]) < Stage(tail[j]) || (Stage(tail[i]) == Stage(tail[j]) && Stage(tail[i]) in {1, 4})
    {
      assert tail[i] == banks[|calls| + i] && tail[j] == banks[|calls| + j];
    }
    StagedAfterReads(calls, tail);
  }

  /** The store steps only append store calls, in stage order, after a prefix of reads. */
  lemma StoreStaged(p: Ports, calls: seq<Call>, r: Reconciliation, bankChoices: seq<nat>)
    requires Staged(calls)
    requires forall i | 0 <= i < |calls| :: Stage(calls[i]) <= 1
    ensures var x := Store(p, calls, r, bankChoices);
      && |calls| <= |x.calls| && x.calls[..|calls|] == calls
      && Staged(x.calls)
      && forall i | |calls| <= i < |x.calls| :: Stage(x.calls[i]) >= 2
  {
    var stores := [StoreSummary(r.total), StoreTransactions(r.unmatched)];
    if p.storeSummary(r.total).Some? {
      StagedAfterReads(calls, [StoreSummary(r.total)]);
    } else if p.storeTransactions(r.unmatched).Some? {
      assert calls + [StoreSummary(r.total)] + [StoreTransactions(r.unmatched)] == calls + stores;
      StagedAfterReads(calls, stores);
    } else {
      assert calls + [StoreSummary(r.total)] + [StoreTransactions(r.unmatched)] == calls + stores;
      var leftovers := LeftoverStatements(r);
      StoreBanksAfterReads(p, calls, stores, Regroup(leftovers), Shuffle(BanksOf(leftovers), bankChoices));
    }
  }

  /** The reads issued before any store: the transaction read, then statement reads, all with the run's window. */
  lemma ReadsStaged(txPath: string, read: seq<string>, start: int, end: int)
    ensures var issued := [GetTransactions(txPath, start, end)] + ReadCalls(read, start, end);
      && issued[0] == GetTransactions(txPath, start, end)
      && Staged(issued)
      && (forall i | 0 <= i < |issued| :: Stage(issued[i]) <= 1)
      && (forall i | 0 <= i < |issued| && issued[i].GetBankStatements? :: issued[i].start == start && issued[i].end == end)
  {
    var first := [GetTransactions(txPath, start, end)];
    StagedAppend(first, ReadCalls(read, start, end));
  }

  /** Extending the reads with store calls keeps the first call and the windows of the reads. */
  lemma StoresAfterReads(issued: seq<Call>, calls: seq<Call>, first: Call, start: int, end: int)
    requires 1 <= |issued| <= |calls| && calls[..|issued|] == issued && issued[0] == first
    requires forall i | 0 <= i < |issued| && issued[i].GetBankStatements? :: issued[i].start == start && issued[i].end == end
    requires forall i | |issued| <= i < |calls| :: Stage(calls[i]) >= 2
    ensures calls[0] == first
    ensures forall i | 0 <= i < |calls| && calls[i].GetBankStatements? :: calls[i].start == start && calls[i].end == end
  {
    assert calls[0] == calls[..|issued|][0];
    forall i | 0 <= i < |calls| && calls[i].GetBankStatements?
      ensures calls[i].start == start && calls[i].end == end
    {
      assert calls[i] == calls[..|issued|][i];
    }
  }

  /** Calls come in stage order: first the transaction read, then statement reads with the same window, then
      at most one summary store, at most one transaction store, and the per-bank stores. */
  lemma ExecuteStaged(p: Ports, txPath: string, paths: seq<string>, start: int, end: int,
                      amountChoices: seq<nat>, bankChoices: seq<nat>)
    ensures var x := Execute(p, txPath, paths, start, end, amountChoices, bankChoices);
      && |x.calls| >= 1
      && x.calls[0] == GetTransactions(txPath, start, end)
      && Staged(x.calls)
      && (forall i | 0 <= i < |x.calls| && x.calls[i].GetBankStatements? :: x.calls[i].start == start && x.calls[i].end == end)
  {
    var x := Execute(p, txPath, paths, start, end, amountChoices, bankChoices);
    var got := p.getTransactions(txPath, start, end);
    if got.Ok? {
      var loaded := LoadFiles(Reader(p, start, end), paths);
      var issued := [GetTransactions(txPath, start, end)] + ReadCalls(loaded.read, start, end);
      ReadsStaged(txPath, loaded.read, start, end);
      if loaded.result.Ok? {
        var st := loaded.result.value;
        var r := Reconcile(st.buckets, Summary(0, st.amount, 0, 0, |got.value|), got.value,
                           Shuffle(AmountsOf(st.statements), amountChoices));
        assert x == Store(p, issued, r, bankChoices);
        StoreStaged(p, issued, r, bankChoices);
        StoresAfterReads(issued, x.calls, GetTransactions(txPath, start, end), start, end);
      }
    }
  }

  /** A failed read, of the transactions or of any statement file, is returned wrapped before anything is stored:
      the transaction read alone, or the statement reads up to and including the first failing file. */
  lemma ExecuteReadFailure(p: Ports, txPath: string, paths: seq<string>, start: int, end: int,
                           amountChoices: seq<nat>, bankChoices: seq<nat>) returns (k: nat)
    requires p.getTransactions(txPath, start, end).Err? || !AllRead(Reader(p, start, end), paths)
    ensures var x := Execute(p, txPath, paths, start, end, amountChoices, bankChoices);
      var got := p.getTransactions(txPath, start, end);
      && x.err.Some?
      && (forall i | 0 <= i < |x.calls| :: Stage(x.calls[i]) <= 1)
      && (got.Err? ==> x == Execution([GetTransactions(txPath, start, end)], Some(Wrapped(TransactionsContext, got.error))))
      && (got.Ok? ==>
            && k < |paths|
            && AllRead(Reader(p, start, end), paths[..k])
            && p.getBankStatements(paths[k], start, end).Err?
            && x == Execution([GetTransactions(txPath, start, end)] + ReadCalls(paths[..k + 1], start, end),
                              Some(Wrapped(StatementsContext, p.getBankStatements(paths[k], start, end).error))))
  {
    k := 0;
    var x := Execute(p, txPath, paths, start, end, amountChoices, bankChoices);
    var first := [GetTransactions(txPath, start, end)];
    if p.getTransactions(txPath, start, end).Ok? {
      k := LoadFilesFails(Reader(p, start, end), paths);
      var issued := first + ReadCalls(paths[..k + 1], start, end);
      assert x == Execution(issued, Some(Wrapped(StatementsContext, p.getBankStatements(paths[k], start, end).error)));
      forall i | 0 <= i < |x.calls|
        ensures Stage(x.calls[i]) <= 1
      {
        if i > 0 {
          assert x.calls[i] == ReadCalls(paths[..k + 1], start, end)[i - 1];
        }
      }
    }
  }

  /** The summary store and the transaction store, each ending the run on its error. */
  lemma StoreSteps(p: Ports, calls: seq<Call>, r: Reconciliation, bankChoices: seq<nat>)
    ensures var x := Store(p, calls, r, bankChoices);
      && |x.calls| > |calls| && x.calls[..|calls|] == calls
      && x.calls[|calls|] == StoreSummary(r.total)
      && (p.storeSummary(r.total).Some? ==>
            |x.calls| == |calls| + 1 && x.err == Some(Wrapped(SummaryContext, p.storeSummary(r.total).value)))
      && (p.storeSummary(r.total).None? ==>
            && |x.calls| > |calls| + 1
            && x.calls[|calls| + 1] == StoreTransactions(r.unmatched)
            && (p.storeTransactions(r.unmatched).Some? ==>
                  |x.calls| == |calls| + 2 && x.err == Some(Wrapped(StoreTransactionsContext, p.storeTransactions(r.unmatched).value))))
  {
    var x := Store(p, calls, r, bankChoices);
    var withSummary := calls + [StoreSummary(r.total)];
    var withTransactions := withSummary + [StoreTransactions(r.unmatched)];
    if p.storeSummary(r.total).None? && p.storeTransactions(r.unmatched).None? {
      var leftovers := LeftoverStatements(r);
      StoreBanksCalls(p, withTransactions, Regroup(leftovers), Shuffle(BanksOf(leftovers), bankChoices));
      assert x.calls[..|withTransactions|][..|calls|] == calls;
      assert x.calls[|calls|] == x.calls[..|withTransactions|][|calls|];
      assert x.calls[|calls| + 1] == x.calls[..|withTransactions|][|calls| + 1];
    }
  }

  /** With every read successful, the reads are followed by one summary store of the reference summary of the
      transactions and all statements; a summary store error ends the run with that error wrapped. */
  lemma ExecuteStoresSummary(p: Ports, txPath: string, paths: seq<string>, start: int, end: int,
                             amountChoices: seq<nat>, bankChoices: seq<nat>)
    requires p.getTransactions(txPath, start, end).Ok?
    requires AllRead(Reader(p, start, end), paths)
    ensures var x := Execute(p, txPath, paths, start, end, amountChoices, bankChoices);
      var total := ReferenceTotals(p.getTransactions(txPath, start, end).value, Flatten(Reader(p, start, end), paths));
      var n := |paths| + 1;
      && |x.calls| > n
      && x.calls[..n] == [GetTransactions(txPath, start, end)] + ReadCalls(paths, start, end)
      && x.calls[n] == StoreSummary(total)
      && (p.storeSummary(total).Some? ==> |x.calls| == n + 1 && x.err == Some(Wrapped(SummaryContext, p.storeSummary(total).value)))
  {
    var ts, ss := p.getTransactions(txPath, start, end).value, Flatten(Reader(p, start, end), paths);
    var order := Shuffle(AmountsOf(ss), amountChoices);
    ExecuteLoaded(p, txPath, paths, start, end, amountChoices, bankChoices);
    ShuffleCovers(ss, amountChoices);
    RunSummary(ts, ss, order);
    var issued := [GetTransactions(txPath, start, end)] + ReadCalls(paths, start, end);
    var r := Run(ts, ss, order);
    assert Execute(p, txPath, paths, start, end, amountChoices, bankChoices) == Store(p, issued, r, bankChoices);
    assert r.total == ReferenceTotals(ts, ss);
    StoreSteps(p, issued, r, bankChoices);
    var x := Store(p, issued, r, bankChoices);
    assert |issued| == |paths| + 1;
    assert x.calls[|issued|] == StoreSummary(ReferenceTotals(ts, ss));
  }

  /** After a successful summary store comes one store of the unmatched transactions, which are exactly those the
      reference pairing rule leaves unpaired, in input order; its error ends the run with that error wrapped. */
  lemma ExecuteStoresTransactions(p: Ports, txPath: string, paths: seq<string>, start: int, end: int,
                                  amountChoices: seq<nat>, bankChoices: seq<nat>)
    requires p.getTransactions(txPath, start, end).Ok?
    requires AllRead(Reader(p, start, end), paths)
    requires p.storeSummary(ReferenceTotals(p.getTransactions(txPath, start, end).value, Flatten(Reader(p, start, end), paths))).None?
    ensures var x := Execute(p, txPath, paths, start, end, amountChoices, bankChoices);
      var unpaired := Unpaired(p.getTransactions(txPath, start, end).value, Flatten(Reader(p, start, end), paths));
      var n := |paths| + 1;
      && |x.calls| > n + 1
      && x.calls[n + 1] == StoreTransactions(unpaired)
      && (p.storeTransactions(unpaired).Some? ==>
            |x.calls| == n + 2 && x.err == Some(Wrapped(StoreTransactionsContext, p.storeTransactions(unpaired).value)))
  {
    var ts, ss := p.getTransactions(txPath, start, end).value, Flatten(Reader(p, start, end), paths);
    var order := Shuffle(AmountsOf(ss), amountChoices);
    ExecuteLoaded(p, txPath, paths, start, end, amountChoices, bankChoices);
    ShuffleCovers(ss, amountChoices);
    RunSummary(ts, ss, order);
    RunUnmatched(ts, ss, order);
    var issued := [GetTransactions(txPath, start, end)] + ReadCalls(paths, start, end);
    StoreSteps(p, issued, Run(ts, ss, order), bankChoices);
  }

  /** The per-bank list a bank store call carries is the bank's share of the reference leftovers. */
  ghost predicate ListOfBank(c: Call, surplus: seq<BankStatement>) {
    c.StoreBankStatements? && BankShare(c.statements, c.bank, surplus)
  }

  /** Once both stores succeed, `Store` is the per-bank loop after the two store calls. */
  lemma StoreReachesBanks(p: Ports, calls: seq<Call>, r: Reconciliation, bankChoices: seq<nat>)
    requires p.storeSummary(r.total).None? && p.storeTransactions(r.unmatched).None?
    ensures Store(p, calls, r, bankChoices)
              == StoreBanks(p, calls + [StoreSummary(r.total), StoreTransactions(r.unmatched)],
                            Regroup(LeftoverStatements(r)), Shuffle(BanksOf(LeftoverStatements(r)), bankChoices))
  {
    assert calls + [StoreSummary(r.total)] + [StoreTransactions(r.unmatched)]
        == calls + [StoreSummary(r.total), StoreTransactions(r.unmatched)];
  }

  /** The per-bank loop over lists that are the banks' shares of `surplus`, in an order naming every bank with a
      share: each store carries one share, no bank twice; `nil` only after every share was stored; otherwise the
      last call is the failing store and its error is returned wrapped. */
  lemma StoreBanksShares(p: Ports, calls: seq<Call>, d: map<string, seq<BankStatement>>, order: seq<string>,
                         surplus: seq<BankStatement>)
    requires forall bank | bank in d :: BankShare(d[bank], bank, surplus)
    requires forall bank | Filter(surplus, OfBank(bank)) != [] :: bank in d && bank in order
    ensures var x := StoreBanks(p, calls, d, order);
      var n := |calls|;
      && |x.calls| >= n
      && (forall i | n <= i < |x.calls| :: ListOfBank(x.calls[i], surplus))
      && (forall i, j | n <= i < j < |x.calls| :: x.calls[i].bank != x.calls[j].bank)
      && (forall i | n <= i < |x.calls| - 1 :: p.storeBankStatements(x.calls[i].statements, x.calls[i].bank).None?)
      && (x.err.None? ==> forall bank | Filter(surplus, OfBank(bank)) != [] ::
            exists i | n <= i < |x.calls| :: x.calls[i].bank == bank && p.storeBankStatements(x.calls[i].statements, bank).None?)
      && (x.err.Some? ==>
            && |x.calls| > n
            && var last := x.calls[|x.calls| - 1];
            && p.storeBankStatements(last.statements, last.bank).Some?
            && x.err == Some(Wrapped(StoreStatementsContext, p.storeBankStatements(last.statements, last.bank).value)))
  {
    var x := StoreBanks(p, calls, d, order);
    StoreBanksCalls(p, calls, d, order);
    StoreBanksOutcome(p, calls, d, order);
    forall i | |calls| <= i < |x.calls|
      ensures ListOfBank(x.calls[i], surplus)
    {
      assert StoresListOf(x.calls[i], d);
    }
    if x.err.None? {
      forall bank | Filter(surplus, OfBank(bank)) != []
        ensures exists i | |calls| <= i < |x.calls| ::
          x.calls[i].bank == bank && p.storeBankStatements(x.calls[i].statements, bank).None?
      {
        StoreBanksComplete(p, calls, d, order, bank);
        var i :| |calls| <= i < |x.calls| && x.calls[i] == StoreBankStatements(d[bank], bank);
        assert p.storeBankStatements(x.calls[i].statements, x.calls[i].bank).None?;
      }
    }
  }

  /** After a run, every per-bank list is that bank's share of the reference leftovers, and the per-bank loop's
      order names every bank with a leftover. */
  lemma RunShares(ts: seq<Transaction>, ss: seq<BankStatement>, order: seq<int>, bankChoices: seq<nat>)
    requires Covers(order, ss)
    ensures var leftovers := LeftoverStatements(Run(ts, ss, order));
      var d := Regroup(leftovers);
      && (forall bank | bank in d :: BankShare(d[bank], bank, Surplus(ss, ts)))
      && (forall bank | Filter(Surplus(ss, ts), OfBank(bank)) != [] ::
            bank in d && bank in Shuffle(BanksOf(leftovers), bankChoices))
  {
    var leftovers := LeftoverStatements(Run(ts, ss, order));
    var d := Regroup(leftovers);
    forall bank | bank in d
      ensures BankShare(d[bank], bank, Surplus(ss, ts))
    {
      RunDiscrepancies(ts, ss, order, bank);
      assert |multiset(d[bank])| > 0;
    }
    forall bank | Filter(Surplus(ss, ts), OfBank(bank)) != []
      ensures bank in d && bank in Shuffle(BanksOf(leftovers), bankChoices)
    {
      RunDiscrepancies(ts, ss, order, bank);
      BanksCovered(leftovers, bankChoices, bank);
    }
  }

  /** After both stores succeed, each remaining call stores one bank's leftovers, no bank twice. The run returns
      `nil` only after every bank with a leftover was stored without error; otherwise the last call is the first
      failing bank store and its error is returned wrapped. */
  lemma ExecuteStoresBanks(p: Ports, txPath: string, paths: seq<string>, start: int, end: int,
                           amountChoices: seq<nat>, bankChoices: seq<nat>)
    requires p.getTransactions(txPath, start, end).Ok?
    requires AllRead(Reader(p, start, end), paths)
    requires p.storeSummary(ReferenceTotals(p.getTransactions(txPath, start, end).value, Flatten(Reader(p, start, end), paths))).None?
    requires p.storeTransactions(Unpaired(p.getTransactions(txPath, start, end).value, Flatten(Reader(p, start, end), paths))).None?
    ensures var x := Execute(p, txPath, paths, start, end, amountChoices, bankChoices);
      var surplus := Surplus(Flatten(Reader(p, start, end), paths), p.getTransactions(txPath, start, end).value);
      var n := |paths| + 3;
      && |x.calls| >= n
      && (forall i | n <= i < |x.calls| :: ListOfBank(x.calls[i], surplus))
      && (forall i, j | n <= i < j < |x.calls| :: x.calls[i].bank != x.calls[j].bank)
      && (forall i | n <= i < |x.calls| - 1 :: p.storeBankStatements(x.calls[i].statements, x.calls[i].bank).None?)
      && (x.err.None? ==> forall bank | Filter(surplus, OfBank(bank)) != [] ::
            exists i | n <= i < |x.calls| :: x.calls[i].bank == bank && p.storeBankStatements(x.calls[i].statements, bank).None?)
      && (x.err.Some? ==>
            && |x.calls| > n
            && var last := x.calls[|x.calls| - 1];
            && p.storeBankStatements(last.statements, last.bank).Some?
            && x.err == Some(Wrapped(StoreStatementsContext, p.storeBankStatements(last.statements, last.bank).value)))
  {
    var ts, ss := p.getTransactions(txPath, start, end).value, Flatten(Reader(p, start, end), paths);
    var order := Shuffle(AmountsOf(ss), amountChoices);
    ExecuteLoaded(p, txPath, paths, start, end, amountChoices, bankChoices);
    ShuffleCovers(ss, amountChoices);
    RunSummary(ts, ss, order);
    RunUnmatched(ts, ss, order);
    var r := Run(ts, ss, order);
    var issued := [GetTransactions(txPath, start, end)] + ReadCalls(paths, start, end);
    StoreReachesBanks(p, issued, r, bankChoices);
    var prefix := issued + [StoreSummary(r.total), StoreTransactions(r.unmatched)];
    assert |prefix| == |paths| + 3;
    var leftovers := LeftoverStatements(r);
    RunShares(ts, ss, order, bankChoices);
    StoreBanksShares(p, prefix, Regroup(leftovers), Shuffle(BanksOf(leftovers), bankChoices), Surplus(ss, ts));
  }
}
