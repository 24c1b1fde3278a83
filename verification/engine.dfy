/** The reconciliation engine as one pure computation: load every statement into the amount buckets, run the
    matching pass, drain the leftovers, and keep the `Summary` counters (recon/recon_executor.go:38-81). The
    theorems here compare its results with the queue-free reference rules `Unpaired` and `Surplus`. */
module Engine {
  import opened Seqs
  import opened Records
  import opened AmountGroups
  import opened Buckets
  import opened Matching
  import opened Discrepancies

  /** Unmatched transactions, leftover statements (with their buckets' flags), and the final counters. */
  datatype Reconciliation = Reconciliation(unmatched: seq<Transaction>, leftovers: seq<Entry>, total: Summary)

  /** The counters once the transactions and statements are loaded: `TotalProcessed` starts at the number of
      transactions (recon_executor.go:38) and `TotalAmountBankStatements` has summed every loaded statement (:52). */
  function Opening(ts: seq<Transaction>, ss: seq<BankStatement>): Summary {
    Summary(0, StatementSum(ss), 0, 0, |ts|)
  }

  /** Matching pass and drain of recon_executor.go:56-81; every drained statement adds one to `TotalProcessed`
      and one to `TotalUnmatched`. */
  function Reconcile(b: Buckets, total: Summary, ts: seq<Transaction>, order: seq<int>): Reconciliation {
    var p := Pass(b, total, ts);
    var es := Drain(p.buckets, order);
    Reconciliation(p.unmatched, es,
      p.total.(totalProcessed := p.total.totalProcessed + |es|, totalUnmatched := p.total.totalUnmatched + |es|))
  }

  /** The engine on transactions `ts` and the statements `ss` of all files in load order, draining buckets in `order`. */
  function Run(ts: seq<Transaction>, ss: seq<BankStatement>, order: seq<int>): Reconciliation {
    Reconcile(Load(map[], ss), Opening(ts, ss), ts, order)
  }

  /** `order` visits the bucket of every loaded amount (a Go `range` over the map visits every key). */
  predicate Covers(order: seq<int>, ss: seq<BankStatement>) {
    forall i | 0 <= i < |ss| :: ss[i].amount in order
  }

  function LeftoverStatements(r: Reconciliation): seq<BankStatement> {
    StatementsOf(r.leftovers)
  }

  /** Any runtime order over the loaded amounts visits every bucket. */
  lemma ShuffleCovers(ss: seq<BankStatement>, choices: seq<nat>)
    ensures Covers(Shuffle(AmountsOf(ss), choices), ss)
  {
    var order := Shuffle(AmountsOf(ss), choices);
    forall i | 0 <= i < |ss|
      ensures ss[i].amount in order
    {
      assert AmountsOf(ss)[i] == ss[i].amount;
      assert ss[i].amount in multiset(AmountsOf(ss));
    }
  }

  lemma LoadedBuckets(ts: seq<Transaction>, ss: seq<BankStatement>)
    ensures WellKeyed(Load(map[], ss))
    ensures WellKeyed(Pass(Load(map[], ss), Opening(ts, ss), ts).buckets)
    ensures forall a :: |Queue(Load(map[], ss), a)| == StatementCount(ss, a)
  {
    LoadWellKeyed(map[], ss);
    PassWellKeyed(Load(map[], ss), Opening(ts, ss), ts);
    forall a
      ensures |Queue(Load(map[], ss), a)| == StatementCount(ss, a)
    {
      LoadFromEmpty(ss, a);
    }
  }

  /** The transactions the engine keeps are exactly those the FIFO pairing rule leaves unpaired, in input order. */
  lemma RunUnmatched(ts: seq<Transaction>, ss: seq<BankStatement>, order: seq<int>)
    ensures Run(ts, ss, order).unmatched == Unpaired(ts, ss)
    ensures IsSubsequence(Run(ts, ss, order).unmatched, ts)
  {
    LoadedBuckets(ts, ss);
    PassKeepsUnpaired(Load(map[], ss), Opening(ts, ss), ts, ss);
    UnpairedIsSubsequence(ts, ss);
  }

  /** After the pass, the queue of amount `a` holds the statements of amount `a` beyond the first
      min(#transactions, #statements) of that amount. */
  lemma RunQueues(ts: seq<Transaction>, ss: seq<BankStatement>, a: int)
    ensures var pb := Pass(Load(map[], ss), Opening(ts, ss), ts).buckets;
      && Queue(pb, a) == Filter(ss, StatementAt(a))[Min(TransactionCount(ts, a), StatementCount(ss, a))..]
      && (a in pb <==> StatementCount(ss, a) >= 1)
      && (Flagged(pb, a) <==> StatementCount(ss, a) >= 2)
  {
    LoadFromEmpty(ss, a);
    PassBuckets(Load(map[], ss), Opening(ts, ss), ts, a);
  }

  /** Amount by amount, the drained leftovers are the reference leftovers in FIFO order, for every drain order that
      visits all buckets. */
  lemma RunLeftoversAt(ts: seq<Transaction>, ss: seq<BankStatement>, order: seq<int>, a: int)
    requires Covers(order, ss)
    ensures Filter(LeftoverStatements(Run(ts, ss, order)), StatementAt(a)) == Filter(Surplus(ss, ts), StatementAt(a))
    ensures Filter(LeftoverStatements(Run(ts, ss, order)), StatementAt(a))
              == Filter(ss, StatementAt(a))[Min(TransactionCount(ts, a), StatementCount(ss, a))..]
  {
    LoadedBuckets(ts, ss);
    RunQueues(ts, ss, a);
    var pb := Pass(Load(map[], ss), Opening(ts, ss), ts).buckets;
    if a in pb {
      var f := Filter(ss, StatementAt(a));
      assert f[0] in ss;
      var i :| 0 <= i < |ss| && ss[i] == f[0];
    }
    DrainAt(pb, order, a);
    SurplusAt(ss, ts, a);
  }

  /** The leftovers are the reference leftovers as a multiset, whatever the drain order. */
  lemma RunLeftovers(ts: seq<Transaction>, ss: seq<BankStatement>, order: seq<int>)
    requires Covers(order, ss)
    ensures multiset(LeftoverStatements(Run(ts, ss, order))) == multiset(Surplus(ss, ts))
    ensures |Run(ts, ss, order).leftovers| == |Surplus(ss, ts)|
  {
    forall a
      ensures Filter(LeftoverStatements(Run(ts, ss, order)), StatementAt(a)) == Filter(Surplus(ss, ts), StatementAt(a))
    {
      RunLeftoversAt(ts, ss, order, a);
    }
    SameMultisetByAmount(LeftoverStatements(Run(ts, ss, order)), Surplus(ss, ts));
    assert |multiset(LeftoverStatements(Run(ts, ss, order)))| == |multiset(Surplus(ss, ts))|;
  }

  /** Conservation of the counters: every transaction is either matched or unmatched, every leftover statement
      counts once as processed and once as unmatched, and the sums cover every record regardless of outcome. */
  lemma RunTotals(ts: seq<Transaction>, ss: seq<BankStatement>, order: seq<int>)
    requires Covers(order, ss)
    ensures var t := Run(ts, ss, order).total;
      && t.totalProcessed == |ts| + |Surplus(ss, ts)|
      && t.totalMatched + |Unpaired(ts, ss)| == |ts|
      && t.totalUnmatched == |Unpaired(ts, ss)| + |Surplus(ss, ts)|
      && t.totalAmountTransactions == TransactionSum(ts)
      && t.totalAmountBankStatements == StatementSum(ss)
  {
    PassTotals(Load(map[], ss), Opening(ts, ss), ts);
    RunUnmatched(ts, ss, order);
    RunLeftovers(ts, ss, order);
  }

  /** The counters the reference rules predict, with no mention of buckets or iteration order. */
  function ReferenceTotals(ts: seq<Transaction>, ss: seq<BankStatement>): Summary {
    var unpaired, surplus := |Unpaired(ts, ss)|, |Surplus(ss, ts)|;
    Summary(TransactionSum(ts), StatementSum(ss), |ts| - unpaired, unpaired + surplus, |ts| + surplus)
  }

  /** The summary the engine produces is the reference summary, whatever the drain order. */
  lemma RunSummary(ts: seq<Transaction>, ss: seq<BankStatement>, order: seq<int>)
    requires Covers(order, ss)
    ensures Run(ts, ss, order).total == ReferenceTotals(ts, ss)
  {
    RunTotals(ts, ss, order);
  }

  /** Per amount, the number of matches is min(#transactions, #statements) and the surplus stays on the side that
      had more: never both an unmatched transaction and a leftover statement of the same amount. */
  lemma RunMatchesAt(ts: seq<Transaction>, ss: seq<BankStatement>, order: seq<int>, a: int)
    requires Covers(order, ss)
    ensures var r := Run(ts, ss, order);
      var m := Min(TransactionCount(ts, a), StatementCount(ss, a));
      && TransactionCount(ts, a) - TransactionCount(r.unmatched, a) == m
      && StatementCount(ss, a) - StatementCount(LeftoverStatements(r), a) == m
      && (TransactionCount(r.unmatched, a) == 0 || StatementCount(LeftoverStatements(r), a) == 0)
  {
    RunUnmatched(ts, ss, order);
    UnpairedCount(ts, ss, a);
    RunLeftoversAt(ts, ss, order, a);
  }

  /** A leftover's flag says whether its amount was loaded two or more times, across all files and banks. */
  lemma RunFlags(ts: seq<Transaction>, ss: seq<BankStatement>, order: seq<int>)
    ensures var es := Run(ts, ss, order).leftovers;
      forall i | 0 <= i < |es| :: es[i].bucketFlag <==> StatementCount(ss, es[i].statement.amount) >= 2
  {
    LoadedBuckets(ts, ss);
    var pb := Pass(Load(map[], ss), Opening(ts, ss), ts).buckets;
    DrainFlags(pb, order);
    var es := Run(ts, ss, order).leftovers;
    forall i | 0 <= i < |es|
      ensures es[i].bucketFlag <==> StatementCount(ss, es[i].statement.amount) >= 2
    {
      RunQueues(ts, ss, es[i].statement.amount);
    }
  }

  /** A bank's share of the leftovers `surplus`: a non-empty list with the same statements as a multiset, none of
      another bank, in FIFO order within each amount. */
  ghost predicate BankShare(statements: seq<BankStatement>, bank: string, surplus: seq<BankStatement>) {
    && statements != []
    && multiset(statements) == multiset(Filter(surplus, OfBank(bank)))
    && (forall j | 0 <= j < |statements| :: statements[j].bank == bank)
    && (forall a :: Filter(statements, StatementAt(a)) == Filter(Filter(surplus, StatementAt(a)), OfBank(bank)))
  }

  /** The per-bank lists of the recon package: a bank has a list iff it has a leftover statement; its list holds
      exactly that bank's leftovers (as a multiset), each with that bank, and keeps FIFO order within one amount. */
  lemma RunDiscrepancies(ts: seq<Transaction>, ss: seq<BankStatement>, order: seq<int>, bank: string)
    requires Covers(order, ss)
    ensures var d := Regroup(LeftoverStatements(Run(ts, ss, order)));
      && (bank in d <==> Filter(Surplus(ss, ts), OfBank(bank)) != [])
      && (bank in d ==> multiset(d[bank]) == multiset(Filter(Surplus(ss, ts), OfBank(bank))))
      && (bank in d ==> forall i | 0 <= i < |d[bank]| :: d[bank][i].bank == bank)
      && (bank in d ==> forall a :: Filter(d[bank], StatementAt(a)) == Filter(Filter(Surplus(ss, ts), StatementAt(a)), OfBank(bank)))
  {
    var l := LeftoverStatements(Run(ts, ss, order));
    var sur := Surplus(ss, ts);
    RunLeftovers(ts, ss, order);
    RegroupByBank(l, bank);
    FilterPermutes(l, sur, OfBank(bank));
    forall a
      ensures Filter(Filter(l, OfBank(bank)), StatementAt(a)) == Filter(Filter(sur, StatementAt(a)), OfBank(bank))
    {
      FilterCommutes(l, OfBank(bank), StatementAt(a));
      RunLeftoversAt(ts, ss, order, a);
    }
  }

  /** The root variant's per-bank flag: a bank all of whose leftovers have amounts loaded at least twice gets
      `true`; a bank all of whose leftovers have amounts loaded once gets `false` — whatever the drain order. */
  lemma RunBankFlags(ts: seq<Transaction>, ss: seq<BankStatement>, order: seq<int>, bank: string)
    requires Covers(order, ss)
    requires bank in RegroupFlagged(Run(ts, ss, order).leftovers)
    ensures var mine := Filter(Surplus(ss, ts), OfBank(bank));
      var flag := RegroupFlagged(Run(ts, ss, order).leftovers)[bank].appearMultiple;
      && ((forall i | 0 <= i < |mine| :: StatementCount(ss, mine[i].amount) >= 2) ==> flag)
      && ((forall i | 0 <= i < |mine| :: StatementCount(ss, mine[i].amount) < 2) ==> !flag)
  {
    var es := Run(ts, ss, order).leftovers;
    var mine := Filter(Surplus(ss, ts), OfBank(bank));
    RunFlags(ts, ss, order);
    RunLeftovers(ts, ss, order);
    RegroupFlaggedLastWriter(es, bank);
    var i :| 0 <= i < |es| && es[i].statement.bank == bank
      && es[i].bucketFlag == RegroupFlagged(es)[bank].appearMultiple
      && forall j | i < j < |es| :: es[j].statement.bank != bank;
    var s := es[i].statement;
    assert s == LeftoverStatements(Run(ts, ss, order))[i];
    assert s in multiset(Surplus(ss, ts));
    FilterMultiplicity(Surplus(ss, ts), OfBank(bank), s);
    assert s in multiset(mine);
    var k :| 0 <= k < |mine| && mine[k] == s;
  }
}
