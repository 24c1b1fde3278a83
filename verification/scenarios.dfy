/** Two runs of the engine on fixed data, as the executor's tests describe them (recon/recon_executor_test.go):
    three transactions against a BCA and a BRI file, and two identical BCA statements against one transaction.
    Every date lies on the start date, so every time is 0; statement IDs are empty, as in the tests. Each result
    holds for every bucket order the runtime may pick. */
module Scenarios {
  import opened Seqs
  import opened Records
  import opened Matching
  import opened Discrepancies
  import opened Engine

  const T1: Transaction := Transaction("1", 100, Credit, 0)
  const T2: Transaction := Transaction("2", 200, Debit, 0)
  const T3: Transaction := Transaction("3", 250, Debit, 0)
  const Bca100: BankStatement := BankStatement("BCA", "", 100, 0)
  const Bca300: BankStatement := BankStatement("BCA", "", 300, 0)
  const Bri200: BankStatement := BankStatement("BRI", "", 200, 0)
  const Bri400: BankStatement := BankStatement("BRI", "", 400, 0)

  /** The statements of "bca.xlsx" then "bri.xlsx", in load order. */
  const StatementsA: seq<BankStatement> := [Bca100, Bca300, Bri200, Bri400]
  const TransactionsA: seq<Transaction> := [T1, T2, T3]

  // Unfolding the reference rules on short sequences, stated for arbitrary elements so that the concrete
  // runs below only evaluate amounts.

  lemma FilterOfTwo<T>(x: T, y: T, p: T -> bool)
    ensures Filter([x], p) == (if p(x) then [x] else [])
    ensures Filter([x, y], p) == (if p(x) then [x] else []) + (if p(y) then [y] else [])
  {
    FilterSnoc([], x, p);
    FilterSnoc([x], y, p);
    assert [] + [x] == [x] && [x] + [y] == [x, y];
  }

  lemma FilterOfThree<T>(x: T, y: T, z: T, p: T -> bool)
    ensures Filter([x, y, z], p) == (if p(x) then [x] else []) + (if p(y) then [y] else []) + (if p(z) then [z] else [])
  {
    FilterOfTwo(x, y, p);
    FilterSnoc([x, y], z, p);
    assert [x, y] + [z] == [x, y, z];
  }

  lemma FilterOfFour<T>(w: T, x: T, y: T, z: T, p: T -> bool)
    ensures Filter([w, x, y], p) == (if p(w) then [w] else []) + (if p(x) then [x] else []) + (if p(y) then [y] else [])
    ensures Filter([w, x, y, z], p)
              == (if p(w) then [w] else []) + (if p(x) then [x] else []) + (if p(y) then [y] else [])
                 + (if p(z) then [z] else [])
  {
    FilterOfThree(w, x, y, p);
    FilterSnoc([w, x, y], z, p);
    assert [w, x, y] + [z] == [w, x, y, z];
  }

  lemma Snocs<T>(a: T, b: T, c: T, d: T)
    ensures [] + [a] == [a] && [a] + [b] == [a, b] && [a, b] + [c] == [a, b, c] && [a, b, c] + [d] == [a, b, c, d]
  {
  }

  /** The reference rules' last step, for one appended record. */
  lemma UnpairedSnoc(init: seq<Transaction>, last: Transaction, ss: seq<BankStatement>)
    ensures Unpaired(init + [last], ss)
              == Unpaired(init, ss)
                 + (if TransactionCount(init, last.amount) >= StatementCount(ss, last.amount) then [last] else [])
  {
    assert (init + [last])[..|init|] == init;
  }

  lemma SurplusSnoc(init: seq<BankStatement>, last: BankStatement, ts: seq<Transaction>)
    ensures Surplus(init + [last], ts)
              == Surplus(init, ts)
                 + (if StatementCount(init, last.amount) >= TransactionCount(ts, last.amount) then [last] else [])
  {
    assert (init + [last])[..|init|] == init;
  }

  lemma SumsOf(t1: Transaction, t2: Transaction, t3: Transaction,
               s1: BankStatement, s2: BankStatement, s3: BankStatement, s4: BankStatement)
    ensures TransactionSum([t1]) == t1.amount
    ensures TransactionSum([t1, t2, t3]) == t1.amount + t2.amount + t3.amount
    ensures StatementSum([s1, s2]) == s1.amount + s2.amount
    ensures StatementSum([s1, s2, s3, s4]) == s1.amount + s2.amount + s3.amount + s4.amount
  {
    assert [t1][..0] == [];
    assert TransactionSum([t1]) == t1.amount;
    assert [t1, t2][..1] == [t1];
    assert TransactionSum([t1, t2]) == t1.amount + t2.amount;
    assert [t1, t2, t3][..2] == [t1, t2];
    assert [s1][..0] == [];
    assert StatementSum([s1]) == s1.amount;
    assert [s1, s2][..1] == [s1];
    assert StatementSum([s1, s2]) == s1.amount + s2.amount;
    assert [s1, s2, s3][..2] == [s1, s2];
    assert StatementSum([s1, s2, s3]) == s1.amount + s2.amount + s3.amount;
    assert [s1, s2, s3, s4][..3] == [s1, s2, s3];
  }

  /** Three transactions of which only the last has more copies than the statements of its amount. */
  lemma LastUnpaired(t1: Transaction, t2: Transaction, t3: Transaction, ss: seq<BankStatement>)
    requires StatementCount(ss, t1.amount) >= 1
    requires TransactionCount([t1], t2.amount) < StatementCount(ss, t2.amount)
    requires TransactionCount([t1, t2], t3.amount) >= StatementCount(ss, t3.amount)
    ensures Unpaired([t1, t2, t3], ss) == [t3]
  {
    Snocs(t1, t2, t3, t3);
    UnpairedSnoc([], t1, ss);
    UnpairedSnoc([t1], t2, ss);
    UnpairedSnoc([t1, t2], t3, ss);
  }

  lemma UnpairedA()
    ensures Unpaired(TransactionsA, StatementsA) == [T3]
  {
    assert StatementCount(StatementsA, 100) == 1 by {
      FilterOfFour(Bca100, Bca300, Bri200, Bri400, StatementAt(100));
    }
    assert StatementCount(StatementsA, 200) == 1 by {
      FilterOfFour(Bca100, Bca300, Bri200, Bri400, StatementAt(200));
    }
    assert TransactionCount([T1], 200) == 0 by {
      FilterOfTwo(T1, T2, TransactionAt(200));
    }
    assert StatementCount(StatementsA, 250) == 0 by {
      FilterOfFour(Bca100, Bca300, Bri200, Bri400, StatementAt(250));
    }
    LastUnpaired(T1, T2, T3, StatementsA);
  }

  lemma SurplusA()
    ensures Surplus(StatementsA, TransactionsA) == [Bca300, Bri400]
  {
    var ts := TransactionsA;
    FilterOfThree(T1, T2, T3, TransactionAt(100));
    FilterOfThree(T1, T2, T3, TransactionAt(300));
    FilterOfThree(T1, T2, T3, TransactionAt(200));
    FilterOfThree(T1, T2, T3, TransactionAt(400));
    FilterOfFour(Bca100, Bca300, Bri200, Bri400, StatementAt(300));
    FilterOfFour(Bca100, Bca300, Bri200, Bri400, StatementAt(200));
    FilterOfFour(Bca100, Bca300, Bri200, Bri400, StatementAt(400));
    Snocs(Bca100, Bca300, Bri200, Bri400);
    SurplusSnoc([], Bca100, ts);
    assert Surplus([Bca100], ts) == [];
    SurplusSnoc([Bca100], Bca300, ts);
    assert Surplus([Bca100, Bca300], ts) == [Bca300];
    SurplusSnoc([Bca100, Bca300], Bri200, ts);
    assert Surplus([Bca100, Bca300, Bri200], ts) == [Bca300];
    SurplusSnoc([Bca100, Bca300, Bri200], Bri400, ts);
  }

  lemma SumsA()
    ensures TransactionSum(TransactionsA) == 550 && StatementSum(StatementsA) == 1000
  {
    SumsOf(T1, T2, T3, Bca100, Bca300, Bri200, Bri400);
  }

  /** A bank whose share of a surplus is the single statement `s` has exactly the list `[s]`. */
  lemma SingleShare(ts: seq<Transaction>, ss: seq<BankStatement>, order: seq<int>, bank: string, s: BankStatement)
    requires Covers(order, ss)
    requires Filter(Surplus(ss, ts), OfBank(bank)) == [s]
    ensures var d := Regroup(LeftoverStatements(Run(ts, ss, order)));
      bank in d && d[bank] == [s]
  {
    var d := Regroup(LeftoverStatements(Run(ts, ss, order)));
    RunDiscrepancies(ts, ss, order, bank);
    assert multiset(d[bank]) == multiset{s};
    assert |d[bank]| == 1;
    assert d[bank][0] in multiset(d[bank]);
  }

  /** Any bank with a list in a run has a statement in the reference surplus. */
  lemma ListedBanks(ts: seq<Transaction>, ss: seq<BankStatement>, order: seq<int>, banks: set<string>)
    requires Covers(order, ss)
    requires forall i | 0 <= i < |Surplus(ss, ts)| :: Surplus(ss, ts)[i].bank in banks
    ensures Regroup(LeftoverStatements(Run(ts, ss, order))).Keys <= banks
  {
    var d := Regroup(LeftoverStatements(Run(ts, ss, order)));
    forall bank | bank in d
      ensures bank in banks
    {
      RunDiscrepancies(ts, ss, order, bank);
      if bank !in banks {
        FilterNone(Surplus(ss, ts), OfBank(bank));
      }
    }
  }

  lemma TotalsA(order: seq<int>)
    requires Covers(order, StatementsA)
    ensures Run(TransactionsA, StatementsA, order).total == Summary(550, 1000, 2, 3, 5)
  {
    RunSummary(TransactionsA, StatementsA, order);
    UnpairedA();
    SurplusA();
    SumsA();
  }

  /** When the surplus holds exactly one statement of each of two banks and nothing of any other, the per-bank
      lists are those two singletons. */
  lemma TwoBanks(ts: seq<Transaction>, ss: seq<BankStatement>, order: seq<int>,
                 b1: string, s1: BankStatement, b2: string, s2: BankStatement)
    requires Covers(order, ss)
    requires Surplus(ss, ts) == [s1, s2] && s1.bank == b1 && s2.bank == b2 && b1 != b2
    ensures Regroup(LeftoverStatements(Run(ts, ss, order))) == map[b1 := [s1], b2 := [s2]]
  {
    assert Filter([s1, s2], OfBank(b1)) == [s1] && Filter([s1, s2], OfBank(b2)) == [s2] by {
      assert [s1] + [s2] == [s1, s2];
      FilterSnoc([s1], s2, OfBank(b1));
      FilterSnoc([s1], s2, OfBank(b2));
    }
    SingleShare(ts, ss, order, b1, s1);
    SingleShare(ts, ss, order, b2, s2);
    ListedBanks(ts, ss, order, {b1, b2});
    MapOfTwo(Regroup(LeftoverStatements(Run(ts, ss, order))), b1, [s1], b2, [s2]);
  }

  lemma MapOfTwo<K, V>(d: map<K, V>, k1: K, v1: V, k2: K, v2: V)
    requires k1 in d && d[k1] == v1 && k2 in d && d[k2] == v2 && d.Keys <= {k1, k2}
    ensures d == map[k1 := v1, k2 := v2]
  {
  }

  lemma BanksA(order: seq<int>)
    requires Covers(order, StatementsA)
    ensures Regroup(LeftoverStatements(Run(TransactionsA, StatementsA, order)))
              == map["BCA" := [Bca300], "BRI" := [Bri400]]
  {
    SurplusA();
    TwoBanks(TransactionsA, StatementsA, order, "BCA", Bca300, "BRI", Bri400);
  }

  /** Transactions 100, 200, 250 against BCA 100, 300 and BRI 200, 400: two matches, three unmatched records
      (one transaction and two statements), five processed, sums 550 and 1000; the unmatched transaction is the
      250 one, and each bank keeps its one unmatched statement. */
  lemma ScenarioA(order: seq<int>)
    requires Covers(order, StatementsA)
    ensures var r := Run(TransactionsA, StatementsA, order);
      && r.total == Summary(550, 1000, 2, 3, 5)
      && r.unmatched == [T3]
      && Regroup(LeftoverStatements(r)) == map["BCA" := [Bca300], "BRI" := [Bri400]]
  {
    RunUnmatched(TransactionsA, StatementsA, order);
    UnpairedA();
    TotalsA(order);
    BanksA(order);
  }

  const StatementsB: seq<BankStatement> := [Bca100, Bca100]
  const TransactionsB: seq<Transaction> := [T1]

  /** One transaction against two statements of its amount: the transaction pairs, the second statement is left. */
  lemma DuplicateRules(t: Transaction, s: BankStatement)
    requires t.amount == s.amount
    ensures Unpaired([t], [s, s]) == []
    ensures Surplus([s, s], [t]) == [s]
  {
    FilterOfTwo(s, s, StatementAt(s.amount));
    FilterOfTwo(t, t, TransactionAt(t.amount));
    Snocs(t, t, t, t);
    Snocs(s, s, s, s);
    UnpairedSnoc([], t, [s, s]);
    SurplusSnoc([], s, [t]);
    assert Surplus([s], [t]) == [];
    SurplusSnoc([s], s, [t]);
  }

  /** When the surplus is the one statement `s`, the per-bank lists are `s` alone under its bank. */
  lemma OneBank(ts: seq<Transaction>, ss: seq<BankStatement>, order: seq<int>, s: BankStatement)
    requires Covers(order, ss)
    requires Surplus(ss, ts) == [s]
    ensures Regroup(LeftoverStatements(Run(ts, ss, order))) == map[s.bank := [s]]
  {
    FilterOfTwo(s, s, OfBank(s.bank));
    SingleShare(ts, ss, order, s.bank, s);
    ListedBanks(ts, ss, order, {s.bank});
    MapOfOne(Regroup(LeftoverStatements(Run(ts, ss, order))), s.bank, [s]);
  }

  lemma MapOfOne<K, V>(d: map<K, V>, k: K, v: V)
    requires k in d && d[k] == v && d.Keys <= {k}
    ensures d == map[k := v]
  {
  }

  lemma RulesB()
    ensures Unpaired(TransactionsB, StatementsB) == []
    ensures Surplus(StatementsB, TransactionsB) == [Bca100]
    ensures TransactionSum(TransactionsB) == 100 && StatementSum(StatementsB) == 200
  {
    SumsOf(T1, T1, T1, Bca100, Bca100, Bca100, Bca100);
    DuplicateRules(T1, Bca100);
  }

  lemma BanksB(order: seq<int>)
    requires Covers(order, StatementsB)
    ensures Regroup(LeftoverStatements(Run(TransactionsB, StatementsB, order))) == map["BCA" := [Bca100]]
  {
    RulesB();
    OneBank(TransactionsB, StatementsB, order, Bca100);
  }

  /** Two identical BCA statements of 100 against one transaction of 100: two processed, one matched, one
      unmatched, and BCA keeps the second statement. */
  lemma ScenarioDuplicate(order: seq<int>)
    requires Covers(order, StatementsB)
    ensures var r := Run(TransactionsB, StatementsB, order);
      && r.total == Summary(100, 200, 1, 1, 2)
      && r.unmatched == []
      && Regroup(LeftoverStatements(r)) == map["BCA" := [Bca100]]
  {
    RunSummary(TransactionsB, StatementsB, order);
    RunUnmatched(TransactionsB, StatementsB, order);
    RulesB();
    BanksB(order);
  }
}
