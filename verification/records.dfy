/** The record types the reconciler moves around (recon/transaction_storage.go, recon/bank_statement_storage.go,
    recon/summary_storage.go). Amounts are integers in minor currency units and instants are integers in
    nanoseconds, so sums and equality are exact where the Go code uses `float64` and `time.Time`. */
module Records {
  import opened Seqs

  /** One ledger entry. `kind` is the raw text of the `Type` column; the code never checks it against
      "debit" or "credit". */
  datatype Transaction = Transaction(id: string, amount: int, kind: string, time: int)

  /** One bank-statement line; `bank` is stamped from the statement file's name. */
  datatype BankStatement = BankStatement(bank: string, id: string, amount: int, time: int)

  /** The aggregate counters and sums of one run. */
  datatype Summary = Summary(
    totalAmountTransactions: int,
    totalAmountBankStatements: int,
    totalMatched: int,
    totalUnmatched: int,
    totalProcessed: int)

  /** Twenty-four hours in nanoseconds, the slack both readers add to the end date. */
  const Day: int := 24 * 60 * 60 * 1_000_000_000

  /** The date window of both readers: a record is kept unless its time is before `start` or after `end` plus a
      day, so both `start` and `end + Day` are inside. */
  predicate InWindow(t: int, start: int, end: int) {
    !(t < start) && !(t > end + Day)
  }

  const Debit: string := "debit"
  const Credit: string := "credit"

  /** Errors. `Failed` is an error value produced by an injected dependency (reader, writer, storage port)
      and passed on unchanged; `Wrapped` is `fmt.Errorf("<context>: %w", cause)`. `RowTooShort` stands for
      the Go runtime panic of indexing past the end of a short transaction row. */
  datatype Error =
    | Failed(reason: string)
    | NoDataRows
    | NoDataRowsIn(file: string)
    | InvalidAmount(row: seq<string>)
    | InvalidTime(row: seq<string>)
    | RowTooShort(row: seq<string>)
    | Wrapped(context: string, cause: Error)

  /** Selectors used to filter records by amount and by bank. */
  function TransactionAt(a: int): Transaction -> bool {
    (t: Transaction) => t.amount == a
  }

  function StatementAt(a: int): BankStatement -> bool {
    (s: BankStatement) => s.amount == a
  }

  function OfBank(b: string): BankStatement -> bool {
    (s: BankStatement) => s.bank == b
  }

  /** Number of transactions of amount `a`. */
  function TransactionCount(ts: seq<Transaction>, a: int): nat {
    |Filter(ts, TransactionAt(a))|
  }

  /** Number of statements of amount `a`. */
  function StatementCount(ss: seq<BankStatement>, a: int): nat {
    |Filter(ss, StatementAt(a))|
  }

  function TransactionSum(ts: seq<Transaction>): int {
    if ts == [] then 0 else TransactionSum(ts[..|ts| - 1]) + ts[|ts| - 1].amount
  }

  function StatementSum(ss: seq<BankStatement>): int {
    if ss == [] then 0 else StatementSum(ss[..|ss| - 1]) + ss[|ss| - 1].amount
  }

  lemma {:induction false} StatementSumConcat(xs: seq<BankStatement>, ys: seq<BankStatement>)
    ensures StatementSum(xs + ys) == StatementSum(xs) + StatementSum(ys)
    decreases |ys|
  {
    if ys == [] {
      assert xs + ys == xs;
    } else {
      var init := ys[..|ys| - 1];
      assert (xs + ys)[..|xs + ys| - 1] == xs + init;
      StatementSumConcat(xs, init);
    }
  }

  /** The amounts of a statement list, in order. */
  function AmountsOf(ss: seq<BankStatement>): (r: seq<int>)
    ensures |r| == |ss|
    ensures forall i | 0 <= i < |ss| :: r[i] == ss[i].amount
  {
    if ss == [] then [] else AmountsOf(ss[..|ss| - 1]) + [ss[|ss| - 1].amount]
  }

  /** The banks of a statement list, in order. */
  function BanksOf(ss: seq<BankStatement>): (r: seq<string>)
    ensures |r| == |ss|
    ensures forall i | 0 <= i < |ss| :: r[i] == ss[i].bank
  {
    if ss == [] then [] else BanksOf(ss[..|ss| - 1]) + [ss[|ss| - 1].bank]
  }
}
