# recon — a Dafny model of the reconciliation core

recon reconciles a ledger of internal transactions against the statements of one or more banks. It reads the
transactions file and every bank statement file. It drops records outside a date window. It then pairs each
transaction with a not-yet-used statement of the same amount, first come first served. Finally it reports the
unmatched transactions, the unmatched statements grouped by bank, and a summary of counts and sums.

The model covers three versions of that pipeline:

- the `recon` package: `ReconExecutor.Execute` over injected storage ports, the CSV readers and the spreadsheet
  stores of `BankStatementStorage`, `TransactionStorage` and `SummaryStorage`;
- the root package's `ReconExecutor.Execute`, which logs read errors, ignores write errors and gives each bank
  list an "appear multiple" flag;
- the original `main` program, which has no window, no counters and no summary.

How the Go code maps onto the model:

- Every Go loop is a recursive function that follows the loop.
- The Go runtime's map iteration order becomes an explicit parameter (`Seqs.Shuffle` picks any permutation). Every
  theorem holds for every such order.
- The matching engine (`Engine.Run`) is compared with two queue-free reference rules:
  - `Matching.Unpaired`: a transaction stays unmatched exactly when the earlier transactions of its amount have
    used up every statement of that amount.
  - `Discrepancies.Surplus`: a statement is left over exactly when the earlier statements of its amount have
    absorbed every transaction of that amount.
- Spreadsheet writers are scripted by their answers (`Sheets.Writer`). A store is the trace of writer operations
  it performs, and cells are read back from that trace.

Module layout, following the source:

| module | models |
|---|---|
| `AmountGroups` | `BankStatementGroup`, the per-amount FIFO queue with its sticky flag |
| `Buckets`, `Loading` | the amount-keyed store and the file loop |
| `Matching`, `Discrepancies`, `Engine` | the matching pass, the drain into per-bank lists, and the counters |
| `Paths`, `Parsing` | `filepath.Base`/`Ext`, `strings.TrimSuffix`/`Split`, and the shared row loop |
| `StatementStorage`, `TransactionStorage`, `SummaryStorage`, `Sheets` | the storage layer |
| `Executor`, `RootExecutor`, `MainProgram` | the three drivers |
| `Scenarios` | two runs from the executor's tests, proved for every map order |

## Model

| member | source | states |
|---|---|---|
| AmountGroups.Add | recon/bank_statement_storage.go:25-33 | appends the statement at the tail, keeps the earlier queue, and raises the flag exactly when the queue was already non-empty or the flag was up |
| AmountGroups.Shift | recon/bank_statement_storage.go:35-37 | drops exactly the head of a non-empty queue and leaves the flag alone |
| AmountGroups.AddAllAppends | recon/bank_statement_storage.go:25-33 | adding a sequence appends it; the flag ends up raised iff it was up, or something was added and the group then held two or more |
| AmountGroups.FlagCountsInsertions | recon/bank_statement_storage.go:25-41 | after n insertions into a fresh group the queue is the inserted statements and the flag is up iff n >= 2 |
| AmountGroups.ShiftNDropsPrefix | recon/bank_statement_storage.go:35-37 | shifting k times removes exactly the first k statements and never changes the flag |
| AmountGroups.FifoAndSticky | recon/bank_statement_storage.go:20-41 | insert then consume k: the queue is the inserted statements from k on (FIFO); the flag still records that two or more were inserted |
| Buckets.Insert | recon/recon_executor.go:47-53 | creates the bucket on first use, appends the statement to its own amount's queue, updates the flag, and leaves every other bucket unchanged |
| Buckets.Load | recon/recon_executor.go:47-53 | the inner load loop: each statement is inserted in order; specified by LoadQueues, LoadFromEmpty and LoadConcat |
| Buckets.LoadQueues | recon/recon_executor.go:41-54 | after loading, each amount's queue is its old queue followed by the loaded statements of that amount in load order; existence and flag follow the counts |
| Buckets.LoadFromEmpty | recon/recon_executor.go:40-54 | from an empty store, the queue of amount a is exactly the statements of amount a in order; the bucket exists iff one has amount a; the flag is up iff two or more do |
| Buckets.LoadConcat | recon/recon_executor.go:41-54 | loading file by file equals loading the concatenation of the files in path order |
| Matching.Step | recon/recon_executor.go:57-66 | one call of the `lo.Filter` callback: add the amount to the transaction sum, then shift the amount's queue and count a match when it is non-empty, else count and keep the transaction; specified through Pass |
| Matching.Pass | recon/recon_executor.go:56-67 | the callback over the transactions in input order; specified by PassBuckets, PassTotals, PassKeepsUnpaired, UnpairedCount and UnpairedIsSubsequence |
| Matching.PassBuckets | recon/recon_executor.go:56-67 | the pass keeps bucket keys and flags, and removes from each queue's head min(#transactions of that amount, queue length) statements |
| Matching.PassTotals | recon/recon_executor.go:56-67 | the transaction sum grows by every amount regardless of outcome; unmatched grows by the number kept and matched by the rest; the statement sum and processed count are untouched |
| Matching.PassKeepsUnpaired | recon/recon_executor.go:56-67 | when every queue holds its amount's statements, the kept transactions are exactly the reference unpaired ones, in input order |
| Matching.UnpairedCount | recon/recon_executor.go:56-67 | per amount, the unpaired transactions number #transactions minus min(#transactions, #statements) |
| Matching.UnpairedIsSubsequence | recon/recon_executor.go:56-67 | the unmatched transactions are an order-preserving subsequence of the input |
| Discrepancies.Drain | recon/recon_executor.go:70-80 | the range over the buckets in the runtime's order, skipping empty queues and emitting each queue in FIFO order with its bucket's flag; specified by DrainAt and DrainFlags |
| Discrepancies.DrainAt | recon/recon_executor.go:69-81 | draining the buckets in any order that visits every bucket yields, for each amount, exactly that bucket's queue in FIFO order |
| Discrepancies.DrainFlags | recon_executor.go:71-84 | every drained statement comes from an existing bucket and carries that bucket's flag |
| Discrepancies.SurplusAt | recon/recon_executor.go:69-81 | per amount, the reference leftovers are the statements of that amount beyond the first min(#transactions, #statements) |
| Discrepancies.Regroup | recon/recon_executor.go:72-76 | appends each leftover to its bank's list, creating the list on first use; specified by RegroupByBank and BanksCovered |
| Discrepancies.RegroupByBank | recon/recon_executor.go:72-76 | a bank gets a list iff some leftover belongs to it; the list is exactly that bank's leftovers in drain order |
| Discrepancies.BanksCovered | recon/recon_executor.go:93-98 | the per-bank loop's order, whatever the runtime picks, names every bank that has a list |
| Discrepancies.RegroupFlagged | recon_executor.go:74-79 | as Regroup, and each append overwrites the bank's flag with the flag of the statement's bucket; specified by RegroupFlaggedStatements, RegroupFlaggedLastWriter and RegroupFlaggedUniform |
| Discrepancies.RegroupFlaggedStatements | recon_executor.go:71-84 | the root variant's per-bank lists hold the same statements as the recon package's |
| Discrepancies.RegroupFlaggedLastWriter | recon_executor.go:74-79 | a bank's flag is the flag of the last leftover of that bank in drain order |
| Discrepancies.RegroupFlaggedUniform | recon_executor.go:74-79 | when all of a bank's leftovers come from buckets with the same flag, the bank's flag is that value, whatever the drain order |
| Engine.Reconcile | recon/recon_executor.go:56-81 | the matching pass, then the drain and regroup, each drained statement adding one to processed and to unmatched; specified through Run |
| Engine.Run | recon/recon_executor.go:38-81 | the engine on the transactions and the statements of all files in load order; specified by RunUnmatched, RunQueues, RunLeftoversAt, RunLeftovers, RunTotals, RunSummary, RunMatchesAt, RunFlags, RunDiscrepancies and RunBankFlags |
| Engine.RunUnmatched | recon/recon_executor.go:56-67 | the engine's unmatched transactions are exactly the reference unpaired ones, as an order-preserving subsequence of the input |
| Engine.RunQueues | recon/recon_executor.go:40-67 | after the pass, the queue of each amount holds that amount's statements beyond the first min(#transactions, #statements); existence and flag follow the counts |
| Engine.RunLeftoversAt | recon/recon_executor.go:69-81 | per amount, the drained leftovers equal the reference leftovers in FIFO order, for every bucket order |
| Engine.RunLeftovers | recon/recon_executor.go:69-81 | the leftovers are the reference leftovers as a multiset, whatever the bucket order |
| Engine.RunTotals | recon/recon_executor.go:38-81 | processed = #transactions + #leftovers; matched + #unpaired = #transactions; unmatched = #unpaired + #leftovers; both sums cover every record |
| Engine.RunSummary | recon/recon_executor.go:38-81 | the summary equals the reference summary computed from the two reference rules, independent of map order |
| Engine.RunMatchesAt | recon/recon_executor.go:56-81 | per amount, matches = min(#transactions, #statements), and never both an unmatched transaction and a leftover statement of one amount |
| Engine.RunFlags | recon/recon_executor.go:47-53 | a leftover's flag is up iff its amount was loaded two or more times across all files and banks |
| Engine.RunDiscrepancies | recon/recon_executor.go:69-81 | a bank has a list iff it has a reference leftover; the list is that bank's leftovers as a multiset, all of that bank, FIFO within one amount |
| Engine.RunBankFlags | recon_executor.go:71-84 | a bank whose leftovers all have amounts loaded twice or more gets true, and one whose leftovers were all loaded once gets false, whatever the order |
| Loading.LoadFiles | recon/recon_executor.go:41-54 | the file loop over the paths in order; specified by LoadFilesSucceeds, LoadFilesFailLast and LoadFilesFails |
| Loading.LoadNext | recon/recon_executor.go:42-53 | one iteration: read the path, return on its error, else insert and sum its statements; specified through LoadFiles |
| Loading.LoadFilesSucceeds | recon/recon_executor.go:41-54 | when every file reads, every path is read once in order, and the store and the statement sum are those of all statements in path then row order |
| Loading.LoadFilesFailLast | recon/recon_executor.go:42-45 | a failure at the last path, after every earlier path read, ends the loop there with that error |
| Loading.LoadFilesFails | recon/recon_executor.go:41-46 | when some file fails, the loop stops right after the first failing path, having read exactly the paths up to it, and returns its error |
| Paths.Ext | recon/bank_statement_storage.go:75 | the extension is a suffix of the path: empty, or a '.' followed by no further '.' and no separator |
| Paths.TrimSuffix | recon/bank_statement_storage.go:75 | the suffix is removed exactly when the string ends with it; otherwise the string is unchanged |
| Paths.ExtOf | recon/bank_statement_storage.go:75 | the extension of stem + ext is ext for any extension ext |
| Paths.Base | recon/bank_statement_storage.go:74 | Unix `filepath.Base`; specified by BaseOf |
| Paths.BaseOf | recon/bank_statement_storage.go:74 | the base name of dir + name is name for a non-empty name without separators |
| Paths.BankName | recon/bank_statement_storage.go:74-75 | the base name without its last extension; specified by BankNameOf |
| Paths.BankNameOf | recon/bank_statement_storage.go:74-75 | a statement file dir/stem.ext belongs to bank stem, even when the stem contains dots |
| Paths.Split | recon_executor.go:40 | splitting on commas always yields at least one piece |
| Paths.SplitPieces | recon_executor.go:40 | no piece of a split holds a comma |
| Paths.JoinSplit | recon_executor.go:40 | joining the pieces with commas gives back the original path string |
| Paths.Join | recon_executor.go:40 | `strings.Join(parts, ",")`, the inverse of the split at this line; the partner of Split in JoinSplit and SplitJoin |
| Paths.SplitJoin | recon_executor.go:40 | splitting a comma-join of a non-empty list of comma-free paths gives back the list |
| Parsing.ParseEach | recon/bank_statement_storage.go:77-105 | the shared row loop: skip, fail on the first error, or keep the records inside the window; specified by ParseEachSucceeds and ParseEachFails |
| Parsing.ParseEachSucceeds | recon/bank_statement_storage.go:77-105 | when every row parses, the loop returns the decoded records the window keeps, in row order: filtering while parsing is filtering after |
| Parsing.ParseEachFails | recon/transaction_storage.go:98-124 | when some row fails, the loop returns the error of the first failing row and nothing else |
| StatementStorage.ParseRow | recon/bank_statement_storage.go:79-102 | rows under 3 cells are skipped; an error iff the amount or the time does not parse (amount checked first); otherwise the statement with the file's bank, the ID and the parsed fields |
| StatementStorage.GetBankStatements | recon/bank_statement_storage.go:58-106 | the statement read; specified by GetBankStatementsOutcome |
| StatementStorage.GetBankStatementsOutcome | recon/bank_statement_storage.go:58-106 | reader errors pass through; under 2 records is the no-data error; a bad row yields the first bad row's error; otherwise every decoded row in the window, stamped with the file's bank |
| StatementStorage.StoreBankStatements | recon/bank_statement_storage.go:108-153 | the statement store; specified by StoreBankStatementsOutcome |
| StatementStorage.StoreBankStatementsOutcome | recon/bank_statement_storage.go:108-153 | errors in the code's order, with NewSheet's kept; once saved, this store has written the five headers and each statement with the list's flag to row i + 2, reading back as written, and no cell outside that block |
| TransactionStorage.ParseRow | recon/transaction_storage.go:100-120 | a transaction iff the row has 4 cells and amount and time parse; otherwise exactly one of invalid amount, invalid time or too short (the Go index panic), in the code's order; the type copied verbatim |
| TransactionStorage.GetTransactions | recon/transaction_storage.go:81-125 | the transaction read; specified by GetTransactionsOutcome |
| TransactionStorage.GetTransactionsOutcome | recon/transaction_storage.go:81-125 | read errors pass through; under 2 records is the no-data error; an invalid row yields the first invalid row's error; otherwise every row in the window, in row order |
| TransactionStorage.StoreTransactions | recon/transaction_storage.go:42-79 | the transaction store; specified by StoreTransactionsOutcome |
| TransactionStorage.StoreTransactionsOutcome | recon/transaction_storage.go:42-79 | a NewSheet error is dropped; once saved, this store has written the four headers and transaction i to row i + 2, reading back as written, and no cell outside that block |
| SummaryStorage.StoreSummary | recon/summary_storage.go:41-74 | the summary store; specified by StoreSummaryOutcome |
| SummaryStorage.StoreSummaryOutcome | recon/summary_storage.go:41-74 | once saved, the six labelled rows read back as the summary stored, row 6 holds transaction sum minus statement sum, this store writes no cell outside the block; errors in the code's order |
| Sheets.Prepare | recon/bank_statement_storage.go:109-124 | open the workbook, look up the sheet and create it when the index is -1, keeping or dropping the NewSheet error as the caller does; specified through WriteSheetOutcome |
| Sheets.WriteSheet | recon/bank_statement_storage.go:108-153 | prepare the sheet, write the rows cell by cell, save; specified by WriteSheetOutcome and TableReadBack |
| Sheets.WriteSheetOutcome | recon/bank_statement_storage.go:108-153 | the store's error is the factory's, else GetSheetIndex's, else (when kept) NewSheet's, else SaveAs's; NewSheet iff the index is -1; once saved the store has written exactly the rows to the sheet and nothing to any other sheet |
| Sheets.TableReadBack | recon/transaction_storage.go:57-76 | a header row and one encoded row per record read back as the header and, through a decoder inverse to the encoder, as the records; the writes set no cell outside the table |
| Executor.Execute | recon/recon_executor.go:32-101 | the recon package's Execute; specified by ExecuteLoaded, ExecuteStaged, ExecuteReadFailure, ExecuteStoresSummary, ExecuteStoresTransactions and ExecuteStoresBanks |
| Executor.Store | recon/recon_executor.go:83-100 | the three store steps, each returning wrapped on its port's error; specified by StoreSteps |
| Executor.StoreBanks | recon/recon_executor.go:93-98 | the per-bank store loop in the runtime's order; specified by StoreBanksCalls, StoreBanksOutcome and StoreBanksComplete |
| Executor.StoreBanksCalls | recon/recon_executor.go:93-98 | the per-bank loop only appends calls, each storing the list of its own bank, no bank twice |
| Executor.StoreBanksOutcome | recon/recon_executor.go:93-100 | the loop returns nil iff every store it makes succeeds; on an error the failing store is the last call and its error is returned wrapped |
| Executor.StoreBanksComplete | recon/recon_executor.go:93-100 | without an error, every bank with a list that the runtime order names has been stored |
| Executor.StoreSteps | recon/recon_executor.go:83-91 | the summary store comes first and ends the run on its error, then the transaction store does the same |
| Executor.ExecuteLoaded | recon/recon_executor.go:32-101 | once every read succeeds, Execute stores the engine's result on the transactions and the statements of all files in path order |
| Executor.ExecuteStaged | recon/recon_executor.go:32-101 | calls come in stage order: the transaction read, statement reads with the same window, at most one summary store, at most one transaction store, then per-bank stores |
| Executor.ExecuteReadFailure | recon/recon_executor.go:33-46 | a failed read is returned wrapped with its context before anything is stored, after exactly the reads up to the failing one |
| Executor.ExecuteStoresSummary | recon/recon_executor.go:83-86 | after all reads, one summary store of the reference summary; its error ends the run wrapped |
| Executor.ExecuteStoresTransactions | recon/recon_executor.go:88-91 | after the summary store, one store of exactly the reference unpaired transactions; its error ends the run wrapped |
| Executor.ExecuteStoresBanks | recon/recon_executor.go:93-100 | each remaining call stores one bank's share of the reference leftovers, no bank twice; nil only after every bank with a leftover was stored; else the first failing store, wrapped |
| RootExecutor.Execute | recon_executor.go:30-92 | the root package's Execute; specified by ExecuteLoaded, ExecuteJoined, ExecuteReadFailure, WritesOfRun and ExecuteWrites |
| RootExecutor.ExecuteLoaded | recon_executor.go:30-92 | once every read succeeds, nothing is logged, each piece of the path string is read in order, and the writes are those of the engine on all statements |
| RootExecutor.ExecuteJoined | recon_executor.go:39-55 | a path string joined from comma-free paths is read path by path, in that order |
| RootExecutor.ExecuteReadFailure | recon_executor.go:31-46 | a failed read is logged unwrapped and nothing is written; the files are read up to and including the first failing one |
| RootExecutor.WritesOfRun | recon_executor.go:71-91 | after a run: the reference summary, the reference unpaired transactions, then one write per bank with a leftover, no bank twice, with its share and a fitting flag |
| RootExecutor.ExecuteWrites | recon_executor.go:30-92 | with every read successful, the reads follow the path string, nothing is logged, and the writes are the reference summary, the unpaired transactions and one flagged list per bank |
| MainProgram.Main | main.go:61-117 | the original program after flag parsing; specified by MainLoaded, MainReadFailure, WritesOfRun and MainWrites |
| MainProgram.MainLoaded | main.go:61-117 | once every read succeeds, nothing is printed, each piece of the path string is read in order, and the writes are those of the engine on all statements |
| MainProgram.MainReadFailure | main.go:68-89 | a failed read is printed and nothing is written; the files are read up to and including the first failing one |
| MainProgram.WritesOfRun | main.go:102-117 | after a run: the reference unpaired transactions, then one write per bank with a leftover, no bank twice, each with that bank's share |
| MainProgram.MainWrites | main.go:61-117 | with every read successful, the reads follow the path string, nothing is printed, and the writes are the unpaired transactions and one list per bank |
| Scenarios.ScenarioA | recon/recon_executor_test.go:45-75 | transactions 100, 200, 250 against BCA 100, 300 and BRI 200, 400 give the summary (550, 1000, 2, 3, 5), unmatched [250], and lists BCA [300] and BRI [400], for every map order |
| Scenarios.ScenarioDuplicate | recon/recon_executor_test.go:181-203 | two BCA statements of 100 against one transaction of 100 give the summary (100, 200, 1, 1, 2), no unmatched transaction, and BCA [100], for every map order |

## Left out

- Amounts are integers (for example minor units) and times are integers on one clock. Go's `float64` amounts, and
  map keys that compare floats, are not modelled.
- `strconv.ParseFloat`, `time.Parse(time.RFC3339, ·)` and `Time.Format` are parameters. The round trip
  format-then-parse is a precondition of the read-back lemmas, not a proved fact.
- The CSV and spreadsheet libraries are left out. These are `encoding/csv`, the reader factory of
  recon/adaptor.go and recon/excel_wrapper.go, and excelize. The readers' answers are parameters.
  `excelize.CoordinatesToCellName` is replaced by (column, row) pairs.
- The existing content of the destination workbook is not modelled. `ExcelFactory.New` opens the existing file
  (recon/adaptor.go:16-22), and a store only overwrites the cells it writes. Cells read back are those of the
  store's own writes, so the model does not show that stale rows of an earlier, longer run persist below the new
  block.
- `SetCellValue` errors are not modelled, because every caller ignores them.
- `Close` is not modelled.
- `filepath.Base` and `filepath.Ext` follow the Unix implementation: '/' is the only separator and there are no
  volume names.
- Logging, printing and flag parsing are left out. The logged or printed error is recorded in the outcome.
- main.go's CSV readers and Excel writers (main.go:128 onwards, including the fallback time layout) are parameters
  or recorded requests.
- The root package's repositories (excel.go, transaction_repo.go, summary_repo.go) are modelled the same way.
- The write errors the root `Execute` and `main` ignore (recon_executor.go:86-91, main.go:114-117) are not modelled
  as outcomes, since nothing reads them.
- TransactionStorage.ParseRow: a row too short for the cells the Go loop indexes panics at run time. The model
  returns the error `RowTooShort` instead.
- AmountGroups.Shift: requires a non-empty queue, because Go panics on an empty one. Every caller shifts only
  after checking the queue is non-empty.
- Engine.RunBankFlags: says nothing about a bank whose leftovers mix flagged and unflagged amounts. There the
  root variant's flag depends on the runtime's map order; Discrepancies.RegroupFlaggedLastWriter states which
  leftover decides.
- Where the code and its documentation or tests disagree, the model follows the code:
  - The date window keeps times from the start up to and including end + 24h (`!t.Before(start) &&
    !t.After(end + 24h)`), so both ends are inclusive.
  - The transaction `Type` cell is copied verbatim, with no check against Credit/Debit.
  - The statement store returns a `NewSheet` error; the transaction and summary stores drop it.
  - `StoreBankStatements` is declared with `(statements, appearMultiple, bankName)`, but the executor and the
    tests call it as `(statements, bank)`. The executor's port takes the latter. The storage model takes the flag
    and writes the five headers the code writes; the tests expect four.
  - The root `Execute` calls `WriteSummary` with three arguments, while summary_repo.go declares one. The write
    is recorded with the summary only.
  - main.go (main.go:120-126) and the root recon_executor.go (recon_executor.go:11-22) both declare
    `bankStatementDisrepancyGroup` in package `main`, with different fields. Each is modelled as its own program.
