/** `TransactionStorage` of the recon package (recon/transaction_storage.go:42-125): reading the ledger CSV into
    transactions and writing the unmatched transactions to a sheet. The CSV reader, `strconv.ParseFloat`,
    `time.Parse(time.RFC3339, ·)` and `Time.Format(time.RFC3339)` are parameters. */
module TransactionStorage {
  import opened Wrappers
  import opened Seqs
  import opened Records
  import opened Sheets
  import opened Parsing

  /** Whether a data row yields a transaction: it has the 4 cells the loop indexes and its amount and time parse. */
  predicate RowValid(row: seq<string>, parse: Parsers) {
    |row| >= 4 && parse.amount(row[1]).Some? && parse.time(row[3]).Some?
  }

  /** One data row (recon/transaction_storage.go:101-120). Unlike the statement reader no row is skipped: the
      amount cell is read first, then the time cell, and indexing a cell the row does not have is the runtime
      panic `RowTooShort`. The `Type` cell is taken verbatim. */
  function ParseRow(row: seq<string>, parse: Parsers): (r: Result<Option<Transaction>, Error>)
    ensures r.Ok? <==> RowValid(row, parse)
    ensures r.Ok? ==>
      && r.value.Some? && r.value.value.id == row[0] && r.value.value.kind == row[2]
      && Some(r.value.value.amount) == parse.amount(row[1]) && Some(r.value.value.time) == parse.time(row[3])
    ensures r.Err? ==>
      && (r.error == InvalidAmount(row) <==> |row| >= 2 && parse.amount(row[1]).None?)
      && (r.error == InvalidTime(row) <==> |row| >= 4 && parse.amount(row[1]).Some? && parse.time(row[3]).None?)
      && (r.error == RowTooShort(row) <==> |row| < 2 || (|row| < 4 && parse.amount(row[1]).Some?))
  {
    if |row| < 2 then Err(RowTooShort(row))
    else
      var amount := parse.amount(row[1]);
      if amount.None? then Err(InvalidAmount(row))
      else if |row| < 4 then Err(RowTooShort(row))
      else
        var time := parse.time(row[3]);
        if time.None? then Err(InvalidTime(row))
        else Ok(Some(Transaction(row[0], amount.value, row[2], time.value)))
  }

  function RowParser(parse: Parsers): seq<string> -> Result<Option<Transaction>, Error> {
    (row: seq<string>) => ParseRow(row, parse)
  }

  function Window(start: int, end: int): Transaction -> bool {
    (t: Transaction) => InWindow(t.time, start, end)
  }

  /** The records-to-transactions step of `GetTransactions`: fewer than 2 records (header included) is an error,
      otherwise the header is skipped. */
  function RecordsToTransactions(records: seq<seq<string>>, parse: Parsers, start: int, end: int)
    : Result<seq<Transaction>, Error>
  {
    if |records| < 2 then Err(NoDataRows)
    else ParseEach(records[1..], RowParser(parse), Window(start, end))
  }

  /** `GetTransactions(filename, startDate, endDate)`: open and read errors are passed on unchanged. */
  function GetTransactions(read: string -> Result<seq<seq<string>>, Error>, filename: string, parse: Parsers,
                           start: int, end: int): Result<seq<Transaction>, Error>
  {
    var records := read(filename);
    if records.Err? then Err(records.error) else RecordsToTransactions(records.value, parse, start, end)
  }

  /** Reference decoding, with no window and no early exit: the transaction of every valid row, in row order. */
  function Decoded(rows: seq<seq<string>>, parse: Parsers): seq<Transaction> {
    if rows == [] then []
    else
      var row := rows[|rows| - 1];
      Decoded(rows[..|rows| - 1], parse)
        + (if RowValid(row, parse)
           then [Transaction(row[0], parse.amount(row[1]).value, row[2], parse.time(row[3]).value)]
           else [])
  }

  /** The row parser decodes exactly the reference transactions. */
  lemma {:induction false} DecodedRows(rows: seq<seq<string>>, parse: Parsers)
    ensures DecodeAll(rows, RowParser(parse)) == Decoded(rows, parse)
  {
    if rows != [] {
      DecodedRows(rows[..|rows| - 1], parse);
    }
  }

  /** When some data row is invalid, the loop fails with the error of the first invalid row `rows[k]`. */
  lemma TransactionRowsFail(rows: seq<seq<string>>, parse: Parsers, start: int, end: int) returns (k: nat)
    requires exists i | 0 <= i < |rows| :: !RowValid(rows[i], parse)
    ensures k < |rows| && !RowValid(rows[k], parse)
    ensures forall j | 0 <= j < k :: RowValid(rows[j], parse)
    ensures ParseEach(rows, RowParser(parse), Window(start, end)) == Err(ParseRow(rows[k], parse).error)
  {
    k := ParseEachFails(rows, RowParser(parse), Window(start, end));
    assert forall j | 0 <= j < k :: rows[..k][j] == rows[j];
  }

  /** When every data row is valid, the loop keeps the decoded transactions inside the window, in row order. */
  lemma TransactionRowsSucceed(rows: seq<seq<string>>, parse: Parsers, start: int, end: int)
    requires forall i | 0 <= i < |rows| :: RowValid(rows[i], parse)
    ensures var r := ParseEach(rows, RowParser(parse), Window(start, end));
      && r == Ok(Filter(Decoded(rows, parse), Window(start, end)))
      && forall i | 0 <= i < |r.value| :: InWindow(r.value[i].time, start, end)
  {
    assert AllParse(rows, RowParser(parse));
    ParseEachSucceeds(rows, RowParser(parse), Window(start, end));
    DecodedRows(rows, parse);
  }

  /** The read as a whole. Reader errors pass through unchanged; fewer than 2 records is `NoDataRows`; an invalid
      data row yields the error of the first such row `rows[k]` and no transactions; otherwise the result is the
      transaction of every data row inside the window, in row order. */
  lemma GetTransactionsOutcome(read: string -> Result<seq<seq<string>>, Error>, filename: string, parse: Parsers,
                               start: int, end: int) returns (k: nat)
    ensures var r := GetTransactions(read, filename, parse, start, end);
      && (read(filename).Err? ==> r == Err(read(filename).error))
      && (read(filename).Ok? && |read(filename).value| < 2 ==> r == Err(NoDataRows))
      && (read(filename).Ok? && |read(filename).value| >= 2 ==>
            var rows := read(filename).value[1..];
            && (r.Err? <==> exists i | 0 <= i < |rows| :: !RowValid(rows[i], parse))
            && (r.Err? ==> k < |rows| && !RowValid(rows[k], parse)
                           && (forall j | 0 <= j < k :: RowValid(rows[j], parse))
                           && r.error == ParseRow(rows[k], parse).error)
            && (r.Ok? ==> r.value == Filter(Decoded(rows, parse), Window(start, end))))
      && (r.Ok? ==> forall i | 0 <= i < |r.value| :: InWindow(r.value[i].time, start, end))
  {
    k := 0;
    if read(filename).Ok? && |read(filename).value| >= 2 {
      var rows := read(filename).value[1..];
      if exists i | 0 <= i < |rows| :: !RowValid(rows[i], parse) {
        k := TransactionRowsFail(rows, parse, start, end);
      } else {
        TransactionRowsSucceed(rows, parse, start, end);
      }
    }
  }

  // ---------------------------------------------------------------------------------------------------------
  // Storing (recon/transaction_storage.go:42-79)

  const TransactionHeaders: seq<string> := ["Id", "Amount", "Type", "Time"]

  /** One transaction row: ID, amount, type, formatted time. */
  function TransactionCells(t: Transaction, format: int -> string): seq<Cell> {
    [Text(t.id), Number(t.amount), Text(t.kind), Text(format(t.time))]
  }

  /** The rows written: headers, then transaction `i` in row `i + 2`. */
  function TransactionGrid(ts: seq<Transaction>, format: int -> string): seq<seq<Cell>> {
    Table(HeaderCells(TransactionHeaders), ts, (t: Transaction) => TransactionCells(t, format))
  }

  /** `StoreTransactions(transactions)`: a `NewSheet` error is ignored. */
  function StoreTransactions(w: Writer, destination: string, sheet: string, ts: seq<Transaction>,
                             format: int -> string): Written
  {
    WriteSheet(w, destination, sheet, false, TransactionGrid(ts, format))
  }

  /** Reads a written transaction row back: four cells of the written kinds and a time that parses. */
  function DecodeTransaction(cells: seq<Cell>, parseTime: string -> Option<int>): Option<Transaction> {
    if |cells| == 4 && cells[0].Text? && cells[1].Number? && cells[2].Text? && cells[3].Text?
       && parseTime(cells[3].text).Some?
    then Some(Transaction(cells[0].text, cells[1].number, cells[2].text, parseTime(cells[3].text).value))
    else None
  }

  /** The transactions held in rows 2 .. n + 1 of a sheet. */
  function ReadBackTransactions(ops: seq<Op>, sheet: string, n: nat, parseTime: string -> Option<int>)
    : Option<seq<Transaction>>
  {
    var rows := ReadRows(ops, sheet, 2, n, 4);
    if rows.None? then None else DecodeEach(rows.value, (c: seq<Cell>) => DecodeTransaction(c, parseTime))
  }

  /** Once the store reaches `SaveAs`, it has written the four headers to row 1 and transaction `i` to row
      `i + 2`, read back exactly when the time format parses back, and no cell beyond column 4 or row
      |transactions| + 1. The error is the factory's, `GetSheetIndex`'s or `SaveAs`'s: a failing `NewSheet` does
      not stop the store. */
  lemma StoreTransactionsOutcome(w: Writer, destination: string, sheet: string, ts: seq<Transaction>,
                                 format: int -> string, parseTime: string -> Option<int>)
    requires forall i | 0 <= i < |ts| :: parseTime(format(ts[i].time)) == Some(ts[i].time)
    ensures var x := StoreTransactions(w, destination, sheet, ts, format);
      var index := w.sheetIndex(sheet);
      && (NewSheet(sheet) in x.ops <==> w.open(destination).None? && index == Ok(-1))
      && x.err == (if w.open(destination).Some? then w.open(destination)
                   else if index.Err? then Some(index.error)
                   else w.save(destination))
      && (SaveAs(destination) in x.ops <==> w.open(destination).None? && index.Ok?)
      && (SaveAs(destination) in x.ops ==>
            && ReadRow(x.ops, sheet, 1, 4) == Some(HeaderCells(TransactionHeaders))
            && ReadBackTransactions(x.ops, sheet, |ts|, parseTime) == Some(ts)
            && (forall col, row | col > 4 || row > |ts| + 1 :: CellAt(x.ops, sheet, col, row) == None))
  {
    var encode := (t: Transaction) => TransactionCells(t, format);
    var x := StoreTransactions(w, destination, sheet, ts, format);
    WriteSheetOutcome(w, destination, sheet, false, TransactionGrid(ts, format));
    if SaveAs(destination) in x.ops {
      TableReadBack(x.ops, sheet, HeaderCells(TransactionHeaders), ts, encode,
                    (c: seq<Cell>) => DecodeTransaction(c, parseTime));
    }
  }
}
