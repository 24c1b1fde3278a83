/** `BankStatementStorage` of the recon package (recon/bank_statement_storage.go:58-153): turning the raw records
    of a statement file into statements, and writing one bank's discrepancy list to its own sheet. The reader
    (`ReaderFactory.NewReader` then `ReadAll`) is a parameter returning the records or an error, and
    `strconv.ParseFloat`, `time.Parse(time.RFC3339, ·)` and `Time.Format(time.RFC3339)` are parameters too. */
module StatementStorage {
  import opened Wrappers
  import opened Seqs
  import opened Records
  import opened Paths
  import opened Sheets
  import opened Parsing

  /** Whether a data row makes the read fail: it is long enough to be looked at (3 cells) and its amount or its
      time does not parse. */
  predicate RowFails(row: seq<string>, parse: Parsers) {
    |row| >= 3 && (parse.amount(row[1]).None? || parse.time(row[2]).None?)
  }

  /** The error a failing row causes: the amount is checked first. */
  function RowError(row: seq<string>, parse: Parsers): Error {
    if |row| >= 3 && parse.amount(row[1]).None? then InvalidAmount(row) else InvalidTime(row)
  }

  /** One data row (recon/bank_statement_storage.go:79-91): skipped when shorter than 3 cells, otherwise the
      statement stamped with `bank`, or the row's error. */
  function ParseRow(bank: string, row: seq<string>, parse: Parsers): (r: Result<Option<BankStatement>, Error>)
    ensures r.Err? <==> RowFails(row, parse)
    ensures r.Err? ==> r.error == RowError(row, parse)
    ensures r.Ok? ==> (r.value.Some? <==> |row| >= 3)
    ensures r.Ok? && r.value.Some? ==>
      r.value.value.bank == bank && r.value.value.id == row[0]
      && Some(r.value.value.amount) == parse.amount(row[1]) && Some(r.value.value.time) == parse.time(row[2])
  {
    if |row| < 3 then Ok(None)
    else
      var amount := parse.amount(row[1]);
      if amount.None? then Err(InvalidAmount(row))
      else
        var time := parse.time(row[2]);
        if time.None? then Err(InvalidTime(row))
        else Ok(Some(BankStatement(bank, row[0], amount.value, time.value)))
  }

  function RowParser(bank: string, parse: Parsers): seq<string> -> Result<Option<BankStatement>, Error> {
    (row: seq<string>) => ParseRow(bank, row, parse)
  }

  function Window(start: int, end: int): BankStatement -> bool {
    (s: BankStatement) => InWindow(s.time, start, end)
  }

  /** The records-to-statements step of `GetBankStatements`: fewer than 2 records (header included) is an error,
      the header is skipped, and every statement is stamped with the file's bank name. */
  function RecordsToStatements(filename: string, records: seq<seq<string>>, parse: Parsers, start: int, end: int)
    : Result<seq<BankStatement>, Error>
  {
    if |records| < 2 then Err(NoDataRowsIn(filename))
    else ParseEach(records[1..], RowParser(BankName(filename), parse), Window(start, end))
  }

  /** `GetBankStatements(filename, startDate, endDate)`: reader errors are passed on unchanged. */
  function GetBankStatements(read: string -> Result<seq<seq<string>>, Error>, filename: string, parse: Parsers,
                             start: int, end: int): Result<seq<BankStatement>, Error>
  {
    var records := read(filename);
    if records.Err? then Err(records.error) else RecordsToStatements(filename, records.value, parse, start, end)
  }

  /** Reference decoding, with no window and no early exit: the statement of every row of at least 3 cells whose
      amount and time parse, in row order. */
  function Decoded(bank: string, rows: seq<seq<string>>, parse: Parsers): seq<BankStatement> {
    if rows == [] then []
    else
      var row := rows[|rows| - 1];
      Decoded(bank, rows[..|rows| - 1], parse)
        + (if |row| >= 3 && parse.amount(row[1]).Some? && parse.time(row[2]).Some?
           then [BankStatement(bank, row[0], parse.amount(row[1]).value, parse.time(row[2]).value)]
           else [])
  }

  /** The row parser decodes exactly the reference statements, each carrying the bank it was decoded for. */
  lemma {:induction false} DecodedRows(bank: string, rows: seq<seq<string>>, parse: Parsers)
    ensures DecodeAll(rows, RowParser(bank, parse)) == Decoded(bank, rows, parse)
    ensures forall i | 0 <= i < |Decoded(bank, rows, parse)| :: Decoded(bank, rows, parse)[i].bank == bank
  {
    if rows != [] {
      DecodedRows(bank, rows[..|rows| - 1], parse);
      var d := Decoded(bank, rows[..|rows| - 1], parse);
      assert forall i | 0 <= i < |d| :: Decoded(bank, rows, parse)[i] == d[i];
    }
  }

  /** No row fails exactly when the row parser accepts every row. */
  lemma AllParseRows(bank: string, rows: seq<seq<string>>, parse: Parsers)
    ensures AllParse(rows, RowParser(bank, parse)) <==> forall i | 0 <= i < |rows| :: !RowFails(rows[i], parse)
  {
  }

  /** When some data row fails, the loop fails with the error of the first failing row `rows[k]`. */
  lemma StatementRowsFail(bank: string, rows: seq<seq<string>>, parse: Parsers, start: int, end: int) returns (k: nat)
    requires exists i | 0 <= i < |rows| :: RowFails(rows[i], parse)
    ensures k < |rows| && RowFails(rows[k], parse)
    ensures forall j | 0 <= j < k :: !RowFails(rows[j], parse)
    ensures ParseEach(rows, RowParser(bank, parse), Window(start, end)) == Err(RowError(rows[k], parse))
  {
    AllParseRows(bank, rows, parse);
    k := ParseEachFails(rows, RowParser(bank, parse), Window(start, end));
    AllParseRows(bank, rows[..k], parse);
    assert forall j | 0 <= j < k :: rows[..k][j] == rows[j];
  }

  /** When no data row fails, the loop keeps the decoded statements inside the window, in row order. */
  lemma StatementRowsSucceed(bank: string, rows: seq<seq<string>>, parse: Parsers, start: int, end: int)
    requires forall i | 0 <= i < |rows| :: !RowFails(rows[i], parse)
    ensures var r := ParseEach(rows, RowParser(bank, parse), Window(start, end));
      && r == Ok(Filter(Decoded(bank, rows, parse), Window(start, end)))
      && forall i | 0 <= i < |r.value| :: r.value[i].bank == bank && InWindow(r.value[i].time, start, end)
  {
    AllParseRows(bank, rows, parse);
    ParseEachSucceeds(rows, RowParser(bank, parse), Window(start, end));
    DecodedRows(bank, rows, parse);
  }

  /** The read as a whole. Reader errors pass through unchanged; fewer than 2 records is `NoDataRowsIn(filename)`;
      a failing data row yields the error of the first such row `rows[k]` and no statements; otherwise the result
      is every decoded data row inside the window, in row order, each stamped with the file's bank name. */
  lemma GetBankStatementsOutcome(read: string -> Result<seq<seq<string>>, Error>, filename: string, parse: Parsers,
                                 start: int, end: int) returns (k: nat)
    ensures var r := GetBankStatements(read, filename, parse, start, end);
      && (read(filename).Err? ==> r == Err(read(filename).error))
      && (read(filename).Ok? && |read(filename).value| < 2 ==> r == Err(NoDataRowsIn(filename)))
      && (read(filename).Ok? && |read(filename).value| >= 2 ==>
            var rows := read(filename).value[1..];
            && (r.Err? <==> exists i | 0 <= i < |rows| :: RowFails(rows[i], parse))
            && (r.Err? ==> k < |rows| && RowFails(rows[k], parse)
                           && (forall j | 0 <= j < k :: !RowFails(rows[j], parse))
                           && r.error == RowError(rows[k], parse))
            && (r.Ok? ==> r.value == Filter(Decoded(BankName(filename), rows, parse), Window(start, end))))
      && (r.Ok? ==> forall i | 0 <= i < |r.value| ::
            r.value[i].bank == BankName(filename) && InWindow(r.value[i].time, start, end))
  {
    k := 0;
    if read(filename).Ok? && |read(filename).value| >= 2 {
      var rows := read(filename).value[1..];
      if exists i | 0 <= i < |rows| :: RowFails(rows[i], parse) {
        k := StatementRowsFail(BankName(filename), rows, parse, start, end);
      } else {
        StatementRowsSucceed(BankName(filename), rows, parse, start, end);
      }
    }
  }

  // ---------------------------------------------------------------------------------------------------------
  // Storing (recon/bank_statement_storage.go:108-153)

  const StatementHeaders: seq<string> := ["Bank", "ID", "Amount", "Time", "Appear Multiple Time"]

  /** One statement row: bank, ID, amount, formatted time, and the list's flag. */
  function StatementCells(s: BankStatement, appearMultiple: bool, format: int -> string): seq<Cell> {
    [Text(s.bank), Text(s.id), Number(s.amount), Text(format(s.time)), Flag(appearMultiple)]
  }

  /** The statements paired with the flag of their list. */
  function WithFlag(ss: seq<BankStatement>, appearMultiple: bool): seq<(BankStatement, bool)> {
    seq(|ss|, i requires 0 <= i < |ss| => (ss[i], appearMultiple))
  }

  /** The rows written: headers, then statement `i` in row `i + 2`. */
  function StatementGrid(ss: seq<BankStatement>, appearMultiple: bool, format: int -> string): seq<seq<Cell>> {
    Table(HeaderCells(StatementHeaders), WithFlag(ss, appearMultiple),
          (p: (BankStatement, bool)) => StatementCells(p.0, p.1, format))
  }

  /** `StoreBankStatements(statements, appearMultiple, bankName)`: the sheet is named after the bank, and unlike
      the other stores a `NewSheet` error is returned. */
  function StoreBankStatements(w: Writer, destination: string, ss: seq<BankStatement>, appearMultiple: bool,
                               bank: string, format: int -> string): Written
  {
    WriteSheet(w, destination, bank, true, StatementGrid(ss, appearMultiple, format))
  }

  /** Reads a written statement row back: five cells of the written kinds and a time that parses. */
  function DecodeStatement(cells: seq<Cell>, parseTime: string -> Option<int>): Option<(BankStatement, bool)> {
    if |cells| == 5 && cells[0].Text? && cells[1].Text? && cells[2].Number? && cells[3].Text? && cells[4].Flag?
       && parseTime(cells[3].text).Some?
    then Some((BankStatement(cells[0].text, cells[1].text, cells[2].number, parseTime(cells[3].text).value), cells[4].flag))
    else None
  }

  /** The statements (with their flags) held in rows 2 .. n + 1 of a sheet. */
  function ReadBackStatements(ops: seq<Op>, sheet: string, n: nat, parseTime: string -> Option<int>)
    : Option<seq<(BankStatement, bool)>>
  {
    var rows := ReadRows(ops, sheet, 2, n, 5);
    if rows.None? then None else DecodeEach(rows.value, (c: seq<Cell>) => DecodeStatement(c, parseTime))
  }

  /** Once the store reaches `SaveAs`, it has written the five headers to row 1 of the bank's sheet and statement
      `i` with the list's flag to row `i + 2`, read back exactly when the time format parses back, and no cell
      beyond column 5 or row |statements| + 1. The error is the factory's, `GetSheetIndex`'s, `NewSheet`'s or `SaveAs`'s, and
      `NewSheet` is called only for a sheet index of -1. */
  lemma StoreBankStatementsOutcome(w: Writer, destination: string, ss: seq<BankStatement>, appearMultiple: bool,
                                   bank: string, format: int -> string, parseTime: string -> Option<int>)
    requires forall i | 0 <= i < |ss| :: parseTime(format(ss[i].time)) == Some(ss[i].time)
    ensures var x := StoreBankStatements(w, destination, ss, appearMultiple, bank, format);
      var index := w.sheetIndex(bank);
      var created := w.open(destination).None? && index == Ok(-1);
      && (NewSheet(bank) in x.ops <==> created)
      && x.err == (if w.open(destination).Some? then w.open(destination)
                   else if index.Err? then Some(index.error)
                   else if created && w.newSheet(bank).Some? then w.newSheet(bank)
                   else w.save(destination))
      && (SaveAs(destination) in x.ops ==>
            && ReadRow(x.ops, bank, 1, 5) == Some(HeaderCells(StatementHeaders))
            && ReadBackStatements(x.ops, bank, |ss|, parseTime) == Some(WithFlag(ss, appearMultiple))
            && (forall col, row | col > 5 || row > |ss| + 1 :: CellAt(x.ops, bank, col, row) == None))
  {
    var encode := (p: (BankStatement, bool)) => StatementCells(p.0, p.1, format);
    var grid := StatementGrid(ss, appearMultiple, format);
    var x := StoreBankStatements(w, destination, ss, appearMultiple, bank, format);
    WriteSheetOutcome(w, destination, bank, true, grid);
    if SaveAs(destination) in x.ops {
      TableReadBack(x.ops, bank, HeaderCells(StatementHeaders), WithFlag(ss, appearMultiple), encode,
                    (c: seq<Cell>) => DecodeStatement(c, parseTime));
    }
  }
}
