/** The spreadsheet side of the storage ports (recon/dep.go:6-15): an `ExcelWriterFactory` opens the destination
    workbook, the `ExcelWriter` answers `GetSheetIndex`, `NewSheet` and `SaveAs`, and `SetCellValue` writes one
    cell. A store is the trace of writer operations it performs plus the error it returns; `CellAt` reads a cell
    back from the trace of one store, so it sees only the cells that store wrote: whatever the opened workbook
    already held is not modelled. Cell names (`CoordinatesToCellName`) are kept as (column, row) pairs, both 1-based. */
module Sheets {
  import opened Wrappers
  import opened Records

  /** A cell value: text, a number (amounts and counters are integers here), or a boolean. */
  datatype Cell = Text(text: string) | Number(number: int) | Flag(flag: bool)

  datatype Op =
    | New(path: string)
    | GetSheetIndex(sheet: string)
    | NewSheet(sheet: string)
    | SetCell(sheet: string, col: int, row: int, value: Cell)
    | SaveAs(path: string)

  /** The answers of the injected writer: the factory's error for a path, the sheet index (-1 for a missing sheet)
      or its error, the error of creating a sheet, and the error of saving. `SetCellValue` errors are ignored by
      every caller and are not modelled. */
  datatype Writer = Writer(
    open: string -> Option<Error>,
    sheetIndex: string -> Result<int, Error>,
    newSheet: string -> Option<Error>,
    save: string -> Option<Error>)

  /** The writer operations performed and the error returned (`None` for `nil`). */
  datatype Written = Written(ops: seq<Op>, err: Option<Error>)

  /** Open the workbook and make sure the sheet exists. `keepNewSheetError` says whether the caller returns the
      error of `NewSheet` (the statement store does, the transaction and summary stores drop it). */
  function Prepare(w: Writer, path: string, sheet: string, keepNewSheetError: bool): Written {
    if w.open(path).Some? then Written([New(path)], w.open(path))
    else
      var index := w.sheetIndex(sheet);
      if index.Err? then Written([New(path), GetSheetIndex(sheet)], Some(index.error))
      else if index.value != -1 then Written([New(path), GetSheetIndex(sheet)], None)
      else if keepNewSheetError && w.newSheet(sheet).Some? then
        Written([New(path), GetSheetIndex(sheet), NewSheet(sheet)], w.newSheet(sheet))
      else Written([New(path), GetSheetIndex(sheet), NewSheet(sheet)], None)
  }

  /** One row of values written left to right from column 1. */
  function RowWrites(sheet: string, row: int, values: seq<Cell>): (r: seq<Op>)
    ensures |r| == |values|
    ensures forall j | 0 <= j < |r| :: r[j] == SetCell(sheet, j + 1, row, values[j])
  {
    seq(|values|, j requires 0 <= j < |values| => SetCell(sheet, j + 1, row, values[j]))
  }

  /** Rows written top to bottom, row `i` of `rows` at sheet row `i + 1`. */
  function Grid(sheet: string, rows: seq<seq<Cell>>): seq<Op> {
    if rows == [] then []
    else Grid(sheet, rows[..|rows| - 1]) + RowWrites(sheet, |rows|, rows[|rows| - 1])
  }

  /** Prepare the sheet, write the rows, save. */
  function WriteSheet(w: Writer, path: string, sheet: string, keepNewSheetError: bool, rows: seq<seq<Cell>>): Written {
    var prepared := Prepare(w, path, sheet, keepNewSheetError);
    if prepared.err.Some? then prepared
    else Written(prepared.ops + Grid(sheet, rows) + [SaveAs(path)], w.save(path))
  }

  /** The value a trace leaves in a cell: the last write to it, if any. */
  function CellAt(ops: seq<Op>, sheet: string, col: int, row: int): Option<Cell> {
    if ops == [] then None
    else
      var last := ops[|ops| - 1];
      if last.SetCell? && last.sheet == sheet && last.col == col && last.row == row then Some(last.value)
      else CellAt(ops[..|ops| - 1], sheet, col, row)
  }

  /** The cells of columns 1..width of one row, if all are set. */
  function ReadRow(ops: seq<Op>, sheet: string, row: int, width: nat): Option<seq<Cell>> {
    if width == 0 then Some([])
    else
      var front := ReadRow(ops, sheet, row, width - 1);
      var cell := CellAt(ops, sheet, width, row);
      if front.None? || cell.None? then None else Some(front.value + [cell.value])
  }

  /** The cell grid a trace writes: the value at (col, row) is `rows[row - 1][col - 1]` inside the grid, and the
      trace writes no cell outside it. */
  ghost predicate Holds(ops: seq<Op>, sheet: string, rows: seq<seq<Cell>>) {
    forall col, row :: CellAt(ops, sheet, col, row)
      == if 1 <= row <= |rows| && 1 <= col <= |rows[row - 1]| then Some(rows[row - 1][col - 1]) else None
  }

  /** Later writes shadow earlier ones. */
  lemma {:induction false} CellAtConcat(xs: seq<Op>, ys: seq<Op>, sheet: string, col: int, row: int)
    ensures CellAt(xs + ys, sheet, col, row)
      == if CellAt(ys, sheet, col, row).Some? then CellAt(ys, sheet, col, row) else CellAt(xs, sheet, col, row)
    decreases |ys|
  {
    if ys == [] {
      assert xs + ys == xs;
    } else {
      assert (xs + ys)[..|xs + ys| - 1] == xs + ys[..|ys| - 1];
      CellAtConcat(xs, ys[..|ys| - 1], sheet, col, row);
    }
  }

  /** A row write sets exactly the cells of that row from column 1 to its width. */
  lemma {:induction false} CellAtRow(sheet: string, r: int, values: seq<Cell>, s: string, col: int, row: int)
    ensures CellAt(RowWrites(sheet, r, values), s, col, row)
      == if s == sheet && row == r && 1 <= col <= |values| then Some(values[col - 1]) else None
    decreases |values|
  {
    if values != [] {
      var init := values[..|values| - 1];
      assert RowWrites(sheet, r, values)[..|values| - 1] == RowWrites(sheet, r, init);
      CellAtRow(sheet, r, init, s, col, row);
    }
  }

  /** The grid writes leave exactly the grid. */
  lemma {:induction false} GridHolds(sheet: string, rows: seq<seq<Cell>>)
    ensures Holds(Grid(sheet, rows), sheet, rows)
    ensures forall s, col, row | s != sheet :: CellAt(Grid(sheet, rows), s, col, row) == None
    decreases |rows|
  {
    if rows != [] {
      var init := rows[..|rows| - 1];
      GridHolds(sheet, init);
      forall s, col, row
        ensures CellAt(Grid(sheet, rows), s, col, row)
          == if s == sheet && 1 <= row <= |rows| && 1 <= col <= |rows[row - 1]| then Some(rows[row - 1][col - 1]) else None
      {
        CellAtConcat(Grid(sheet, init), RowWrites(sheet, |rows|, rows[|rows| - 1]), s, col, row);
        CellAtRow(sheet, |rows|, rows[|rows| - 1], s, col, row);
        if 1 <= row < |rows| {
          assert rows[row - 1] == init[row - 1];
        }
      }
    }
  }

  /** Operations other than cell writes leave every cell unset. */
  lemma {:induction false} CellAtNoWrites(ops: seq<Op>, sheet: string, col: int, row: int)
    requires forall i | 0 <= i < |ops| :: !ops[i].SetCell?
    ensures CellAt(ops, sheet, col, row) == None
    decreases |ops|
  {
    if ops != [] {
      CellAtNoWrites(ops[..|ops| - 1], sheet, col, row);
    }
  }

  /** Reading a row back yields its values when every one of its cells holds them. */
  lemma {:induction false} ReadRowHolds(ops: seq<Op>, sheet: string, row: int, values: seq<Cell>, width: nat)
    requires width <= |values|
    requires forall col | 1 <= col <= width :: CellAt(ops, sheet, col, row) == Some(values[col - 1])
    ensures ReadRow(ops, sheet, row, width) == Some(values[..width])
    decreases width
  {
    if width > 0 {
      ReadRowHolds(ops, sheet, row, values, width - 1);
      assert values[..width] == values[..width - 1] + [values[width - 1]];
    }
  }

  /** The outcome of a sheet store. The error is the factory's, else `GetSheetIndex`'s, else (when kept)
      `NewSheet`'s, else `SaveAs`'s, each passed on unchanged; `NewSheet` is called iff the sheet index is -1;
      once the store reaches `SaveAs`, it has written exactly the rows to the sheet, and nothing to any other sheet. */
  lemma WriteSheetOutcome(w: Writer, path: string, sheet: string, keepNewSheetError: bool, rows: seq<seq<Cell>>)
    ensures var x := WriteSheet(w, path, sheet, keepNewSheetError, rows);
      var index := w.sheetIndex(sheet);
      var created := w.open(path).None? && index == Ok(-1);
      && x.ops[0] == New(path)
      && (NewSheet(sheet) in x.ops <==> created)
      && x.err == (if w.open(path).Some? then w.open(path)
                   else if index.Err? then Some(index.error)
                   else if created && keepNewSheetError && w.newSheet(sheet).Some? then w.newSheet(sheet)
                   else w.save(path))
      && (SaveAs(path) in x.ops <==>
            w.open(path).None? && index.Ok? && !(created && keepNewSheetError && w.newSheet(sheet).Some?))
      && (SaveAs(path) in x.ops ==> x.ops[|x.ops| - 1] == SaveAs(path) && Holds(x.ops, sheet, rows))
      && (forall s, col, row | s != sheet :: CellAt(x.ops, s, col, row) == None)
  {
    var x := WriteSheet(w, path, sheet, keepNewSheetError, rows);
    var prepared := Prepare(w, path, sheet, keepNewSheetError);
    assert forall i | 0 <= i < |prepared.ops| :: !prepared.ops[i].SetCell? && !prepared.ops[i].SaveAs?;
    GridHolds(sheet, rows);
    if prepared.err.None? {
      var grid := Grid(sheet, rows);
      assert x.ops == prepared.ops + (grid + [SaveAs(path)]);
      assert SaveAs(path) in x.ops;
      forall s, col, row
        ensures CellAt(x.ops, s, col, row) == CellAt(grid, s, col, row)
      {
        CellAtNoWrites(prepared.ops, s, col, row);
        CellAtConcat(prepared.ops, grid + [SaveAs(path)], s, col, row);
        assert (grid + [SaveAs(path)])[..|grid|] == grid;
      }
      GridOnlyCells(sheet, rows);
      forall i | |prepared.ops| <= i < |x.ops|
        ensures x.ops[i].SetCell? || x.ops[i].SaveAs?
      {
        if i < |prepared.ops| + |grid| {
          assert x.ops[i] == grid[i - |prepared.ops|];
        }
      }
      assert NewSheet(sheet) in x.ops <==> NewSheet(sheet) in prepared.ops;
    } else {
      forall s, col, row
        ensures CellAt(x.ops, s, col, row) == None
      {
        CellAtNoWrites(x.ops, s, col, row);
      }
    }
  }

  /** The grid consists of cell writes only. */
  lemma {:induction false} GridOnlyCells(sheet: string, rows: seq<seq<Cell>>)
    ensures forall i | 0 <= i < |Grid(sheet, rows)| :: Grid(sheet, rows)[i].SetCell?
    decreases |rows|
  {
    if rows != [] {
      GridOnlyCells(sheet, rows[..|rows| - 1]);
      var g: seq<Op>, r: seq<Op> := Grid(sheet, rows[..|rows| - 1]), RowWrites(sheet, |rows|, rows[|rows| - 1]);
      forall i | 0 <= i < |g + r|
        ensures (g + r)[i].SetCell?
      {
        if i < |g| {
          assert (g + r)[i] == g[i];
        } else {
          assert (g + r)[i] == r[i - |g|];
        }
      }
    }
  }

  /** Rows `first` .. `first + n - 1`, columns 1..width each, if all are set. */
  function ReadRows(ops: seq<Op>, sheet: string, first: int, n: nat, width: nat): Option<seq<seq<Cell>>> {
    if n == 0 then Some([])
    else
      var front := ReadRows(ops, sheet, first, n - 1, width);
      var row := ReadRow(ops, sheet, first + n - 1, width);
      if front.None? || row.None? then None else Some(front.value + [row.value])
  }

  /** Decode every row with `decode`, failing if any row fails. */
  function DecodeEach<T>(rows: seq<seq<Cell>>, decode: seq<Cell> -> Option<T>): Option<seq<T>> {
    if rows == [] then Some([])
    else
      var front := DecodeEach(rows[..|rows| - 1], decode);
      var last := decode(rows[|rows| - 1]);
      if front.None? || last.None? then None else Some(front.value + [last.value])
  }

  /** Reading back a block of full-width rows of a held grid returns exactly those rows. */
  lemma {:induction false} ReadRowsHolds(ops: seq<Op>, sheet: string, rows: seq<seq<Cell>>, first: int, n: nat, width: nat)
    requires Holds(ops, sheet, rows)
    requires 1 <= first && first - 1 + n <= |rows|
    requires forall i | first - 1 <= i < first - 1 + n :: |rows[i]| == width
    ensures ReadRows(ops, sheet, first, n, width) == Some(rows[first - 1..first - 1 + n])
    decreases n
  {
    if n > 0 {
      ReadRowsHolds(ops, sheet, rows, first, n - 1, width);
      var values, r := rows[first - 1 + n - 1], first + n - 1;
      forall col | 1 <= col <= width
        ensures CellAt(ops, sheet, col, r) == Some(values[col - 1])
      {
      }
      ReadRowHolds(ops, sheet, r, values, width);
      assert values[..width] == values;
      assert rows[first - 1..first - 1 + n] == rows[first - 1..first - 1 + n - 1] + [values];
    }
  }

  /** Decoding undoes encoding, element by element. */
  lemma {:induction false} DecodeEachEncoded<T>(xs: seq<T>, encode: T -> seq<Cell>, decode: seq<Cell> -> Option<T>)
    requires forall i | 0 <= i < |xs| :: decode(encode(xs[i])) == Some(xs[i])
    ensures DecodeEach(seq(|xs|, i requires 0 <= i < |xs| => encode(xs[i])), decode) == Some(xs)
    decreases |xs|
  {
    if xs != [] {
      var init := xs[..|xs| - 1];
      DecodeEachEncoded(init, encode, decode);
      var rows := seq(|xs|, i requires 0 <= i < |xs| => encode(xs[i]));
      assert rows[..|rows| - 1] == seq(|init|, i requires 0 <= i < |init| => encode(init[i]));
      assert xs == init + [xs[|xs| - 1]];
    }
  }

  /** A header row of text cells. */
  function HeaderCells(headers: seq<string>): (r: seq<Cell>)
    ensures |r| == |headers|
    ensures forall i | 0 <= i < |r| :: r[i] == Text(headers[i])
  {
    seq(|headers|, i requires 0 <= i < |headers| => Text(headers[i]))
  }

  /** A table: a header row, then one encoded row per element. */
  function Table<T>(header: seq<Cell>, xs: seq<T>, encode: T -> seq<Cell>): seq<seq<Cell>> {
    [header] + seq(|xs|, i requires 0 <= i < |xs| => encode(xs[i]))
  }

  /** A held table reads back: its header in row 1, its elements decoded from rows 2 .. |xs| + 1, and nothing
      right of the header or below the last element. */
  lemma TableReadBack<T>(ops: seq<Op>, sheet: string, header: seq<Cell>, xs: seq<T>, encode: T -> seq<Cell>,
                         decode: seq<Cell> -> Option<T>)
    requires Holds(ops, sheet, Table(header, xs, encode))
    requires forall i | 0 <= i < |xs| :: |encode(xs[i])| == |header| && decode(encode(xs[i])) == Some(xs[i])
    ensures ReadRow(ops, sheet, 1, |header|) == Some(header)
    ensures var rows := ReadRows(ops, sheet, 2, |xs|, |header|); rows.Some? && DecodeEach(rows.value, decode) == Some(xs)
    ensures forall col, row | col > |header| || row > |xs| + 1 :: CellAt(ops, sheet, col, row) == None
  {
    TableHeader(ops, sheet, header, xs, encode);
    TableBody(ops, sheet, header, xs, encode);
    DecodeEachEncoded(xs, encode, decode);
    TableBounds(ops, sheet, header, xs, encode);
  }

  lemma TableHeader<T>(ops: seq<Op>, sheet: string, header: seq<Cell>, xs: seq<T>, encode: T -> seq<Cell>)
    requires Holds(ops, sheet, Table(header, xs, encode))
    ensures ReadRow(ops, sheet, 1, |header|) == Some(header)
  {
    var table := Table(header, xs, encode);
    forall col | 1 <= col <= |header|
      ensures CellAt(ops, sheet, col, 1) == Some(header[col - 1])
    {
      assert table[0] == header;
    }
    ReadRowHolds(ops, sheet, 1, header, |header|);
    assert header[..|header|] == header;
  }

  lemma TableBody<T>(ops: seq<Op>, sheet: string, header: seq<Cell>, xs: seq<T>, encode: T -> seq<Cell>)
    requires Holds(ops, sheet, Table(header, xs, encode))
    requires forall i | 0 <= i < |xs| :: |encode(xs[i])| == |header|
    ensures ReadRows(ops, sheet, 2, |xs|, |header|) == Some(seq(|xs|, i requires 0 <= i < |xs| => encode(xs[i])))
  {
    var table := Table(header, xs, encode);
    var body := seq(|xs|, i requires 0 <= i < |xs| => encode(xs[i]));
    assert table == [header] + body;
    forall i | 1 <= i < 1 + |xs|
      ensures |table[i]| == |header|
    {
      assert table[i] == body[i - 1];
    }
    ReadRowsHolds(ops, sheet, table, 2, |xs|, |header|);
    assert table[1..1 + |xs|] == body;
  }

  lemma TableBounds<T>(ops: seq<Op>, sheet: string, header: seq<Cell>, xs: seq<T>, encode: T -> seq<Cell>)
    requires Holds(ops, sheet, Table(header, xs, encode))
    requires forall i | 0 <= i < |xs| :: |encode(xs[i])| == |header|
    ensures forall col, row | col > |header| || row > |xs| + 1 :: CellAt(ops, sheet, col, row) == None
  {
    var table := Table(header, xs, encode);
    forall col, row | col > |header| || row > |xs| + 1
      ensures CellAt(ops, sheet, col, row) == None
    {
      if 2 <= row <= |xs| + 1 {
        assert table[row - 1] == encode(xs[row - 2]);
      }
    }
  }
}
