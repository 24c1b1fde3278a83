/** `SummaryStorage.StoreSummary` of the recon package (recon/summary_storage.go:41-74): six label/value rows
    starting at row 1, the last one the discrepancy between the two sums. */
module SummaryStorage {
  import opened Wrappers
  import opened Records
  import opened Sheets

  /** The row labels, in row order; "Dicrepancy" is spelled as the code spells it. */
  const SummaryLabels: seq<string> := [
    "Total Amount Transactions",
    "Total Amount Bank Statements",
    "Total Matched",
    "Total Unmatched",
    "Total Processed",
    "Total Amount Dicrepancy"]

  /** The values of the six rows. */
  function SummaryValues(total: Summary): seq<int> {
    [total.totalAmountTransactions, total.totalAmountBankStatements, total.totalMatched, total.totalUnmatched,
     total.totalProcessed, total.totalAmountTransactions - total.totalAmountBankStatements]
  }

  /** The rows written: label in column 1, value in column 2. */
  function SummaryGrid(total: Summary): seq<seq<Cell>> {
    var values := SummaryValues(total);
    seq(6, i requires 0 <= i < 6 => [Text(SummaryLabels[i]), Number(values[i])])
  }

  /** `StoreSummary(total)`: a `NewSheet` error is ignored. */
  function StoreSummary(w: Writer, destination: string, sheet: string, total: Summary): Written {
    WriteSheet(w, destination, sheet, false, SummaryGrid(total))
  }

  /** Reads a summary back from its six rows: the labels must be the expected ones, in order, and the discrepancy
      row must agree with the two sums. */
  function DecodeSummary(rows: seq<seq<Cell>>): Option<Summary> {
    if |rows| == 6
       && (forall i | 0 <= i < 6 :: |rows[i]| == 2 && rows[i][0] == Text(SummaryLabels[i]) && rows[i][1].Number?)
       && rows[5][1].number == rows[0][1].number - rows[1][1].number
    then Some(Summary(rows[0][1].number, rows[1][1].number, rows[2][1].number, rows[3][1].number, rows[4][1].number))
    else None
  }

  /** Once the store reaches `SaveAs`, the sheet holds the six labelled rows, which read back as the summary stored,
      the discrepancy row holds the transaction sum minus the statement sum, and the store writes no cell outside the
      six-by-two block. The error is the factory's, `GetSheetIndex`'s or `SaveAs`'s. */
  lemma StoreSummaryOutcome(w: Writer, destination: string, sheet: string, total: Summary)
    ensures var x := StoreSummary(w, destination, sheet, total);
      var index := w.sheetIndex(sheet);
      && (NewSheet(sheet) in x.ops <==> w.open(destination).None? && index == Ok(-1))
      && x.err == (if w.open(destination).Some? then w.open(destination)
                   else if index.Err? then Some(index.error)
                   else w.save(destination))
      && (SaveAs(destination) in x.ops <==> w.open(destination).None? && index.Ok?)
      && (SaveAs(destination) in x.ops ==>
            && ReadRows(x.ops, sheet, 1, 6, 2).Some?
            && DecodeSummary(ReadRows(x.ops, sheet, 1, 6, 2).value) == Some(total)
            && CellAt(x.ops, sheet, 2, 6)
                 == Some(Number(total.totalAmountTransactions - total.totalAmountBankStatements))
            && (forall col, row | col > 2 || row > 6 :: CellAt(x.ops, sheet, col, row) == None))
  {
    var grid := SummaryGrid(total);
    var x := StoreSummary(w, destination, sheet, total);
    WriteSheetOutcome(w, destination, sheet, false, grid);
    if SaveAs(destination) in x.ops {
      ReadRowsHolds(x.ops, sheet, grid, 1, 6, 2);
      assert grid[0..6] == grid;
      assert CellAt(x.ops, sheet, 2, 6) == Some(grid[5][1]);
    }
  }
}
