/** The row loop shared by both readers (recon/bank_statement_storage.go:78-103,
    recon/transaction_storage.go:100-122): skip nothing but what the row parser skips, abort on the first row
    that fails, drop the records the window rejects, keep the rest in row order. */
module Parsing {
  import opened Wrappers
  import opened Seqs
  import opened Records

  /** The text parsers the readers apply to the amount and time cells. */
  datatype Parsers = Parsers(amount: string -> Option<int>, time: string -> Option<int>)

  /** The loop: `parse` yields a record, `None` for a row to skip, or an error. */
  function ParseEach<T>(rows: seq<seq<string>>, parse: seq<string> -> Result<Option<T>, Error>, keep: T -> bool)
    : Result<seq<T>, Error>
  {
    if rows == [] then Ok([])
    else
      var prev := ParseEach(rows[..|rows| - 1], parse, keep);
      if prev.Err? then prev
      else
        var got := parse(rows[|rows| - 1]);
        if got.Err? then Err(got.error)
        else if got.value.Some? && keep(got.value.value) then Ok(prev.value + [got.value.value])
        else prev
  }

  /** Reference decoding, with no filter and no early exit: the record of every row that yields one, in row order. */
  function DecodeAll<T>(rows: seq<seq<string>>, parse: seq<string> -> Result<Option<T>, Error>): seq<T> {
    if rows == [] then []
    else
      var got := parse(rows[|rows| - 1]);
      DecodeAll(rows[..|rows| - 1], parse) + (if got.Ok? && got.value.Some? then [got.value.value] else [])
  }

  predicate AllParse<T>(rows: seq<seq<string>>, parse: seq<string> -> Result<Option<T>, Error>) {
    forall i | 0 <= i < |rows| :: parse(rows[i]).Ok?
  }

  lemma AllParseFront<T>(rows: seq<seq<string>>, parse: seq<string> -> Result<Option<T>, Error>)
    requires rows != [] && AllParse(rows, parse)
    ensures AllParse(rows[..|rows| - 1], parse) && parse(rows[|rows| - 1]).Ok?
  {
    var init := rows[..|rows| - 1];
    forall i | 0 <= i < |init|
      ensures parse(init[i]).Ok?
    {
      assert init[i] == rows[i];
    }
  }

  lemma AllParseLast<T>(rows: seq<seq<string>>, parse: seq<string> -> Result<Option<T>, Error>)
    requires rows != [] && AllParse(rows[..|rows| - 1], parse) && parse(rows[|rows| - 1]).Ok?
    ensures AllParse(rows, parse)
  {
    forall i | 0 <= i < |rows|
      ensures parse(rows[i]).Ok?
    {
      if i < |rows| - 1 {
        assert rows[i] == rows[..|rows| - 1][i];
      }
    }
  }

  /** When every row parses, the loop keeps exactly the decoded records the filter accepts, in row order:
      filtering while parsing is filtering after parsing. */
  lemma {:induction false} ParseEachSucceeds<T>(rows: seq<seq<string>>, parse: seq<string> -> Result<Option<T>, Error>,
                                                keep: T -> bool)
    requires AllParse(rows, parse)
    ensures ParseEach(rows, parse, keep) == Ok(Filter(DecodeAll(rows, parse), keep))
  {
    if rows != [] {
      var init, row := rows[..|rows| - 1], rows[|rows| - 1];
      AllParseFront(rows, parse);
      ParseEachSucceeds(init, parse, keep);
      var d := DecodeAll(init, parse);
      var got := parse(row);
      if got.value.Some? {
        var x := got.value.value;
        assert DecodeAll(rows, parse) == d + [x];
        FilterSnoc(d, x, keep);
        if keep(x) {
          assert ParseEach(rows, parse, keep) == Ok(Filter(d, keep) + [x]);
        } else {
          assert ParseEach(rows, parse, keep) == Ok(Filter(d, keep));
          assert Filter(d, keep) + [] == Filter(d, keep);
        }
      } else {
        assert DecodeAll(rows, parse) == d + [];
        assert d + [] == d;
      }
    }
  }

  /** When some row fails, the loop fails with the error of the first failing row `rows[k]`. */
  lemma {:induction false} ParseEachFails<T>(rows: seq<seq<string>>, parse: seq<string> -> Result<Option<T>, Error>,
                                             keep: T -> bool) returns (k: nat)
    requires !AllParse(rows, parse)
    ensures k < |rows| && parse(rows[k]).Err?
    ensures AllParse(rows[..k], parse)
    ensures ParseEach(rows, parse, keep) == Err(parse(rows[k]).error)
  {
    var init, row := rows[..|rows| - 1], rows[|rows| - 1];
    if AllParse(init, parse) {
      if parse(row).Ok? {
        AllParseLast(rows, parse);
        assert false;
      }
      ParseEachSucceeds(init, parse, keep);
      k := |init|;
      assert rows[..k] == init;
    } else {
      k := ParseEachFails(init, parse, keep);
      assert rows[..k] == init[..k];
      assert rows[k] == init[k];
    }
  }
}
