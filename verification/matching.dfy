/** The matching pass of `Execute` (recon/recon_executor.go:56-67; root recon_executor.go:58-69; main.go:92-100):
    each transaction, in input order, consumes the head of its amount's bucket when that bucket is non-empty
    and is dropped; otherwise it is kept. */
module Matching {
  import opened Seqs
  import opened Records
  import opened AmountGroups
  import opened Buckets

  /** What the `lo.Filter` callback reads and writes: the buckets, the running `Summary`, and the kept transactions. */
  datatype PassState = PassState(buckets: Buckets, total: Summary, unmatched: seq<Transaction>)

  /** One call of the filter callback. */
  function Step(st: PassState, t: Transaction): PassState {
    var total := st.total.(totalAmountTransactions := st.total.totalAmountTransactions + t.amount);
    if t.amount in st.buckets && |st.buckets[t.amount].statements| > 0 then
      PassState(st.buckets[t.amount := Shift(st.buckets[t.amount])],
                total.(totalMatched := total.totalMatched + 1),
                st.unmatched)
    else
      PassState(st.buckets, total.(totalUnmatched := total.totalUnmatched + 1), st.unmatched + [t])
  }

  /** The whole pass over `ts`, in input order. */
  function Pass(b: Buckets, total: Summary, ts: seq<Transaction>): PassState {
    if ts == [] then PassState(b, total, [])
    else Step(Pass(b, total, ts[..|ts| - 1]), ts[|ts| - 1])
  }

  /** Reference rule for FIFO pairing, stated without queues: a transaction stays unmatched exactly when the
      transactions of the same amount before it have already used up every statement of that amount. */
  function Unpaired(ts: seq<Transaction>, ss: seq<BankStatement>): seq<Transaction> {
    if ts == [] then []
    else
      var init, last := ts[..|ts| - 1], ts[|ts| - 1];
      Unpaired(init, ss)
        + (if TransactionCount(init, last.amount) >= StatementCount(ss, last.amount) then [last] else [])
  }

  /** The pass leaves the bucket keys and flags alone and consumes, from the head of each queue, one statement
      per transaction of that amount while statements last. */
  lemma {:induction false} PassBuckets(b: Buckets, total: Summary, ts: seq<Transaction>, a: int)
    ensures Pass(b, total, ts).buckets.Keys == b.Keys
    ensures Queue(Pass(b, total, ts).buckets, a) == Queue(b, a)[Min(TransactionCount(ts, a), |Queue(b, a)|)..]
    ensures Flagged(Pass(b, total, ts).buckets, a) == Flagged(b, a)
  {
    if ts != [] {
      var init, last := ts[..|ts| - 1], ts[|ts| - 1];
      assert ts == init + [last];
      PassBuckets(b, total, init, a);
      PassBuckets(b, total, init, last.amount);
      FilterSnoc(init, last, TransactionAt(a));
      var st := Pass(b, total, init);
      if last.amount == a {
        assert TransactionCount(ts, a) == TransactionCount(init, a) + 1;
      } else {
        assert TransactionCount(ts, a) == TransactionCount(init, a);
        assert Queue(Pass(b, total, ts).buckets, a) == Queue(st.buckets, a);
      }
    }
  }

  /** Bookkeeping of the pass: the transaction sum grows by every transaction's amount regardless of outcome,
      every transaction adds one to exactly one of matched/unmatched, and the kept ones are counted as unmatched. */
  lemma {:induction false} PassTotals(b: Buckets, total: Summary, ts: seq<Transaction>)
    ensures var r := Pass(b, total, ts);
      && |r.unmatched| <= |ts|
      && r.total.totalAmountTransactions == total.totalAmountTransactions + TransactionSum(ts)
      && r.total.totalAmountBankStatements == total.totalAmountBankStatements
      && r.total.totalMatched == total.totalMatched + |ts| - |r.unmatched|
      && r.total.totalUnmatched == total.totalUnmatched + |r.unmatched|
      && r.total.totalProcessed == total.totalProcessed
  {
    if ts != [] {
      PassTotals(b, total, ts[..|ts| - 1]);
    }
  }

  /** When bucket `a` holds the statements of amount `a` of `ss`, the transactions the pass keeps are exactly the
      ones the reference pairing rule leaves unpaired, in input order. */
  lemma {:induction false} PassKeepsUnpaired(b: Buckets, total: Summary, ts: seq<Transaction>, ss: seq<BankStatement>)
    requires forall a :: |Queue(b, a)| == StatementCount(ss, a)
    ensures Pass(b, total, ts).unmatched == Unpaired(ts, ss)
  {
    if ts != [] {
      var init, last := ts[..|ts| - 1], ts[|ts| - 1];
      PassKeepsUnpaired(b, total, init, ss);
      PassBuckets(b, total, init, last.amount);
      var q := Queue(b, last.amount);
      assert |q| == StatementCount(ss, last.amount);
      var st := Pass(b, total, init);
      assert |Queue(st.buckets, last.amount)| == |q| - Min(TransactionCount(init, last.amount), |q|);
    }
  }

  /** Per amount, the unpaired transactions are the surplus of transactions over statements. */
  lemma {:induction false} UnpairedCount(ts: seq<Transaction>, ss: seq<BankStatement>, a: int)
    ensures TransactionCount(Unpaired(ts, ss), a)
              == TransactionCount(ts, a) - Min(TransactionCount(ts, a), StatementCount(ss, a))
  {
    if ts != [] {
      var init, last := ts[..|ts| - 1], ts[|ts| - 1];
      assert ts == init + [last];
      UnpairedCount(init, ss, a);
      FilterSnoc(init, last, TransactionAt(a));
      var kept := if TransactionCount(init, last.amount) >= StatementCount(ss, last.amount) then [last] else [];
      assert Unpaired(ts, ss) == Unpaired(init, ss) + kept;
      FilterConcat(Unpaired(init, ss), kept, TransactionAt(a));
      var n, m := TransactionCount(init, a), StatementCount(ss, a);
      if last.amount == a {
        assert TransactionCount(ts, a) == n + 1;
        assert |Filter(kept, TransactionAt(a))| == if n >= m then 1 else 0;
      } else {
        assert TransactionCount(ts, a) == n;
        assert |Filter(kept, TransactionAt(a))| == 0;
      }
    }
  }

  /** The unpaired transactions form an order-preserving subsequence of the input. */
  lemma {:induction false} UnpairedIsSubsequence(ts: seq<Transaction>, ss: seq<BankStatement>)
    ensures IsSubsequence(Unpaired(ts, ss), ts)
  {
    if ts != [] {
      var init, last := ts[..|ts| - 1], ts[|ts| - 1];
      UnpairedIsSubsequence(init, ss);
      var u := Unpaired(ts, ss);
      if TransactionCount(init, last.amount) >= StatementCount(ss, last.amount) {
        assert u[..|u| - 1] == Unpaired(init, ss);
      } else if u != [] {
        assert u == Unpaired(init, ss);
      }
    }
  }

  /** The pass only removes queue heads, so every statement still sits in the bucket of its amount. */
  lemma PassWellKeyed(b: Buckets, total: Summary, ts: seq<Transaction>)
    requires WellKeyed(b)
    ensures WellKeyed(Pass(b, total, ts).buckets)
  {
    var pb := Pass(b, total, ts).buckets;
    forall a, i | a in pb && 0 <= i < |pb[a].statements|
      ensures pb[a].statements[i].amount == a
    {
      PassBuckets(b, total, ts, a);
      var m := Min(TransactionCount(ts, a), |Queue(b, a)|);
      assert pb[a].statements[i] == b[a].statements[m + i];
    }
  }
}
