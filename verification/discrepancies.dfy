/** Regrouping what the matching pass left in the buckets by originating bank (recon/recon_executor.go:69-81;
    root recon_executor.go:71-84 with the appear-multiple flag; main.go:102-112). */
module Discrepancies {
  import opened Seqs
  import opened Records
  import opened AmountGroups
  import opened Buckets

  /** A leftover statement together with the appear-multiple flag of the bucket it came from. */
  datatype Entry = Entry(statement: BankStatement, bucketFlag: bool)

  /** `bankStatementDisrepancyGroup` of the root variant; the recon package's group has no flag. */
  datatype DiscrepancyGroup = DiscrepancyGroup(statements: seq<BankStatement>, appearMultiple: bool)

  function EntriesOf(g: Group): (r: seq<Entry>)
    ensures |r| == |g.statements|
    ensures forall i | 0 <= i < |r| :: r[i] == Entry(g.statements[i], g.appearMultiple)
  {
    seq(|g.statements|, i requires 0 <= i < |g.statements| => Entry(g.statements[i], g.appearMultiple))
  }

  function StatementsOf(es: seq<Entry>): (r: seq<BankStatement>)
    ensures |r| == |es|
    ensures forall i | 0 <= i < |r| :: r[i] == es[i].statement
  {
    seq(|es|, i requires 0 <= i < |es| => es[i].statement)
  }

  /** The two outer loops of the regroup: `range` over the buckets in the order `order` chosen by the Go runtime,
      skipping empty buckets, and emit each queued statement in FIFO order. A visited key is removed, so every
      bucket is visited at most once whatever `order` repeats. */
  function Drain(b: Buckets, order: seq<int>): seq<Entry>
    decreases |order|
  {
    if order == [] then []
    else
      var a := order[0];
      var here := if a in b && |b[a].statements| > 0 then EntriesOf(b[a]) else [];
      here + Drain(b - {a}, order[1..])
  }

  /** Reference rule for the leftovers, stated without queues: a statement is left over exactly when the
      statements of the same amount loaded before it have already absorbed every transaction of that amount. */
  function Surplus(ss: seq<BankStatement>, ts: seq<Transaction>): seq<BankStatement> {
    if ss == [] then []
    else
      var init, last := ss[..|ss| - 1], ss[|ss| - 1];
      Surplus(init, ts)
        + (if StatementCount(init, last.amount) >= TransactionCount(ts, last.amount) then [last] else [])
  }

  /** The loop of recon/recon_executor.go:72-76: append each leftover to the list of its bank, creating the list
      on first use. */
  function Regroup(ss: seq<BankStatement>): map<string, seq<BankStatement>> {
    if ss == [] then map[]
    else
      var m, last := Regroup(ss[..|ss| - 1]), ss[|ss| - 1];
      m[last.bank := (if last.bank in m then m[last.bank] else []) + [last]]
  }

  /** The loop of root recon_executor.go:74-79: as `Regroup`, and every append overwrites the bank's flag with the
      flag of the bucket the statement came from. */
  function RegroupFlagged(es: seq<Entry>): map<string, DiscrepancyGroup> {
    if es == [] then map[]
    else
      var m, last := RegroupFlagged(es[..|es| - 1]), es[|es| - 1];
      var bank := last.statement.bank;
      var g := if bank in m then m[bank] else DiscrepancyGroup([], false);
      m[bank := DiscrepancyGroup(g.statements + [last.statement], last.bucketFlag)]
  }

  lemma StatementsOfConcat(xs: seq<Entry>, ys: seq<Entry>)
    ensures StatementsOf(xs + ys) == StatementsOf(xs) + StatementsOf(ys)
  {
  }

  /** A drained bucket contributes nothing of an amount whose bucket is absent. */
  lemma {:induction false} DrainAbsent(b: Buckets, order: seq<int>, a: int)
    requires WellKeyed(b)
    requires a !in b
    ensures Filter(StatementsOf(Drain(b, order)), StatementAt(a)) == []
    decreases |order|
  {
    if order != [] {
      var k := order[0];
      var here := if k in b && |b[k].statements| > 0 then EntriesOf(b[k]) else [];
      DrainAbsent(b - {k}, order[1..], a);
      StatementsOfConcat(here, Drain(b - {k}, order[1..]));
      FilterConcat(StatementsOf(here), StatementsOf(Drain(b - {k}, order[1..])), StatementAt(a));
      FilterNone(StatementsOf(here), StatementAt(a));
    }
  }

  /** What one visited bucket `k` contributes to the statements of amount `a`. */
  lemma HereAt(b: Buckets, k: int, a: int)
    requires WellKeyed(b)
    ensures var here := if k in b && |b[k].statements| > 0 then EntriesOf(b[k]) else [];
      Filter(StatementsOf(here), StatementAt(a)) == if k == a then Queue(b, a) else []
  {
    var here := if k in b && |b[k].statements| > 0 then EntriesOf(b[k]) else [];
    if k == a {
      FilterAll(StatementsOf(here), StatementAt(a));
      assert StatementsOf(here) == Queue(b, a);
    } else {
      FilterNone(StatementsOf(here), StatementAt(a));
    }
  }

  lemma WellKeyedLess(b: Buckets, k: int)
    requires WellKeyed(b)
    ensures WellKeyed(b - {k})
  {
  }

  lemma InRest(order: seq<int>, a: int)
    requires a in order && a != order[0]
    ensures a in order[1..]
  {
    var i :| 0 <= i < |order| && order[i] == a;
    assert order[1..][i - 1] == a;
  }

  /** Draining in any order that visits every bucket yields, per amount, exactly that bucket's queue in FIFO order. */
  lemma {:induction false} DrainAt(b: Buckets, order: seq<int>, a: int)
    requires WellKeyed(b)
    requires a in b ==> a in order
    ensures Filter(StatementsOf(Drain(b, order)), StatementAt(a)) == Queue(b, a)
    decreases |order|
  {
    if a !in b {
      DrainAbsent(b, order, a);
    } else {
      var k, rest := order[0], order[1..];
      var here := if k in b && |b[k].statements| > 0 then EntriesOf(b[k]) else [];
      var tail := Drain(b - {k}, rest);
      assert Drain(b, order) == here + tail;
      StatementsOfConcat(here, tail);
      FilterConcat(StatementsOf(here), StatementsOf(tail), StatementAt(a));
      HereAt(b, k, a);
      var ft := Filter(StatementsOf(tail), StatementAt(a));
      if k == a {
        DrainAbsent(b - {k}, rest, a);
        assert Queue(b, a) + ft == Queue(b, a);
      } else {
        assert Queue(b - {k}, a) == Queue(b, a);
        WellKeyedLess(b, k);
        InRest(order, a);
        DrainAt(b - {k}, rest, a);
        assert [] + ft == ft;
      }
    }
  }

  /** Every drained entry comes from an existing bucket and carries the flag of the bucket of its amount. */
  lemma {:induction false} DrainFlags(b: Buckets, order: seq<int>)
    requires WellKeyed(b)
    ensures forall i | 0 <= i < |Drain(b, order)| ::
              && Drain(b, order)[i].statement.amount in b
              && Drain(b, order)[i].bucketFlag == Flagged(b, Drain(b, order)[i].statement.amount)
    decreases |order|
  {
    if order != [] {
      var k, rest := order[0], order[1..];
      var b' := b - {k};
      DrainFlags(b', rest);
      var here := if k in b && |b[k].statements| > 0 then EntriesOf(b[k]) else [];
      var tail := Drain(b', rest);
      var d := Drain(b, order);
      assert d == here + tail;
      forall i | 0 <= i < |d|
        ensures d[i].statement.amount in b && d[i].bucketFlag == Flagged(b, d[i].statement.amount)
      {
        if i < |here| {
          assert d[i] == Entry(b[k].statements[i], b[k].appearMultiple);
        } else {
          assert d[i] == tail[i - |here|];
        }
      }
    }
  }

  /** Per amount, the reference leftovers are the statements of that amount beyond the first
      min(#transactions, #statements) of them. */
  lemma {:induction false} SurplusAt(ss: seq<BankStatement>, ts: seq<Transaction>, a: int)
    ensures Filter(Surplus(ss, ts), StatementAt(a))
              == Filter(ss, StatementAt(a))[Min(TransactionCount(ts, a), StatementCount(ss, a))..]
  {
    if ss != [] {
      var init, last := ss[..|ss| - 1], ss[|ss| - 1];
      FrontLast(ss);
      SurplusAt(init, ts, a);
      FilterSnoc(init, last, StatementAt(a));
      var prev := Surplus(init, ts);
      var kept := StatementCount(init, last.amount) >= TransactionCount(ts, last.amount);
      assert Surplus(ss, ts) == prev + (if kept then [last] else []);
      FilterSnoc(prev, last, StatementAt(a));
      if kept {
        assert Surplus(ss, ts) == prev + [last];
      } else {
        assert Surplus(ss, ts) == prev;
      }
      SurplusStep(Filter(init, StatementAt(a)), last, TransactionCount(ts, a), last.amount == a);
    }
  }

  /** The slice step of `SurplusAt`: appending a statement of the amount extends the tail past the first `k`. */
  lemma SurplusStep(f: seq<BankStatement>, last: BankStatement, k: nat, same: bool)
    ensures var g := f + (if same then [last] else []);
      g[Min(k, |g|)..] == f[Min(k, |f|)..] + (if same && |f| >= k then [last] else [])
  {
    if same {
      if |f| >= k {
        assert (f + [last])[k..] == f[k..] + [last];
      } else {
        assert (f + [last])[|f| + 1..] == [];
      }
    } else {
      assert f + [] == f;
    }
  }

  /** Two statement lists that agree amount by amount hold the same statements with the same multiplicities. */
  lemma SameMultisetByAmount(xs: seq<BankStatement>, ys: seq<BankStatement>)
    requires forall a :: Filter(xs, StatementAt(a)) == Filter(ys, StatementAt(a))
    ensures multiset(xs) == multiset(ys)
  {
    forall s | true
      ensures multiset(xs)[s] == multiset(ys)[s]
    {
      FilterMultiplicity(xs, StatementAt(s.amount), s);
      FilterMultiplicity(ys, StatementAt(s.amount), s);
      assert Filter(xs, StatementAt(s.amount)) == Filter(ys, StatementAt(s.amount));
    }
  }

  /** The per-bank list of `bank` is exactly the leftovers of that bank, in drain order; a bank gets a list
      exactly when it has a leftover. */
  lemma {:induction false} RegroupByBank(ss: seq<BankStatement>, bank: string)
    ensures bank in Regroup(ss) <==> Filter(ss, OfBank(bank)) != []
    ensures bank in Regroup(ss) ==> Regroup(ss)[bank] == Filter(ss, OfBank(bank))
  {
    if ss != [] {
      var init, last := ss[..|ss| - 1], ss[|ss| - 1];
      assert ss == init + [last];
      RegroupByBank(init, bank);
      FilterSnoc(init, last, OfBank(bank));
    }
  }

  /** The candidate order of the per-bank loop, the banks of the leftovers in any order, names every bank that
      has a list. */
  lemma BanksCovered(ss: seq<BankStatement>, bankChoices: seq<nat>, bank: string)
    requires bank in Regroup(ss)
    ensures bank in Shuffle(BanksOf(ss), bankChoices)
  {
    RegroupByBank(ss, bank);
    var f := Filter(ss, OfBank(bank));
    assert f[0] in ss;
    var i :| 0 <= i < |ss| && ss[i] == f[0];
    assert BanksOf(ss)[i] == bank;
    assert bank in multiset(BanksOf(ss));
  }

  /** The root variant's per-bank statements are the same lists as the recon package's. */
  lemma {:induction false} RegroupFlaggedStatements(es: seq<Entry>, bank: string)
    ensures bank in RegroupFlagged(es) <==> bank in Regroup(StatementsOf(es))
    ensures bank in RegroupFlagged(es) ==>
              RegroupFlagged(es)[bank].statements == Regroup(StatementsOf(es))[bank]
  {
    if es != [] {
      var init := es[..|es| - 1];
      assert StatementsOf(es)[..|es| - 1] == StatementsOf(init);
      RegroupFlaggedStatements(init, bank);
    }
  }

  /** Last writer wins: a bank's flag is the flag of the last leftover of that bank. */
  lemma {:induction false} RegroupFlaggedLastWriter(es: seq<Entry>, bank: string)
    requires bank in RegroupFlagged(es)
    ensures exists i | 0 <= i < |es| ::
              && es[i].statement.bank == bank
              && es[i].bucketFlag == RegroupFlagged(es)[bank].appearMultiple
              && forall j | i < j < |es| :: es[j].statement.bank != bank
  {
    var init, last := es[..|es| - 1], es[|es| - 1];
    if last.statement.bank == bank {
      assert es[|es| - 1].statement.bank == bank;
    } else {
      RegroupFlaggedLastWriter(init, bank);
      var i :| 0 <= i < |init| && init[i].statement.bank == bank
        && init[i].bucketFlag == RegroupFlagged(init)[bank].appearMultiple
        && forall j | i < j < |init| :: init[j].statement.bank != bank;
      assert es[i] == init[i];
    }
  }

  /** When every leftover of a bank comes from buckets with the same flag, the bank's flag is that value,
      whatever order the buckets were drained in. */
  lemma RegroupFlaggedUniform(es: seq<Entry>, bank: string, flag: bool)
    requires bank in RegroupFlagged(es)
    requires forall i | 0 <= i < |es| && es[i].statement.bank == bank :: es[i].bucketFlag == flag
    ensures RegroupFlagged(es)[bank].appearMultiple == flag
  {
    RegroupFlaggedLastWriter(es, bank);
  }
}
