/** The amount-keyed bucket store `map[float64]*BankStatementGroup` built by the load loop of
    `Execute` (recon/recon_executor.go:40-54): every statement of every file is queued in the bucket of its amount. */
module Buckets {
  import opened Seqs
  import opened Records
  import opened AmountGroups

  type Buckets = map<int, Group>

  /** The queue of amount `a`; a missing bucket reads as empty, as a nil `*BankStatementGroup` does. */
  function Queue(b: Buckets, a: int): seq<BankStatement> {
    if a in b then b[a].statements else []
  }

  /** Whether the bucket of `a` exists and carries the appear-multiple flag. */
  predicate Flagged(b: Buckets, a: int) {
    a in b && b[a].appearMultiple
  }

  /** Every queued statement sits in the bucket of its own amount. */
  predicate WellKeyed(b: Buckets) {
    forall a, i | a in b && 0 <= i < |b[a].statements| :: b[a].statements[i].amount == a
  }

  /** One iteration of the load loop: create the bucket on first use, then `Add` (recon_executor.go:48-51). */
  function Insert(b: Buckets, s: BankStatement): (r: Buckets)
    ensures r.Keys == b.Keys + {s.amount}
    ensures Queue(r, s.amount) == Queue(b, s.amount) + [s]
    ensures Flagged(r, s.amount) <==> Flagged(b, s.amount) || |Queue(b, s.amount)| > 0
    ensures forall a | a in b && a != s.amount :: r[a] == b[a]
  {
    var g := if s.amount in b then b[s.amount] else Empty;
    assert g.statements + [s] == Add(g, s).statements;
    b[s.amount := Add(g, s)]
  }

  /** Inserting the statements of `ss` in order. */
  function Load(b: Buckets, ss: seq<BankStatement>): Buckets {
    if ss == [] then b else Insert(Load(b, ss[..|ss| - 1]), ss[|ss| - 1])
  }

  /** After loading, the queue of every amount is the old queue followed by the loaded statements of that
      amount in load order; the flag is raised when something was added to a bucket that then held two or
      more statements; a bucket exists exactly when it existed or received a statement. */
  lemma {:induction false} LoadQueues(b: Buckets, ss: seq<BankStatement>, a: int)
    ensures Queue(Load(b, ss), a) == Queue(b, a) + Filter(ss, StatementAt(a))
    ensures Flagged(Load(b, ss), a) <==>
              Flagged(b, a) || (StatementCount(ss, a) >= 1 && |Queue(b, a)| + StatementCount(ss, a) >= 2)
    ensures a in Load(b, ss) <==> a in b || StatementCount(ss, a) >= 1
  {
    if ss != [] {
      var init, last := ss[..|ss| - 1], ss[|ss| - 1];
      FrontLast(ss);
      LoadQueues(b, init, a);
      FilterSnoc(init, last, StatementAt(a));
      var q, f := Queue(b, a), Filter(init, StatementAt(a));
      if last.amount == a {
        assert q + f + [last] == q + (f + [last]);
      } else {
        assert f + [] == f;
      }
    }
  }

  /** Loading into an empty store: the queue of `a` is exactly the statements of amount `a` in load order, the
      bucket exists iff some statement has amount `a`, and its flag is up iff at least two do. */
  lemma LoadFromEmpty(ss: seq<BankStatement>, a: int)
    ensures Queue(Load(map[], ss), a) == Filter(ss, StatementAt(a))
    ensures a in Load(map[], ss) <==> StatementCount(ss, a) >= 1
    ensures Flagged(Load(map[], ss), a) <==> StatementCount(ss, a) >= 2
  {
    LoadQueues(map[], ss, a);
  }

  lemma {:induction false} LoadWellKeyed(b: Buckets, ss: seq<BankStatement>)
    requires WellKeyed(b)
    ensures WellKeyed(Load(b, ss))
  {
    if ss != [] {
      var init, last := ss[..|ss| - 1], ss[|ss| - 1];
      LoadWellKeyed(b, init);
      var prev := Load(b, init);
      var r := Insert(prev, last);
      forall a, i | a in r && 0 <= i < |r[a].statements|
        ensures r[a].statements[i].amount == a
      {
        if a == last.amount {
          assert r[a].statements == Queue(prev, a) + [last];
          if i < |Queue(prev, a)| {
            assert r[a].statements[i] == prev[a].statements[i];
          }
        } else {
          assert r[a] == prev[a];
        }
      }
    }
  }

  /** Loading one sequence after another is loading their concatenation: file-by-file insertion is the
      same as inserting all statements in path order, then row order. */
  lemma {:induction false} LoadConcat(b: Buckets, xs: seq<BankStatement>, ys: seq<BankStatement>)
    ensures Load(b, xs + ys) == Load(Load(b, xs), ys)
    decreases |ys|
  {
    if ys == [] {
      assert xs + ys == xs;
    } else {
      var init := ys[..|ys| - 1];
      assert (xs + ys)[..|xs + ys| - 1] == xs + init;
      LoadConcat(b, xs, init);
    }
  }
}
