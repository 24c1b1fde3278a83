/** Generic sequence vocabulary shared by the reconciliation model: order-preserving
    filtering, subsequences, and the arbitrary orders a Go map hands out when ranged over. */
module Seqs {

  function Min(a: int, b: int): int {
    if a <= b then a else b
  }

  /** The elements of `xs` that satisfy `p`, in their original order (a left fold, as `lo.Filter`). */
  function Filter<T>(xs: seq<T>, p: T -> bool): (r: seq<T>)
    ensures |r| <= |xs|
    ensures forall i | 0 <= i < |r| :: p(r[i]) && r[i] in xs
  {
    if xs == [] then []
    else Filter(xs[..|xs| - 1], p) + (if p(xs[|xs| - 1]) then [xs[|xs| - 1]] else [])
  }

  /** A non-empty sequence is its front followed by its last element. */
  lemma FrontLast<T>(xs: seq<T>)
    requires xs != []
    ensures xs[..|xs| - 1] + [xs[|xs| - 1]] == xs
  {
  }

  lemma FilterSnoc<T>(xs: seq<T>, x: T, p: T -> bool)
    ensures Filter(xs + [x], p) == Filter(xs, p) + (if p(x) then [x] else [])
  {
    assert (xs + [x])[..|xs|] == xs;
  }

  lemma {:induction false} FilterConcat<T>(xs: seq<T>, ys: seq<T>, p: T -> bool)
    ensures Filter(xs + ys, p) == Filter(xs, p) + Filter(ys, p)
    decreases |ys|
  {
    if ys == [] {
      assert xs + ys == xs;
    } else {
      var init, last := ys[..|ys| - 1], ys[|ys| - 1];
      assert ys == init + [last];
      assert xs + ys == (xs + init) + [last];
      FilterConcat(xs, init, p);
      FilterSnoc(xs + init, last, p);
      FilterSnoc(init, last, p);
    }
  }

  /** Filtering keeps everything when every element qualifies. */
  lemma {:induction false} FilterAll<T>(xs: seq<T>, p: T -> bool)
    requires forall i | 0 <= i < |xs| :: p(xs[i])
    ensures Filter(xs, p) == xs
  {
    if xs != [] {
      FilterAll(xs[..|xs| - 1], p);
    }
  }

  /** Filtering keeps nothing when no element qualifies. */
  lemma {:induction false} FilterNone<T>(xs: seq<T>, p: T -> bool)
    requires forall i | 0 <= i < |xs| :: !p(xs[i])
    ensures Filter(xs, p) == []
  {
    if xs != [] {
      FilterNone(xs[..|xs| - 1], p);
    }
  }

  /** An element occurs in the filtered sequence as often as in the original if it qualifies, otherwise never. */
  lemma {:induction false} FilterMultiplicity<T>(xs: seq<T>, p: T -> bool, x: T)
    ensures multiset(Filter(xs, p))[x] == if p(x) then multiset(xs)[x] else 0
  {
    if xs != [] {
      var init, last := xs[..|xs| - 1], xs[|xs| - 1];
      assert xs == init + [last];
      FilterMultiplicity(init, p, x);
    }
  }

  /** Filtering two permutations of each other yields permutations of each other. */
  lemma FilterPermutes<T>(xs: seq<T>, ys: seq<T>, p: T -> bool)
    requires multiset(xs) == multiset(ys)
    ensures multiset(Filter(xs, p)) == multiset(Filter(ys, p))
    ensures Filter(xs, p) == [] <==> Filter(ys, p) == []
  {
    forall x
      ensures multiset(Filter(xs, p))[x] == multiset(Filter(ys, p))[x]
    {
      FilterMultiplicity(xs, p, x);
      FilterMultiplicity(ys, p, x);
    }
    assert multiset(Filter(xs, p)) == multiset(Filter(ys, p));
    assert |multiset(Filter(xs, p))| == |Filter(xs, p)|;
  }

  /** Two filters may be applied in either order. */
  lemma {:induction false} FilterCommutes<T>(xs: seq<T>, p: T -> bool, q: T -> bool)
    ensures Filter(Filter(xs, p), q) == Filter(Filter(xs, q), p)
  {
    if xs != [] {
      var init, last := xs[..|xs| - 1], xs[|xs| - 1];
      assert xs == init + [last];
      FilterCommutes(init, p, q);
      FilterSnoc(init, last, p);
      FilterSnoc(init, last, q);
      var fp, fq := Filter(init, p), Filter(init, q);
      FilterSnoc(fp, last, q);
      FilterSnoc(fq, last, p);
      if p(last) {
        assert Filter(Filter(xs, p), q) == Filter(fp, q) + (if q(last) then [last] else []);
      } else {
        assert Filter(xs, p) == fp + [];
        assert fp + [] == fp;
      }
      if q(last) {
        assert Filter(Filter(xs, q), p) == Filter(fq, p) + (if p(last) then [last] else []);
      } else {
        assert Filter(xs, q) == fq + [];
        assert fq + [] == fq;
      }
    }
  }

  /** `xs` can be obtained from `ys` by deleting elements, without reordering. */
  predicate IsSubsequence<T(==)>(xs: seq<T>, ys: seq<T>)
    decreases |ys|
  {
    if xs == [] then true
    else if ys == [] then false
    else (xs[|xs| - 1] == ys[|ys| - 1] && IsSubsequence(xs[..|xs| - 1], ys[..|ys| - 1]))
         || IsSubsequence(xs, ys[..|ys| - 1])
  }

  /** The order in which a Go `range` over a map visits its keys is unspecified. `Shuffle`
      stands for that runtime choice: each element of `choices` selects (modulo the number of
      elements left) the next element to visit. Every permutation of `xs` is reachable. */
  function Shuffle<T>(xs: seq<T>, choices: seq<nat>): (r: seq<T>)
    ensures multiset(r) == multiset(xs)
    decreases |xs|
  {
    if xs == [] then []
    else
      var k := if choices == [] then 0 else choices[0] % |xs|;
      assert xs == xs[..k] + [xs[k]] + xs[k + 1..];
      [xs[k]] + Shuffle(xs[..k] + xs[k + 1..], if choices == [] then [] else choices[1..])
  }

  /** A `range` over map `m` with the keys taken in the order `order` names them; a visited key is removed, so
      keys not in `m`, or named again, are passed over. */
  function Visit<K, V>(m: map<K, V>, order: seq<K>): seq<(K, V)>
    decreases |order|
  {
    if order == [] then []
    else if order[0] !in m then Visit(m, order[1..])
    else [(order[0], m[order[0]])] + Visit(m - {order[0]}, order[1..])
  }

  /** Every visit pairs a key of `m` with its value, and no key is visited twice. */
  lemma {:induction false} VisitEntries<K, V>(m: map<K, V>, order: seq<K>)
    ensures forall i | 0 <= i < |Visit(m, order)| :: Visit(m, order)[i].0 in m && m[Visit(m, order)[i].0] == Visit(m, order)[i].1
    ensures forall i, j | 0 <= i < j < |Visit(m, order)| :: Visit(m, order)[i].0 != Visit(m, order)[j].0
    decreases |order|
  {
    if order != [] {
      var head := order[0];
      if head !in m {
        VisitEntries(m, order[1..]);
        assert Visit(m, order) == Visit(m, order[1..]);
      } else {
        var rest := Visit(m - {head}, order[1..]);
        VisitEntries(m - {head}, order[1..]);
        var v := Visit(m, order);
        assert v == [(head, m[head])] + rest;
        forall i | 0 <= i < |v|
          ensures v[i].0 in m && m[v[i].0] == v[i].1
        {
          if i > 0 {
            assert v[i] == rest[i - 1];
            assert v[i].0 in m - {head};
          }
        }
        forall i, j | 0 <= i < j < |v|
          ensures v[i].0 != v[j].0
        {
          assert v[j] == rest[j - 1];
          assert v[j].0 in m - {head};
          if i > 0 {
            assert v[i] == rest[i - 1];
          }
        }
      }
    }
  }

  /** Every key of `m` that `order` names is visited. */
  lemma {:induction false} VisitComplete<K, V>(m: map<K, V>, order: seq<K>, k: K)
    requires k in m && k in order
    ensures exists i | 0 <= i < |Visit(m, order)| :: Visit(m, order)[i].0 == k
    decreases |order|
  {
    var head := order[0];
    if head !in m {
      assert k != head && k in order[1..];
      VisitComplete(m, order[1..], k);
      assert Visit(m, order) == Visit(m, order[1..]);
    } else if k == head {
      assert Visit(m, order)[0].0 == k;
    } else {
      assert k in order[1..];
      VisitComplete(m - {head}, order[1..], k);
      var rest := Visit(m - {head}, order[1..]);
      var i :| 0 <= i < |rest| && rest[i].0 == k;
      assert Visit(m, order)[i + 1] == rest[i];
    }
  }
}
