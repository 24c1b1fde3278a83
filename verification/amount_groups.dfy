/** `BankStatementGroup` (recon/bank_statement_storage.go:20-41, identical in main.go:38-59): a FIFO queue of the
    bank statements that share one amount, with a sticky flag recording that the amount occurred more than once. */
module AmountGroups {
  import opened Records

  datatype Group = Group(statements: seq<BankStatement>, appearMultiple: bool)

  /** The zero value `&BankStatementGroup{}` a bucket starts from. */
  const Empty: Group := Group([], false)

  /** `Add`: append at the tail; raise the flag when the queue already held something. */
  function Add(g: Group, s: BankStatement): (r: Group)
    ensures |r.statements| == |g.statements| + 1
    ensures r.statements[..|g.statements|] == g.statements
    ensures r.statements[|g.statements|] == s
    ensures r.appearMultiple <==> g.appearMultiple || |g.statements| > 0
  {
    if |g.statements| == 0 then Group([s], g.appearMultiple)
    else Group(g.statements + [s], true)
  }

  /** `Shift`: drop the head. Go panics on an empty slice; the callers only shift non-empty groups. */
  function Shift(g: Group): (r: Group)
    requires |g.statements| > 0
    ensures |r.statements| == |g.statements| - 1
    ensures forall i | 0 <= i < |r.statements| :: r.statements[i] == g.statements[i + 1]
    ensures r.appearMultiple == g.appearMultiple
  {
    Group(g.statements[1..], g.appearMultiple)
  }

  /** Adding the statements of `ss` one after another. */
  function AddAll(g: Group, ss: seq<BankStatement>): Group {
    if ss == [] then g else Add(AddAll(g, ss[..|ss| - 1]), ss[|ss| - 1])
  }

  /** Shifting `k` times. */
  function ShiftN(g: Group, k: nat): (r: Group)
    requires k <= |g.statements|
    ensures |r.statements| == |g.statements| - k
  {
    if k == 0 then g else Shift(ShiftN(g, k - 1))
  }

  /** Adding a sequence appends it, and the flag ends up raised exactly when something was added to a
      group that then held at least two statements (or the flag was already up). */
  lemma {:induction false} AddAllAppends(g: Group, ss: seq<BankStatement>)
    ensures AddAll(g, ss).statements == g.statements + ss
    ensures AddAll(g, ss).appearMultiple <==>
              g.appearMultiple || (|ss| >= 1 && |g.statements| + |ss| >= 2)
  {
    if ss != [] {
      var init := ss[..|ss| - 1];
      AddAllAppends(g, init);
      assert g.statements + init + [ss[|ss| - 1]] == g.statements + ss;
    }
  }

  /** After `n` insertions into a fresh group, the flag is up exactly when `n >= 2`. */
  lemma FlagCountsInsertions(ss: seq<BankStatement>)
    ensures AddAll(Empty, ss).statements == ss
    ensures AddAll(Empty, ss).appearMultiple <==> |ss| >= 2
  {
    AddAllAppends(Empty, ss);
  }

  /** Shifting `k` times removes exactly the first `k` statements and never touches the flag. */
  lemma {:induction false} ShiftNDropsPrefix(g: Group, k: nat)
    requires k <= |g.statements|
    ensures ShiftN(g, k).statements == g.statements[k..]
    ensures ShiftN(g, k).appearMultiple == g.appearMultiple
  {
    if k > 0 {
      ShiftNDropsPrefix(g, k - 1);
    }
  }

  /** The queue is FIFO and the flag is sticky: after inserting `ss` into a fresh group and consuming `k`
      heads, the remaining statements are `ss[k..]` and the flag still says whether `|ss| >= 2`. */
  lemma FifoAndSticky(ss: seq<BankStatement>, k: nat)
    requires k <= |ss|
    ensures k <= |AddAll(Empty, ss).statements|
    ensures ShiftN(AddAll(Empty, ss), k) == Group(ss[k..], |ss| >= 2)
  {
    FlagCountsInsertions(ss);
    ShiftNDropsPrefix(AddAll(Empty, ss), k);
  }
}
