/** The file loop of `Execute` (recon/recon_executor.go:41-54; root recon_executor.go:41-55; main.go:75-89): read
    the statement files one by one, stop at the first read error, insert each file's statements into the buckets. */
module Loading {
  import opened Wrappers
  import opened Seqs
  import opened Records
  import opened Buckets

  datatype LoadState = LoadState(buckets: Buckets, statements: seq<BankStatement>, amount: int)

  /** The paths actually read, and either the load state or the first read error. */
  datatype Loaded = Loaded(read: seq<string>, result: Result<LoadState, Error>)

  function LoadFiles(read: string -> Result<seq<BankStatement>, Error>, paths: seq<string>): Loaded {
    if paths == [] then Loaded([], Ok(LoadState(map[], [], 0)))
    else LoadNext(LoadFiles(read, paths[..|paths| - 1]), read(paths[|paths| - 1]), paths[|paths| - 1])
  }

  /** One iteration: after an earlier error nothing more is read; otherwise `path` is read and, on success, its
      statements are inserted and summed. */
  function LoadNext(prev: Loaded, got: Result<seq<BankStatement>, Error>, path: string): Loaded {
    if prev.result.Err? then prev
    else if got.Err? then Loaded(prev.read + [path], Err(got.error))
    else
      var st := prev.result.value;
      Loaded(prev.read + [path],
             Ok(LoadState(Load(st.buckets, got.value), st.statements + got.value, st.amount + StatementSum(got.value))))
  }

  /** Whether every path reads without error. */
  predicate AllRead(read: string -> Result<seq<BankStatement>, Error>, paths: seq<string>) {
    forall i | 0 <= i < |paths| :: read(paths[i]).Ok?
  }

  /** A path sequence reads entirely when its front does and its last path does. */
  lemma AllReadLast(read: string -> Result<seq<BankStatement>, Error>, paths: seq<string>)
    requires paths != [] && AllRead(read, paths[..|paths| - 1]) && read(paths[|paths| - 1]).Ok?
    ensures AllRead(read, paths)
  {
    forall i | 0 <= i < |paths|
      ensures read(paths[i]).Ok?
    {
      if i < |paths| - 1 {
        assert paths[i] == paths[..|paths| - 1][i];
      }
    }
  }

  /** The statements of all files, in path order and then row order (failed reads contribute nothing). */
  function Flatten(read: string -> Result<seq<BankStatement>, Error>, paths: seq<string>): seq<BankStatement> {
    if paths == [] then []
    else
      Flatten(read, paths[..|paths| - 1])
        + (if read(paths[|paths| - 1]).Ok? then read(paths[|paths| - 1]).value else [])
  }

  /** One successful read extends a load of `all` to a load of `all + ss`. */
  lemma LoadNextOk(read: seq<string>, all: seq<BankStatement>, ss: seq<BankStatement>, path: string)
    ensures LoadNext(Loaded(read, Ok(LoadState(Load(map[], all), all, StatementSum(all)))), Ok(ss), path)
              == Loaded(read + [path], Ok(LoadState(Load(map[], all + ss), all + ss, StatementSum(all + ss))))
  {
    LoadConcat(map[], all, ss);
    StatementSumConcat(all, ss);
  }

  /** When every file reads, the loop has read every path once, in order, and holds the buckets and sum of all
      statements inserted in path order then row order. */
  lemma {:induction false} LoadFilesSucceeds(read: string -> Result<seq<BankStatement>, Error>, paths: seq<string>)
    requires AllRead(read, paths)
    ensures LoadFiles(read, paths).read == paths
    ensures LoadFiles(read, paths).result
              == Ok(LoadState(Load(map[], Flatten(read, paths)), Flatten(read, paths), StatementSum(Flatten(read, paths))))
  {
    if paths != [] {
      var init, path := paths[..|paths| - 1], paths[|paths| - 1];
      assert AllRead(read, init) by {
        forall i | 0 <= i < |init|
          ensures read(init[i]).Ok?
        {
          assert init[i] == paths[i];
        }
      }
      LoadFilesSucceeds(read, init);
      assert read(path).Ok?;
      assert Flatten(read, paths) == Flatten(read, init) + read(path).value;
      LoadNextOk(init, Flatten(read, init), read(path).value, path);
      FrontLast(paths);
    }
  }

  /** A failure at the last path, after every earlier path read, ends the loop there. */
  lemma LoadFilesFailLast(read: string -> Result<seq<BankStatement>, Error>, paths: seq<string>)
    requires paths != [] && AllRead(read, paths[..|paths| - 1]) && read(paths[|paths| - 1]).Err?
    ensures LoadFiles(read, paths) == Loaded(paths, Err(read(paths[|paths| - 1]).error))
  {
    var init := paths[..|paths| - 1];
    LoadFilesSucceeds(read, init);
    FrontLast(paths);
  }

  /** When some file fails to read, the loop stopped right after the first failing path `paths[k]`, having read
      exactly the paths up to it, and reports that path's error. */
  lemma {:induction false} LoadFilesFails(read: string -> Result<seq<BankStatement>, Error>, paths: seq<string>)
    returns (k: nat)
    requires !AllRead(read, paths)
    ensures k < |paths|
    ensures LoadFiles(read, paths).read == paths[..k + 1]
    ensures AllRead(read, paths[..k])
    ensures read(paths[k]).Err?
    ensures LoadFiles(read, paths).result == Err(read(paths[k]).error)
  {
    var init, path := paths[..|paths| - 1], paths[|paths| - 1];
    if AllRead(read, init) {
      if read(path).Ok? {
        AllReadLast(read, paths);
        assert false;
      }
      LoadFilesFailLast(read, paths);
      k := |init|;
      assert paths[..k + 1] == paths;
      assert paths[..k] == init;
    } else {
      k := LoadFilesFails(read, init);
      var prev := LoadFiles(read, init);
      assert prev.result.Err?;
      assert LoadFiles(read, paths) == LoadNext(prev, read(path), path) == prev;
      assert paths[..k + 1] == init[..k + 1];
      assert paths[..k] == init[..k];
      assert paths[k] == init[k];
    }
  }
}
