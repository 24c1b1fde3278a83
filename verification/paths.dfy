/** The string helpers the storage layer leans on: Go's `filepath.Base` and `filepath.Ext` for '/'-separated paths,
    `strings.TrimSuffix`, the bank name derived from a statement file name (recon/bank_statement_storage.go:74-75),
    and `strings.Split` on "," used for the comma-separated path list (recon_executor.go:40, main.go:75). */
module Paths {

  const Separator: char := '/'

  /** The path with every trailing separator removed. */
  function TrimTrailingSeparators(path: string): (r: string)
    ensures |r| <= |path| && r == path[..|r|]
    ensures r == [] || r[|r| - 1] != Separator
    ensures forall i | |r| <= i < |path| :: path[i] == Separator
  {
    if path == [] || path[|path| - 1] != Separator then path
    else TrimTrailingSeparators(path[..|path| - 1])
  }

  /** Everything after the last separator. */
  function LastElement(path: string): (r: string)
    ensures |r| <= |path| && r == path[|path| - |r|..]
    ensures Separator !in r
    ensures |r| < |path| ==> path[|path| - |r| - 1] == Separator
  {
    if path == [] || path[|path| - 1] == Separator then []
    else LastElement(path[..|path| - 1]) + [path[|path| - 1]]
  }

  /** `filepath.Base`: "." for the empty path, "/" for a path of separators only, otherwise the last element
      once trailing separators are dropped. */
  function Base(path: string): string {
    if path == [] then "."
    else
      var trimmed := TrimTrailingSeparators(path);
      if trimmed == [] then [Separator] else LastElement(trimmed)
  }

  /** `filepath.Ext`: the suffix from the last '.' of the last element, or "" when that element has no '.'. */
  function Ext(path: string): (r: string)
    ensures |r| <= |path| && r == path[|path| - |r|..]
    ensures r == [] || (r[0] == '.' && '.' !in r[1..] && Separator !in r)
  {
    if path == [] || path[|path| - 1] == Separator then []
    else if path[|path| - 1] == '.' then ['.']
    else
      var e := Ext(path[..|path| - 1]);
      if e == [] then [] else e + [path[|path| - 1]]
  }

  /** `strings.TrimSuffix`. */
  function TrimSuffix(s: string, suffix: string): (r: string)
    ensures |suffix| <= |s| && s[|s| - |suffix|..] == suffix ==> r + suffix == s
    ensures !(|suffix| <= |s| && s[|s| - |suffix|..] == suffix) ==> r == s
  {
    if |suffix| <= |s| && s[|s| - |suffix|..] == suffix then s[..|s| - |suffix|] else s
  }

  /** The bank of a statement file: its base name without the last extension. */
  function BankName(path: string): string {
    var base := Base(path);
    TrimSuffix(base, Ext(base))
  }

  /** The last element of `dir + name` is `name` when `dir` is empty or ends in a separator and `name` has none. */
  lemma {:induction false} LastElementOf(dir: string, name: string)
    requires dir == [] || dir[|dir| - 1] == Separator
    requires forall i | 0 <= i < |name| :: name[i] != Separator
    ensures LastElement(dir + name) == name
    decreases |name|
  {
    if name == [] {
      assert dir + name == dir;
    } else {
      var init := name[..|name| - 1];
      assert (dir + name)[..|dir + name| - 1] == dir + init;
      assert (dir + name)[|dir + name| - 1] == name[|name| - 1];
      LastElementOf(dir, init);
    }
  }

  /** An extension: a '.' followed by anything but '.' and the separator. */
  predicate IsExtension(ext: string) {
    ext != [] && ext[0] == '.' && forall i | 1 <= i < |ext| :: ext[i] != '.' && ext[i] != Separator
  }

  /** The extension of `stem + ext` is `ext`. */
  lemma {:induction false} ExtOf(stem: string, ext: string)
    requires IsExtension(ext)
    ensures Ext(stem + ext) == ext
    decreases |ext|
  {
    var path := stem + ext;
    if |ext| == 1 {
      assert path[|path| - 1] == '.';
    } else {
      var init := ext[..|ext| - 1];
      assert path[..|path| - 1] == stem + init;
      assert path[|path| - 1] == ext[|ext| - 1];
      ExtOf(stem, init);
      assert init + [ext[|ext| - 1]] == ext;
    }
  }

  /** The base name of `dir + name` is `name` for a non-empty `name` without separators. */
  lemma BaseOf(dir: string, name: string)
    requires dir == [] || dir[|dir| - 1] == Separator
    requires name != []
    requires forall i | 0 <= i < |name| :: name[i] != Separator
    ensures Base(dir + name) == name
  {
    var path := dir + name;
    assert path[|path| - 1] == name[|name| - 1];
    assert TrimTrailingSeparators(path) == path;
    LastElementOf(dir, name);
  }

  lemma TrimSuffixOf(stem: string, suffix: string)
    ensures TrimSuffix(stem + suffix, suffix) == stem
  {
    var s := stem + suffix;
    assert s[|s| - |suffix|..] == suffix;
    assert s[..|s| - |suffix|] == stem;
  }

  /** A statement file `dir/stem.ext` belongs to bank `stem`, whatever the directory and even if the stem has dots
      of its own: only the last extension is removed. */
  lemma BankNameOf(dir: string, stem: string, ext: string)
    requires dir == [] || dir[|dir| - 1] == Separator
    requires forall i | 0 <= i < |stem| :: stem[i] != Separator
    requires IsExtension(ext)
    ensures BankName(dir + stem + ext) == stem
  {
    var name := stem + ext;
    assert forall i | 0 <= i < |name| :: name[i] != Separator by {
      forall i | 0 <= i < |name|
        ensures name[i] != Separator
      {
        if i < |stem| {
          assert name[i] == stem[i];
        } else {
          assert name[i] == ext[i - |stem|];
        }
      }
    }
    assert dir + stem + ext == dir + name;
    BaseOf(dir, name);
    ExtOf(stem, ext);
    TrimSuffixOf(stem, ext);
  }

  /** `strings.Split(s, ",")`: the pieces between commas, always at least one. */
  function Split(s: string): (r: seq<string>)
    ensures |r| >= 1
  {
    if s == [] then [[]]
    else
      var rest := Split(s[1..]);
      if s[0] == ',' then [[]] + rest else [[s[0]] + rest[0]] + rest[1..]
  }

  /** `strings.Join(parts, ",")`. */
  function Join(parts: seq<string>): string {
    if parts == [] then []
    else if |parts| == 1 then parts[0]
    else parts[0] + "," + Join(parts[1..])
  }

  /** No piece of a split holds a comma. */
  lemma {:induction false} SplitPieces(s: string)
    ensures forall i | 0 <= i < |Split(s)| :: ',' !in Split(s)[i]
  {
    if s != [] {
      SplitPieces(s[1..]);
      var rest := Split(s[1..]);
      if s[0] != ',' {
        var r := Split(s);
        assert r[0] == [s[0]] + rest[0];
        forall i | 1 <= i < |r|
          ensures ',' !in r[i]
        {
          assert r[i] == rest[i];
        }
      } else {
        var r := Split(s);
        forall i | 1 <= i < |r|
          ensures ',' !in r[i]
        {
          assert r[i] == rest[i - 1];
        }
      }
    }
  }

  /** Splitting loses nothing: joining the pieces back with commas gives the input. */
  lemma {:induction false} JoinSplit(s: string)
    ensures Join(Split(s)) == s
    decreases |s|
  {
    if s != [] {
      var rest := Split(s[1..]);
      JoinSplit(s[1..]);
      if s[0] == ',' {
        assert Split(s)[1..] == rest;
      } else {
        var r := Split(s);
        assert r[1..] == rest[1..];
        if |rest| == 1 {
          assert Join(r) == [s[0]] + rest[0];
        } else {
          assert Join(rest) == rest[0] + "," + Join(rest[1..]);
          assert Join(r) == [s[0]] + rest[0] + "," + Join(rest[1..]);
        }
        assert s == [s[0]] + s[1..];
      }
    }
  }

  /** Splitting inverts joining for any non-empty list of comma-free pieces. */
  lemma {:induction false} SplitJoin(parts: seq<string>)
    requires |parts| >= 1
    requires forall i | 0 <= i < |parts| :: ',' !in parts[i]
    ensures Split(Join(parts)) == parts
    decreases |Join(parts)|
  {
    var head, tail := parts[0], parts[1..];
    var j := Join(parts);
    if head == [] {
      if tail != [] {
        assert j == "," + Join(tail);
        assert j[1..] == Join(tail);
        SplitJoin(tail);
        assert parts == [[]] + tail;
      }
    } else {
      var shorter := [head[1..]] + tail;
      assert shorter[1..] == tail;
      assert ',' !in head[1..] by {
        forall k | 0 <= k < |head| - 1
          ensures head[1..][k] != ','
        {
          assert head[1..][k] == head[k + 1];
        }
      }
      assert forall i | 0 <= i < |shorter| :: ',' !in shorter[i] by {
        forall i | 0 <= i < |shorter|
          ensures ',' !in shorter[i]
        {
          if i > 0 {
            assert shorter[i] == parts[i];
          }
        }
      }
      if tail == [] {
        assert Join(shorter) == head[1..];
        assert j == head;
      } else {
        assert Join(shorter) == head[1..] + "," + Join(tail);
        assert j == head + "," + Join(tail);
      }
      assert j[0] == head[0] && j[1..] == Join(shorter);
      SplitJoin(shorter);
      assert head == [head[0]] + head[1..];
      assert parts == [head] + tail;
    }
  }
}
