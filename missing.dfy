/** Missing-import detection: for each required package, the files (by
    path, in input order) whose import list does not hold it. */
module MissingImports {
  import opened GoFiles

  /** The list stored under `key`, or the empty list for a key not yet
      present (Go's nil slice). */
  function Get<K, V>(m: map<K, seq<V>>, key: K): seq<V> {
    if key in m then m[key] else []
  }

  /** Go's `slices.Contains`: a scan of `s` for an element equal to `x`. */
  function Contains(s: seq<string>, x: string): bool {
    if s == [] then false else s[0] == x || Contains(s[1..], x)
  }

  /** The scan finds `x` exactly when `x` is an element of `s`. */
  lemma {:induction false} ContainsIsMembership(s: seq<string>, x: string)
    ensures Contains(s, x) <==> x in s
  {
    if s != [] {
      ContainsIsMembership(s[1..], x);
      assert s == [s[0]] + s[1..];
    }
  }

  /** How often `p` occurs in `pkgs`. */
  function Count<T(==)>(pkgs: seq<T>, p: T): (n: nat)
    ensures n <= |pkgs|
    ensures n == 0 <==> p !in pkgs
  {
    if pkgs == [] then 0
    else
      assert pkgs == pkgs[..|pkgs| - 1] + [pkgs[|pkgs| - 1]];
      Count(pkgs[..|pkgs| - 1], p) + (if pkgs[|pkgs| - 1] == p then 1 else 0)
  }

  /** `n` copies of `x`. */
  function Repeat<T>(x: T, n: nat): (r: seq<T>)
    ensures |r| == n
    ensures forall i :: 0 <= i < n ==> r[i] == x
  {
    if n == 0 then [] else Repeat(x, n - 1) + [x]
  }

  /** The paths of the files whose imports do not contain `pkg`, in input
      order. */
  function Lacking(files: seq<GoFile>, pkg: string): (r: seq<string>)
    ensures |r| <= |files|
  {
    if files == [] then []
    else
      var f := files[|files| - 1];
      Lacking(files[..|files| - 1], pkg) + (if Contains(f.imports, pkg) then [] else [f.path])
  }

  /** Every element of `s` repeated `n` times in place. */
  function Stutter<T>(s: seq<T>, n: nat): (r: seq<T>)
    ensures |r| == |s| * n
  {
    if s == [] then []
    else Stutter(s[..|s| - 1], n) + Repeat(s[|s| - 1], n)
  }

  /** The repeated list is empty exactly when there is nothing to repeat
      or each element is repeated zero times. */
  lemma {:induction false} StutterEmpty<T>(s: seq<T>, n: nat)
    ensures Stutter(s, n) == [] <==> s == [] || n == 0
  {
    if s != [] && n != 0 {
      assert |Stutter(s, n)| == |s| * n > 0 by {
        assert |s| * n >= n;
      }
    }
  }

  /** A path shows up in a stuttered list exactly when the repeat count is
      positive and it shows up in the list. */
  lemma {:induction false} StutterMembers<T>(s: seq<T>, n: nat, p: T)
    ensures p in Stutter(s, n) <==> n > 0 && p in s
  {
    if s != [] {
      var init := s[..|s| - 1];
      StutterMembers(init, n, p);
      assert s == init + [s[|s| - 1]];
      if n > 0 {
        assert Repeat(s[|s| - 1], n)[0] == s[|s| - 1];
      }
    }
  }

  /** A path is listed as lacking `pkg` exactly when some file with that
      path does not import `pkg`. */
  lemma {:induction false} LackingMembers(files: seq<GoFile>, pkg: string, p: string)
    ensures p in Lacking(files, pkg) <==>
              exists k :: 0 <= k < |files| && files[k].path == p && pkg !in files[k].imports
  {
    if files != [] {
      var init := files[..|files| - 1];
      LackingMembers(init, pkg, p);
      ContainsIsMembership(files[|files| - 1].imports, pkg);
      forall k | 0 <= k < |files|
        ensures Contains(files[k].imports, pkg) <==> pkg in files[k].imports
      {
        ContainsIsMembership(files[k].imports, pkg);
      }
      assert forall k :: 0 <= k < |init| ==> init[k] == files[k];
      if p in Lacking(files, pkg) && p !in Lacking(init, pkg) {
        assert files[|files| - 1].path == p;
      }
    }
  }

  /** `Lacking` distributes over concatenation: it keeps the input order. */
  lemma {:induction false} LackingAppend(a: seq<GoFile>, b: seq<GoFile>, pkg: string)
    ensures Lacking(a + b, pkg) == Lacking(a, pkg) + Lacking(b, pkg)
  {
    if b == [] {
      assert a + b == a;
    } else {
      var init := b[..|b| - 1];
      assert (a + b)[..|a + b| - 1] == a + init;
      LackingAppend(a, init, pkg);
    }
  }

  /** Repeating a list extended by one element adds that element's
      repetitions at the end. */
  lemma StutterSnoc<T>(s: seq<T>, x: T, n: nat)
    ensures Stutter(s + [x], n) == Stutter(s, n) + Repeat(x, n)
  {
    assert (s + [x])[..|s + [x]| - 1] == s;
  }

  /** With `pkg` required once, the list under it is exactly the lacking
      paths. */
  lemma {:induction false} StutterOnce<T>(s: seq<T>)
    ensures Stutter(s, 1) == s
  {
    if s != [] {
      StutterOnce(s[..|s| - 1]);
      assert s == s[..|s| - 1] + [s[|s| - 1]];
    }
  }

  /** The map after the required packages `pkgs` have been looked at for
      `file`, starting from `m`: the fold the inner loop performs. */
  function AddFile(m: map<string, seq<string>>, file: GoFile, pkgs: seq<string>): map<string, seq<string>> {
    if pkgs == [] then m
    else
      var m' := AddFile(m, file, pkgs[..|pkgs| - 1]);
      var pkg := pkgs[|pkgs| - 1];
      if !Contains(file.imports, pkg) then m'[pkg := Get(m', pkg) + [file.path]] else m'
  }

  /** The map after every file of `files` has been looked at: the fold the
      outer loop performs. */
  function MissingMap(files: seq<GoFile>, pkgs: seq<string>): map<string, seq<string>> {
    if files == [] then map[]
    else AddFile(MissingMap(files[..|files| - 1], pkgs), files[|files| - 1], pkgs)
  }

  /** Looking at `pkgs` for `file` appends the file's path under each package
      it lacks, once per occurrence of the package in `pkgs`. */
  lemma {:induction false} AddFileGet(m: map<string, seq<string>>, file: GoFile, pkgs: seq<string>, pkg: string)
    ensures Contains(file.imports, pkg) ==> Get(AddFile(m, file, pkgs), pkg) == Get(m, pkg)
    ensures !Contains(file.imports, pkg) ==>
              Get(AddFile(m, file, pkgs), pkg) == Get(m, pkg) + Repeat(file.path, Count(pkgs, pkg))
    ensures pkg in AddFile(m, file, pkgs) <==> pkg in m || (pkg in pkgs && !Contains(file.imports, pkg))
  {
    if pkgs != [] {
      var init := pkgs[..|pkgs| - 1];
      var last := pkgs[|pkgs| - 1];
      var m' := AddFile(m, file, init);
      AddFileGet(m, file, init, pkg);
      assert pkgs == init + [last];
      var c := Count(init, pkg);
      assert Count(pkgs, pkg) == c + (if last == pkg then 1 else 0);
      if Contains(file.imports, last) {
        assert AddFile(m, file, pkgs) == m';
      } else if last == pkg {
        assert AddFile(m, file, pkgs) == m'[pkg := Get(m', pkg) + [file.path]];
        assert Get(m', pkg) == Get(m, pkg) + Repeat(file.path, c);
        assert Repeat(file.path, c + 1) == Repeat(file.path, c) + [file.path];
        assert Get(m, pkg) + Repeat(file.path, c) + [file.path] == Get(m, pkg) + Repeat(file.path, c + 1);
      } else {
        assert AddFile(m, file, pkgs) == m'[last := Get(m', last) + [file.path]];
      }
    }
  }

  /** The whole fold holds, under each package, the paths lacking it,
      each repeated once per occurrence of the package in `pkgs`. */
  lemma {:induction false} MissingMapGet(files: seq<GoFile>, pkgs: seq<string>, pkg: string)
    ensures Get(MissingMap(files, pkgs), pkg) == Stutter(Lacking(files, pkg), Count(pkgs, pkg))
    ensures pkg in MissingMap(files, pkgs) <==> pkg in pkgs && Lacking(files, pkg) != []
  {
    if files != [] {
      var init := files[..|files| - 1];
      var f := files[|files| - 1];
      MissingMapGet(init, pkgs, pkg);
      AddFileGet(MissingMap(init, pkgs), f, pkgs, pkg);
      var l := Lacking(init, pkg);
      var c := Count(pkgs, pkg);
      assert MissingMap(files, pkgs) == AddFile(MissingMap(init, pkgs), f, pkgs);
      if Contains(f.imports, pkg) {
        assert Lacking(files, pkg) == l + [];
        assert Lacking(files, pkg) == l;
      } else {
        assert Lacking(files, pkg) == l + [f.path];
        StutterSnoc(l, f.path, c);
      }
      StutterEmpty(Lacking(files, pkg), c);
      StutterEmpty(l, c);
    }
  }

  /** For every file and every required package, appends the file's path
      under the package when the file does not import it. */
  method GetMissingImports(files: seq<GoFile>, pkgs: seq<string>) returns (imports: map<string, seq<string>>)
    ensures forall pkg :: pkg in imports <==> pkg in pkgs && Lacking(files, pkg) != []
    ensures forall pkg :: Get(imports, pkg) == Stutter(Lacking(files, pkg), Count(pkgs, pkg))
  {
    imports := map[];
    var i := 0;
    while i < |files|
      invariant 0 <= i <= |files|
      invariant imports == MissingMap(files[..i], pkgs)
    {
      var file := files[i];
      ghost var start := imports;
      var j := 0;
      while j < |pkgs|
        invariant 0 <= j <= |pkgs|
        invariant imports == AddFile(start, file, pkgs[..j])
      {
        var pkg := pkgs[j];
        if !Contains(file.imports, pkg) {
          imports := imports[pkg := Get(imports, pkg) + [file.path]];
        }
        assert pkgs[..j + 1][..j] == pkgs[..j];
        j := j + 1;
      }
      assert pkgs[..|pkgs|] == pkgs;
      assert files[..i + 1][..i] == files[..i];
      i := i + 1;
    }
    assert files[..|files|] == files;
    forall pkg
      ensures pkg in imports <==> pkg in pkgs && Lacking(files, pkg) != []
      ensures Get(imports, pkg) == Stutter(Lacking(files, pkg), Count(pkgs, pkg))
    {
      MissingMapGet(files, pkgs, pkg);
    }
  }

  /** The path `p` is listed under `pkg` exactly when `pkg` is required and
      some file with path `p` does not import `pkg` (exact string match). */
  lemma MissingIff(files: seq<GoFile>, pkgs: seq<string>, pkg: string, p: string)
    ensures p in Stutter(Lacking(files, pkg), Count(pkgs, pkg)) <==>
              pkg in pkgs && exists k :: 0 <= k < |files| && files[k].path == p && pkg !in files[k].imports
  {
    StutterMembers(Lacking(files, pkg), Count(pkgs, pkg), p);
    LackingMembers(files, pkg, p);
  }
}
