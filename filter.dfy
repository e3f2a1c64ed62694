/** Canonicalisation: keep one source file per directory. A file named
    `<module>.go` is preferred; otherwise the first file seen for the
    directory is kept.

    The fold is stated for any record type `R` with a key `key` (the
    directory of a file) and a mark `mark` (the file has the canonical
    name), and used with `DirOf` and `IsMain`. */
module Filter {
  import opened GoFiles
  import opened Paths
  import opened Search

  /** The canonical base name for a module name. */
  function MainFile(moduleName: string): string {
    moduleName + ".go"
  }

  /** The directory a file lies in. */
  function DirOf(f: GoFile): string {
    Dir(f.path)
  }

  /** Whether a file has the canonical base name `mainFile`. */
  function IsMain(mainFile: string): GoFile -> bool {
    (f: GoFile) => Base(f.path) == mainFile
  }

  /** The keys (directories) of a list of records. */
  ghost function Keys<R, K>(files: seq<R>, key: R -> K): set<K> {
    set f | f in files :: key(f)
  }

  /** Whether a record has key `d`. */
  function HasKey<R, K(==)>(key: R -> K, d: K): R -> bool {
    (f: R) => key(f) == d
  }

  /** A key is among the input's keys exactly when some record has it. */
  lemma InKeys<R, K>(files: seq<R>, key: R -> K, d: K)
    ensures d in Keys(files, key) <==> FirstIndex(files, HasKey(key, d)) < |files|
  {
    var i := FirstIndex(files, HasKey(key, d));
    if i < |files| {
      assert files[i] in files;
    }
  }

  /** Index of the last marked record with key `d`, or -1. */
  function LastMarked<R, K(==)>(files: seq<R>, key: R -> K, mark: R -> bool, d: K): (i: int)
    ensures -1 <= i < |files|
    ensures i >= 0 ==> key(files[i]) == d && mark(files[i])
    ensures forall k :: i < k < |files| ==> !(key(files[k]) == d && mark(files[k]))
  {
    if files == [] then -1
    else if key(files[|files| - 1]) == d && mark(files[|files| - 1]) then |files| - 1
    else LastMarked(files[..|files| - 1], key, mark, d)
  }

  /** The record kept for key `d`: the last marked record with key `d` if
      there is one, else the first record with key `d`. */
  function Kept<R, K(==)>(files: seq<R>, key: R -> K, mark: R -> bool, d: K): (f: R)
    requires FirstIndex(files, HasKey(key, d)) < |files|
    ensures f in files && key(f) == d
  {
    var c := LastMarked(files, key, mark, d);
    if c >= 0 then files[c] else files[FirstIndex(files, HasKey(key, d))]
  }

  /** Adding one record changes the record kept for its key exactly when
      the record is marked or its key is new. */
  lemma KeptSnoc<R, K>(files: seq<R>, f: R, key: R -> K, mark: R -> bool, d: K)
    requires FirstIndex(files + [f], HasKey(key, d)) < |files| + 1
    ensures FirstIndex(files, HasKey(key, d)) < |files| || key(f) == d
    ensures Kept(files + [f], key, mark, d) ==
              if key(f) == d && (mark(f) || FirstIndex(files, HasKey(key, d)) == |files|) then f
              else Kept(files, key, mark, d)
  {
    var fs := files + [f];
    assert fs[..|files|] == files;
    FirstIndexSnoc(files, f, HasKey(key, d));
    if FirstIndex(files, HasKey(key, d)) == |files| {
      var c := LastMarked(files, key, mark, d);
      assert c < 0;
    }
  }

  /** One step of the fold, for one key `d`: `visit` holds `d` exactly when
      some record seen so far has it, and then holds the record kept for
      `d`. */
  lemma VisitStepAt<R, K>(files: seq<R>, f: R, key: R -> K, mark: R -> bool,
                              visit: map<K, R>, visit': map<K, R>, d: K)
    requires d in visit <==> FirstIndex(files, HasKey(key, d)) < |files|
    requires d in visit ==> visit[d] == Kept(files, key, mark, d)
    requires key(f) in visit <==> FirstIndex(files, HasKey(key, key(f))) < |files|
    requires visit' == if mark(f) || key(f) !in visit then visit[key(f) := f] else visit
    ensures d in visit' <==> FirstIndex(files + [f], HasKey(key, d)) < |files| + 1
    ensures d in visit' ==> visit'[d] == Kept(files + [f], key, mark, d)
  {
    FirstIndexSnoc(files, f, HasKey(key, d));
    if d in visit' {
      KeptSnoc(files, f, key, mark, d);
    }
  }

  /** `visit` holds, for exactly the keys of `files`, the record kept for
      each. */
  ghost predicate VisitHolds<R, K(!new)>(files: seq<R>, key: R -> K, mark: R -> bool, visit: map<K, R>) {
    && (forall d :: d in visit <==> FirstIndex(files, HasKey(key, d)) < |files|)
    && (forall d :: d in visit ==> FirstIndex(files, HasKey(key, d)) < |files| && visit[d] == Kept(files, key, mark, d))
  }

  /** One step of the fold, taking record `i`, keeps `visit` holding, for
      exactly the keys seen so far, the record kept for each. */
  lemma VisitStep<R, K(!new)>(files: seq<R>, i: nat, key: R -> K, mark: R -> bool,
                              visit: map<K, R>, visit': map<K, R>)
    requires i < |files|
    requires VisitHolds(files[..i], key, mark, visit)
    requires visit' == if mark(files[i]) || key(files[i]) !in visit then visit[key(files[i]) := files[i]] else visit
    ensures VisitHolds(files[..i + 1], key, mark, visit')
  {
    var seen, f := files[..i], files[i];
    var next := files[..i + 1];
    assert next == seen + [f];
    assert key(f) in visit <==> FirstIndex(seen, HasKey(key, key(f))) < |seen|;
    forall d
      ensures d in visit' <==> FirstIndex(next, HasKey(key, d)) < |next|
      ensures d in visit' ==> visit'[d] == Kept(next, key, mark, d)
    {
      VisitStepAt(seen, f, key, mark, visit, visit', d);
    }
  }

  /** A marked (canonically named) record is kept for its key wherever it
      stands in the input, in that the kept record is marked; when no other
      record with that key is marked, it is exactly the kept record. */
  lemma CanonicalWins<R, K>(files: seq<R>, key: R -> K, mark: R -> bool, i: nat)
    requires i < |files| && mark(files[i])
    ensures FirstIndex(files, HasKey(key, key(files[i]))) < |files|
    ensures mark(Kept(files, key, mark, key(files[i])))
    ensures (forall k :: 0 <= k < |files| && k != i ==> !(key(files[k]) == key(files[i]) && mark(files[k])))
            ==> Kept(files, key, mark, key(files[i])) == files[i]
  {
    var d := key(files[i]);
    var c := LastMarked(files, key, mark, d);
    assert c >= i;
  }

  /** Without a marked record for the key, the first record seen with the
      key is kept and later records never replace it. */
  lemma FirstSeenKept<R, K>(files: seq<R>, key: R -> K, mark: R -> bool, i: nat)
    requires i < |files|
    requires forall k :: 0 <= k < i ==> key(files[k]) != key(files[i])
    requires forall k :: 0 <= k < |files| ==> !(key(files[k]) == key(files[i]) && mark(files[k]))
    ensures FirstIndex(files, HasKey(key, key(files[i]))) < |files|
    ensures Kept(files, key, mark, key(files[i])) == files[i]
  {
    var d := key(files[i]);
    var a := FirstIndex(files, HasKey(key, d));
    assert a <= i;
    var c := LastMarked(files, key, mark, d);
    assert c < 0;
  }

  /** `ret` lists the values of `visit`, each once: as many records as
      keys, every value among them, each the value under its own key, no
      two with the same key. */
  ghost predicate ListsValues<R, K(!new)>(visit: map<K, R>, key: R -> K, ret: seq<R>) {
    && |ret| == |visit.Keys|
    && (forall d :: d in visit ==> visit[d] in ret)
    && (forall k :: 0 <= k < |ret| ==> key(ret[k]) in visit && ret[k] == visit[key(ret[k])])
    && (forall j, k :: 0 <= j < k < |ret| ==> key(ret[j]) != key(ret[k]))
  }

  /** `ret` holds one record per key of `files`: as many records as keys,
      no two with the same key, and for every key the record kept for it. */
  ghost predicate OnePerKey<R, K(!new)>(files: seq<R>, key: R -> K, mark: R -> bool, ret: seq<R>) {
    && |ret| == |Keys(files, key)|
    && (forall j, k :: 0 <= j < k < |ret| ==> key(ret[j]) != key(ret[k]))
    && (forall k :: 0 <= k < |files| ==> Kept(files, key, mark, key(files[k])) in ret)
    && (forall k :: 0 <= k < |ret| ==>
          FirstIndex(files, HasKey(key, key(ret[k]))) < |files| && ret[k] == Kept(files, key, mark, key(ret[k])))
  }

  /** Lists the values of `visit`, one per key, in an order the model
      leaves open, as Go's iteration over a map does. */
  method ListKept<R, K(==,!new)>(visit: map<K, R>, key: R -> K) returns (ret: seq<R>)
    requires forall d :: d in visit ==> key(visit[d]) == d
    ensures ListsValues(visit, key, ret)
  {
    ret := [];
    var rest := visit.Keys;
    while rest != {}
      invariant rest <= visit.Keys
      invariant |ret| + |rest| == |visit.Keys|
      invariant forall d :: d in visit && d !in rest ==> visit[d] in ret
      invariant forall k :: 0 <= k < |ret| ==> key(ret[k]) in visit && key(ret[k]) !in rest
      invariant forall k :: 0 <= k < |ret| ==> ret[k] == visit[key(ret[k])]
      invariant forall j, k :: 0 <= j < k < |ret| ==> key(ret[j]) != key(ret[k])
      decreases rest
    {
      var d :| d in rest;
      var f := visit[d];
      ghost var old_ret := ret;
      ret := ret + [f];
      assert forall k :: 0 <= k < |ret| - 1 ==> ret[k] == old_ret[k];
      rest := rest - {d};
    }
  }

  /** The fold of `Filter`: for each record in turn, a marked record is
      stored under its key, and an unmarked one only when its key is not
      yet stored. */
  method Visit<R, K(==,!new)>(files: seq<R>, key: R -> K, mark: R -> bool) returns (visit: map<K, R>)
    ensures VisitHolds(files, key, mark, visit)
  {
    visit := map[];
    var i := 0;
    while i < |files|
      invariant 0 <= i <= |files|
      invariant VisitHolds(files[..i], key, mark, visit)
    {
      var file := files[i];
      ghost var old_visit := visit;
      var dir := key(file);
      if mark(file) {
        visit := visit[dir := file];
      } else if dir !in visit {
        visit := visit[dir := file];
      }
      VisitStep(files, i, key, mark, old_visit, visit);
      i := i + 1;
    }
    assert files[..|files|] == files;
  }

  /** Keeps one file per directory: the fold over the files with the
      directory as key and the canonical name `<module>.go` as mark, then
      the kept files listed. */
  method Filter(moduleName: string, files: seq<GoFile>) returns (ret: seq<GoFile>)
    ensures OnePerKey(files, DirOf, IsMain(MainFile(moduleName)), ret)
  {
    var mainFile := MainFile(moduleName);
    var visit := Visit(files, DirOf, IsMain(mainFile));
    VisitKeyed(files, DirOf, IsMain(mainFile), visit);
    ret := ListKept(visit, DirOf);
    KeptListed(files, DirOf, IsMain(mainFile), visit, ret);
  }

  /** Every record in the fold's map is stored under its own key. */
  lemma VisitKeyed<R, K(!new)>(files: seq<R>, key: R -> K, mark: R -> bool, visit: map<K, R>)
    requires VisitHolds(files, key, mark, visit)
    ensures forall d :: d in visit ==> key(visit[d]) == d
  {
  }

  /** Listing the fold's map yields one record per key of the input, each
      the record kept for its key. */
  lemma KeptListed<R, K(!new)>(files: seq<R>, key: R -> K, mark: R -> bool, visit: map<K, R>, ret: seq<R>)
    requires VisitHolds(files, key, mark, visit)
    requires ListsValues(visit, key, ret)
    ensures OnePerKey(files, key, mark, ret)
  {
    assert visit.Keys == Keys(files, key) by {
      forall d ensures d in visit <==> d in Keys(files, key) {
        InKeys(files, key, d);
      }
    }
    forall k | 0 <= k < |files|
      ensures Kept(files, key, mark, key(files[k])) in ret
    {
      InKeys(files, key, key(files[k]));
      assert files[k] in files;
    }
  }
}
