/** The two `path/filepath` functions the filter uses, as a split of the
    path at its last `/` (no cleaning of `.`, `..` or repeated slashes). */
module Paths {

  /** Index of the last `/` in `p`, or -1 when there is none. */
  function LastSlash(p: string): (i: int)
    ensures -1 <= i < |p|
    ensures i >= 0 ==> p[i] == '/'
    ensures forall k :: i < k < |p| ==> p[k] != '/'
  {
    if p == [] then -1
    else if p[|p| - 1] == '/' then |p| - 1
    else LastSlash(p[..|p| - 1])
  }

  /** `filepath.Dir`: everything before the last `/`; `.` when there is no
      `/`, and `/` when the only one is the first character. */
  function Dir(p: string): string {
    var i := LastSlash(p);
    if i < 0 then "." else if i == 0 then "/" else p[..i]
  }

  /** `filepath.Base`: everything after the last `/`; `.` for the empty path. */
  function Base(p: string): string {
    if p == [] then "." else p[LastSlash(p) + 1..]
  }

  /** A path with a `/` is its directory, a `/` and its base name, except
      at the root, where the directory is `/` itself and the text before
      the `/` is empty. The base name holds no `/`, and a path without `/`
      is its own base name, with directory `.`. */
  lemma DirBaseSplit(p: string)
    ensures '/' !in Base(p)
    ensures '/' !in p && p != [] ==> Dir(p) == "." && Base(p) == p
    ensures '/' in p ==> LastSlash(p) >= 0
    ensures '/' in p && LastSlash(p) == 0 ==> Dir(p) == "/" && p == "/" + Base(p)
    ensures '/' in p && LastSlash(p) > 0 ==> p == Dir(p) + "/" + Base(p)
  {
    var i := LastSlash(p);
    if '/' in p {
      var j :| 0 <= j < |p| && p[j] == '/';
      assert i >= j;
      assert Base(p) == p[i + 1..];
      assert p == p[..i] + [p[i]] + p[i + 1..];
    }
  }
}
