/** Searching a sequence for its first element with a property, shared by
    the canonicalisation (the first file seen in a directory) and the
    import rewriter (the first line of a given kind). */
module Search {

  /** Index of the first element satisfying `p`, or `|s|` when none does. */
  function FirstIndex<T>(s: seq<T>, p: T -> bool): (i: nat)
    ensures i <= |s|
    ensures i < |s| ==> p(s[i])
    ensures forall k :: 0 <= k < i ==> !p(s[k])
  {
    if s == [] then 0
    else if p(s[0]) then 0
    else 1 + FirstIndex(s[1..], p)
  }

  /** The first match is at `d` when element `d` matches (or `d` is the end)
      and no earlier element does. */
  lemma FirstIndexAt<T>(s: seq<T>, p: T -> bool, d: nat)
    requires d <= |s|
    requires d < |s| ==> p(s[d])
    requires forall k :: 0 <= k < d ==> !p(s[k])
    ensures FirstIndex(s, p) == d
  {
  }

  /** Appending an element moves the first match only when there was none. */
  lemma FirstIndexSnoc<T>(s: seq<T>, x: T, p: T -> bool)
    ensures FirstIndex(s + [x], p) ==
              if FirstIndex(s, p) < |s| then FirstIndex(s, p) else if p(x) then |s| else |s| + 1
  {
    var d := FirstIndex(s, p);
    var t := s + [x];
    assert forall k :: 0 <= k < |s| ==> t[k] == s[k];
    if d < |s| {
      FirstIndexAt(t, p, d);
    } else if p(x) {
      FirstIndexAt(t, p, |s|);
    } else {
      FirstIndexAt(t, p, |s| + 1);
    }
  }
}
