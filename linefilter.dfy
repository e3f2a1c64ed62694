/** A line filter stage: every line of the input is handed, in order, to a
    closure that returns what to write in its place. The closures of the
    import rewriter keep one piece of state, a flag they read and set; here
    that flag is threaded through the closure explicitly, which returns the
    lines to write together with the flag's new value. */
module LineFilter {
  import opened Search

  /** What a filter writes for `lines`, starting with flag `found`, and the
      flag's final value: the closure applied line by line, outputs joined. */
  function Run<T>(lines: seq<T>, filter: (bool, T) -> (seq<T>, bool), found: bool): (seq<T>, bool)
  {
    if lines == [] then ([], found)
    else
      var prev := Run(lines[..|lines| - 1], filter, found);
      var step := filter(prev.1, lines[|lines| - 1]);
      (prev.0 + step.0, step.1)
  }

  /** The filter stage itself: one pass over the lines, feeding each to the
      closure with the current flag and appending what it returns. */
  method Sed<T>(lines: seq<T>, filter: (bool, T) -> (seq<T>, bool), found0: bool) returns (out: seq<T>, found: bool)
    ensures (out, found) == Run(lines, filter, found0)
  {
    out, found := [], found0;
    var i := 0;
    while i < |lines|
      invariant 0 <= i <= |lines|
      invariant (out, found) == Run(lines[..i], filter, found0)
    {
      var step := filter(found, lines[i]);
      assert lines[..i + 1][..i] == lines[..i];
      out, found := out + step.0, step.1;
      i := i + 1;
    }
    assert lines[..|lines|] == lines;
  }

  /** A filter that, until its flag is set, replaces the first line
      satisfying `matches` by `edit` of it and sets the flag, and otherwise
      copies lines. */
  ghost predicate EditsFirst<T(!new)>(filter: (bool, T) -> (seq<T>, bool), matches: T -> bool, edit: T -> seq<T>) {
    forall found: bool, line: T ::
      filter(found, line) ==
        if found then ([line], true)
        else if matches(line) then (edit(line), true)
        else ([line], false)
  }

  /** Appending an element after an edited sequence is the same as editing
      the extended sequence. */
  lemma SpliceSnoc<T>(s: seq<T>, x: T, d: nat, e: seq<T>)
    requires d < |s|
    ensures s[..d] + e + s[d + 1..] + [x] == (s + [x])[..d] + e + (s + [x])[d + 1..]
  {
    assert (s + [x])[..d] == s[..d];
    assert (s + [x])[d + 1..] == s[d + 1..] + [x];
  }

  /** Started with the flag clear, such a filter edits exactly the first
      matching line and keeps every other line; the final flag says whether
      any line matched. */
  lemma {:induction false} RunEditsFirst<T(!new)>(lines: seq<T>, filter: (bool, T) -> (seq<T>, bool), matches: T -> bool, edit: T -> seq<T>)
    requires EditsFirst(filter, matches, edit)
    ensures Run(lines, filter, false).1 <==> FirstIndex(lines, matches) < |lines|
    ensures FirstIndex(lines, matches) == |lines| ==> Run(lines, filter, false).0 == lines
    ensures FirstIndex(lines, matches) < |lines| ==>
              Run(lines, filter, false).0 ==
                lines[..FirstIndex(lines, matches)] + edit(lines[FirstIndex(lines, matches)]) +
                lines[FirstIndex(lines, matches) + 1..]
  {
    if lines != [] {
      var n := |lines| - 1;
      var init, x := lines[..n], lines[n];
      assert lines == init + [x];
      RunEditsFirst(init, filter, matches, edit);
      FirstIndexSnoc(init, x, matches);
      var d0 := FirstIndex(init, matches);
      var prev := Run(init, filter, false);
      assert filter(prev.1, x) ==
        if prev.1 then ([x], true) else if matches(x) then (edit(x), true) else ([x], false);
      if d0 < n {
        SpliceSnoc(init, x, d0, edit(init[d0]));
      } else if matches(x) {
        assert lines[..n] + edit(lines[n]) + lines[n + 1..] == init + edit(x);
      }
    }
  }

  /** Started with the flag already set, such a filter copies its input. */
  lemma {:induction false} RunIdle<T(!new)>(lines: seq<T>, filter: (bool, T) -> (seq<T>, bool), matches: T -> bool, edit: T -> seq<T>)
    requires EditsFirst(filter, matches, edit)
    ensures Run(lines, filter, true) == (lines, true)
  {
    if lines != [] {
      var n := |lines| - 1;
      RunIdle(lines[..n], filter, matches, edit);
      assert filter(true, lines[n]) == ([lines[n]], true);
      assert lines == lines[..n] + [lines[n]];
    }
  }
}
