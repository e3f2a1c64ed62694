/** The import rewriter: adds a blank import of one package to a Go source
    file given as its lines. A first pass widens the first import
    declaration (a one-line import becomes a block; a block opener gets the
    new line after it); only when that pass changed nothing, a second pass
    adds a one-line blank import after the first package clause. */
module Rewrite {
  import opened Text
  import opened Patterns
  import opened Search
  import opened LineFilter

  /** The line added inside an import block: a tab, then `_ "<pkg>"`. */
  function BlankSpec(pkg: string): string {
    "\t_ \"" + pkg + "\""
  }

  /** The line added after the package clause: `import _ "<pkg>"`. */
  function BlankImport(pkg: string): string {
    "import _ \"" + pkg + "\""
  }

  /** Index of the first line opening an import declaration, or `|lines|`. */
  function FirstImport(lines: seq<string>): nat {
    FirstIndex(lines, IsImportDecl)
  }

  /** Index of the first package clause, or `|lines|`. */
  function FirstPackage(lines: seq<string>): nat {
    FirstIndex(lines, IsPackageLine)
  }

  /** What the first filter writes in place of the first import declaration
      `line`, with the blank import as the second line written. A one-line
      import becomes a four-line block holding the blank import and, after
      it, the original quoted path (the text after `import` with its white
      space trimmed); a block opener is kept and followed by the blank
      import. */
  function ImportEdit(line: string, pkg: string): (e: seq<string>)
    ensures IsImportOneLine(line) ==>
              e == ["import (", BlankSpec(pkg), "\t" + ImportedLiteral(line), ")"]
    ensures IsImportBlockOpen(line) ==> e == [line, BlankSpec(pkg)]
  {
    OneLineNotBlock(line);
    if IsImportOneLine(line) then
      TrimmedIsLiteral(line);
      ["import (", BlankSpec(pkg), "\t" + TrimSpace(CutPrefix(line, "import").0), ")"]
    else
      [line, BlankSpec(pkg)]
  }

  /** The first filter's closure on one line, with the shared flag passed in
      and returned. Once the flag is set the line is copied; otherwise the
      flag is set exactly when the line opens an import declaration, which
      is then edited, and any other line is copied. A replacement that Go
      returns as one string with embedded newlines is written here as the
      lines it consists of. */
  function ImportFilter(pkg: string, found: bool, line: string): (r: (seq<string>, bool))
    ensures r.1 <==> found || IsImportDecl(line)
    ensures found || !IsImportDecl(line) ==> r.0 == [line]
    ensures !found && IsImportDecl(line) ==> r.0 == ImportEdit(line, pkg)
    ensures !found && IsImportDecl(line) ==> |r.0| >= 2 && r.0[1] == BlankSpec(pkg)
  {
    if found then ([line], true)
    else if IsImportDecl(line) then (ImportEdit(line, pkg), true)
    else ([line], false)
  }

  /** The second filter's closure on one line. Once the flag is set the
      line is copied; otherwise the flag is set exactly when the line is a
      package clause, which is then kept and followed by the one-line blank
      import, and any other line is copied. */
  function PackageFilter(pkg: string, found: bool, line: string): (r: (seq<string>, bool))
    ensures r.1 <==> found || IsPackageLine(line)
    ensures 1 <= |r.0| <= 2 && r.0[0] == line
    ensures |r.0| == 2 <==> !found && IsPackageLine(line)
    ensures |r.0| == 2 ==> r.0[1] == BlankImport(pkg)
  {
    if found then ([line], true)
    else if IsPackageLine(line) then (EditPackage(pkg)(line), true)
    else ([line], false)
  }

  /** The rewritten file: the first import declaration edited; failing
      one, a blank import after the first package clause; failing that,
      the file unchanged. */
  function AddedImport(lines: seq<string>, pkg: string): (r: seq<string>)
    ensures |r| == |lines| || |r| == |lines| + 1 || |r| == |lines| + 3
  {
    var d := FirstImport(lines);
    if d < |lines| then
      lines[..d] + ImportEdit(lines[d], pkg) + lines[d + 1..]
    else
      var q := FirstPackage(lines);
      if q < |lines| then lines[..q + 1] + [BlankImport(pkg)] + lines[q + 1..] else lines
  }

  /** The first filter stage's closure for package `pkg`. */
  function ImportStage(pkg: string): (bool, string) -> (seq<string>, bool) {
    (found, line) => ImportFilter(pkg, found, line)
  }

  /** The second filter stage's closure for package `pkg`. */
  function PackageStage(pkg: string): (bool, string) -> (seq<string>, bool) {
    (found, line) => PackageFilter(pkg, found, line)
  }

  /** The first filter's edit of an import declaration, as a function value
      (the form the line filter's lemmas take). */
  function EditImport(pkg: string): string -> seq<string> {
    line => ImportEdit(line, pkg)
  }

  /** The second filter's edit of a package clause: the clause is kept and
      followed by the one-line blank import. */
  function EditPackage(pkg: string): string -> seq<string> {
    line => [line, BlankImport(pkg)]
  }

  /** Until the flag is set, the first closure edits an import declaration
      and copies any other line. */
  lemma ImportStageEditsFirst(pkg: string)
    ensures EditsFirst(ImportStage(pkg), IsImportDecl, EditImport(pkg))
  {
  }

  /** Until the flag is set, the second closure edits a package clause and
      copies any other line. */
  lemma PackageStageEditsFirst(pkg: string)
    ensures EditsFirst(PackageStage(pkg), IsPackageLine, EditPackage(pkg))
  {
  }

  /** The first stage edits the first import declaration, if there is one,
      and sets the flag exactly then; otherwise it copies the file. */
  lemma ImportStageRun(lines: seq<string>, pkg: string)
    ensures Run(lines, ImportStage(pkg), false).1 <==> FirstImport(lines) < |lines|
    ensures FirstImport(lines) == |lines| ==> Run(lines, ImportStage(pkg), false).0 == lines
    ensures FirstImport(lines) < |lines| ==>
              Run(lines, ImportStage(pkg), false).0 ==
                lines[..FirstImport(lines)] + ImportEdit(lines[FirstImport(lines)], pkg) + lines[FirstImport(lines) + 1..]
  {
    ImportStageEditsFirst(pkg);
    RunEditsFirst(lines, ImportStage(pkg), IsImportDecl, EditImport(pkg));
    var d := FirstImport(lines);
    if d < |lines| {
      assert EditImport(pkg)(lines[d]) == ImportEdit(lines[d], pkg);
    }
  }

  /** The second stage, started with the flag clear, puts the blank import
      after the first package clause, if there is one, and sets the flag
      exactly then; started with the flag set, it copies the file. */
  lemma PackageStageRun(lines: seq<string>, pkg: string, found: bool)
    ensures Run(lines, PackageStage(pkg), found).1 <==> found || FirstPackage(lines) < |lines|
    ensures found || FirstPackage(lines) == |lines| ==> Run(lines, PackageStage(pkg), found).0 == lines
    ensures !found && FirstPackage(lines) < |lines| ==>
              Run(lines, PackageStage(pkg), found).0 ==
                lines[..FirstPackage(lines) + 1] + [BlankImport(pkg)] + lines[FirstPackage(lines) + 1..]
  {
    var edit := EditPackage(pkg);
    PackageStageEditsFirst(pkg);
    if found {
      RunIdle(lines, PackageStage(pkg), IsPackageLine, edit);
    } else {
      RunEditsFirst(lines, PackageStage(pkg), IsPackageLine, edit);
      var q := FirstPackage(lines);
      if q < |lines| {
        assert edit(lines[q]) == [lines[q], BlankImport(pkg)];
        assert lines[..q] + [lines[q], BlankImport(pkg)] == lines[..q + 1] + [BlankImport(pkg)];
      }
    }
  }

  /** The whole rewrite: the two filter stages in sequence sharing one flag,
      so the second acts only when the first made no edit. */
  method AddImport(lines: seq<string>, pkg: string) returns (out: seq<string>)
    ensures out == AddedImport(lines, pkg)
  {
    var found := false;
    var mid;
    mid, found := Sed(lines, ImportStage(pkg), found);
    out, found := Sed(mid, PackageStage(pkg), found);
    ImportStageRun(lines, pkg);
    PackageStageRun(mid, pkg, FirstImport(lines) < |lines|);
  }

  /** The text that follows `import` on a one-line import, trimmed, is the
      quoted import path: the four-line block re-quotes the original
      literal. */
  lemma TrimmedIsLiteral(line: string)
    requires IsImportOneLine(line)
    ensures TrimSpace(CutPrefix(line, "import").0) == ImportedLiteral(line)
  {
    var q := ImportedLiteral(line);
    var ws := line[6..|line| - |q|];
    assert CutPrefix(line, "import").0 == ws + q;
    TrimSpaceAfterSpaces(ws, q);
  }

  /** The file is left as it is exactly when no line opens an import
      declaration and no line is a package clause. */
  lemma UnchangedIff(lines: seq<string>, pkg: string)
    ensures AddedImport(lines, pkg) == lines <==>
              forall k :: 0 <= k < |lines| ==> !IsImportDecl(lines[k]) && !IsPackageLine(lines[k])
  {
    var d := FirstImport(lines);
    var q := FirstPackage(lines);
    if d < |lines| {
      assert IsImportDecl(lines[d]);
      assert |AddedImport(lines, pkg)| > |lines|;
    } else if q < |lines| {
      assert IsPackageLine(lines[q]);
      assert |AddedImport(lines, pkg)| > |lines|;
    }
  }

  /** A one-line import, when it is the first import declaration, becomes
      a block holding the blank import followed by the original path. */
  lemma OneLineShape(lines: seq<string>, pkg: string, d: nat)
    requires d < |lines| && IsImportOneLine(lines[d])
    requires forall k :: 0 <= k < d ==> !IsImportDecl(lines[k])
    ensures AddedImport(lines, pkg) == lines[..d] + ImportEdit(lines[d], pkg) + lines[d + 1..]
    ensures ImportEdit(lines[d], pkg) == ["import (", BlankSpec(pkg), "\t" + ImportedLiteral(lines[d]), ")"]
  {
    FirstIndexAt(lines, IsImportDecl, d);
  }

  /** A block opener, when it is the first import declaration, is kept and
      followed by the blank import; every other line is kept. */
  lemma BlockShape(lines: seq<string>, pkg: string, d: nat)
    requires d < |lines| && IsImportBlockOpen(lines[d])
    requires forall k :: 0 <= k < d ==> !IsImportDecl(lines[k])
    ensures AddedImport(lines, pkg) == lines[..d + 1] + [BlankSpec(pkg)] + lines[d + 1..]
  {
    FirstIndexAt(lines, IsImportDecl, d);
    OneLineNotBlock(lines[d]);
    assert lines[..d + 1] == lines[..d] + [lines[d]];
  }

  /** Without any import declaration, the blank import goes right after
      the first package clause. */
  lemma PackageShape(lines: seq<string>, pkg: string, q: nat)
    requires forall k :: 0 <= k < |lines| ==> !IsImportDecl(lines[k])
    requires q < |lines| && IsPackageLine(lines[q])
    requires forall k :: 0 <= k < q ==> !IsPackageLine(lines[k])
    ensures AddedImport(lines, pkg) == lines[..q + 1] + [BlankImport(pkg)] + lines[q + 1..]
  {
    FirstIndexAt(lines, IsImportDecl, |lines|);
    FirstIndexAt(lines, IsPackageLine, q);
  }

  /** At most one line is edited: the output keeps the lines before some
      index `d` and the lines after it, and what stands for line `d` is one
      or three lines longer. */
  lemma AtMostOneEdit(lines: seq<string>, pkg: string)
    ensures var r := AddedImport(lines, pkg);
            r == lines ||
            exists d :: 0 <= d < |lines| && r[..d] == lines[..d] &&
                        (|r| == |lines| + 1 || |r| == |lines| + 3) &&
                        r[|r| - (|lines| - d - 1)..] == lines[d + 1..]
  {
    var r := AddedImport(lines, pkg);
    var d := FirstImport(lines);
    var e: seq<string>;
    if d < |lines| {
      e := ImportEdit(lines[d], pkg);
    } else {
      d := FirstPackage(lines);
      if d == |lines| {
        return;
      }
      e := [lines[d], BlankImport(pkg)];
    }
    assert r == lines[..d] + e + lines[d + 1..];
    assert r[..d] == lines[..d];
    assert r[|r| - (|lines| - d - 1)..] == lines[d + 1..];
  }

  /** An edited file holds the blank import of `pkg`, inside a block or
      as a one-line import. */
  lemma ImportAdded(lines: seq<string>, pkg: string)
    ensures var r := AddedImport(lines, pkg);
            r != lines ==> BlankSpec(pkg) in r || BlankImport(pkg) in r
  {
    var r := AddedImport(lines, pkg);
    var d := FirstImport(lines);
    if d < |lines| {
      var e := ImportEdit(lines[d], pkg);
      assert e[1] == BlankSpec(pkg);
      assert r == lines[..d] + e + lines[d + 1..];
      assert r[d + 1] == e[1];
    } else {
      var q := FirstPackage(lines);
      if q < |lines| {
        assert r[q + 1] == BlankImport(pkg);
      }
    }
  }
}
