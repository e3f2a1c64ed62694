/** Worked files for the import rewriter: a file with no import
    declaration, a file with a one-line import, and a file with an import
    block, each with the file the rewriter produces for any package. */
module Scenarios {
  import opened Text
  import opened Patterns
  import opened Rewrite

  /** `package main` is a package clause and declares no import. */
  lemma PackageMain()
    ensures IsPackageLine("package main") && !IsImportDecl("package main")
  {
    var line := "package main";
    assert line[7..] == " main";
    assert line[7..][..1] == " ";
    SpanSpaceUnique(line[7..], 1);
    assert line[..6] != "import" by {
      assert line[..6][0] == 'p';
    }
  }

  /** A line that does not start with `i` declares no import. */
  lemma NotImport(line: string)
    requires |line| > 0 && line[0] != 'i'
    ensures !IsImportDecl(line)
  {
    if |line| >= 6 {
      assert line[..6][0] == line[0];
    }
  }

  /** `import "fmt"` is a one-line import of the literal `"fmt"`. */
  lemma ImportFmt()
    ensures IsImportOneLine("import \"fmt\"") && ImportedLiteral("import \"fmt\"") == "\"fmt\""
  {
    var line := "import \"fmt\"";
    assert line[6..] == " \"fmt\"";
    assert line[6..][..1] == " ";
    SpanSpaceUnique(line[6..], 1);
    assert line[..6] == "import";
    assert ImportedLiteral(line) == line[7..];
  }

  /** The block's last entry for `"fmt"`: a tab before the literal. Kept
      apart so that the concatenation of two string literals is proved
      without the rest of an example in view. */
  lemma TabFmt()
    ensures "\t" + "\"fmt\"" == "\t\"fmt\""
  {
  }

  /** `import (` opens an import block. */
  lemma ImportParen()
    ensures IsImportBlockOpen("import (")
  {
    var line := "import (";
    assert line[6..] == " (";
    assert line[6..][..1] == " ";
    SpanSpaceUnique(line[6..], 1);
    assert line[..6] == "import";
  }

  /** A one-element prefix followed by a four-element sequence is the
      five-element display; generic so that no string is unfolded. */
  lemma Cons<T>(x: T, b: seq<T>, a0: T, a1: T, a2: T, a3: T)
    requires b == [a0, a1, a2, a3]
    ensures [x] + b == [x, a0, a1, a2, a3]
  {
  }

  /** Two lines, the first declaring no import and the second a one-line
      import: the second becomes the four-line block. */
  lemma OneLineSecond(first: string, imp: string, pkg: string)
    requires !IsImportDecl(first) && IsImportOneLine(imp)
    ensures AddedImport([first, imp], pkg) == [first] + ImportEdit(imp, pkg)
  {
    OneLineShape([first, imp], pkg, 1);
    SecondReplaced(first, imp, ImportEdit(imp, pkg));
  }

  /** Replacing the second of two elements by `e` leaves the first element
      followed by `e`; generic so that no string is unfolded. */
  lemma SecondReplaced<T>(a: T, b: T, e: seq<T>)
    ensures [a, b][..1] + e + [a, b][2..] == [a] + e
  {
    assert [a, b][..1] == [a];
    assert [a, b][2..] == [];
  }

  /** With no import declaration, `import _ "<pkg>"` is added right after
      the package clause. */
  lemma PackageFallbackExample(pkg: string)
    ensures AddedImport(["package main", "", "func main() {}"], pkg) ==
              ["package main", BlankImport(pkg), "", "func main() {}"]
  {
    PackageMain();
    NotImport("func main() {}");
    PackageShape(["package main", "", "func main() {}"], pkg, 0);
    FirstExtended("package main", "", "func main() {}", BlankImport(pkg));
  }

  /** Inserting `x` after the first of three elements; generic so that no
      string is unfolded. */
  lemma FirstExtended<T>(a: T, b: T, c: T, x: T)
    ensures [a, b, c][..1] + [x] + [a, b, c][1..] == [a, x, b, c]
  {
    assert [a, b, c][..1] == [a];
    assert [a, b, c][1..] == [b, c];
  }

  /** A one-line import becomes a block holding the blank import and the
      original path. */
  lemma OneLineExample(pkg: string)
    ensures AddedImport(["package main", "import \"fmt\""], pkg) ==
              ["package main", "import (", BlankSpec(pkg), "\t\"fmt\"", ")"]
  {
    var imp := "import \"fmt\"";
    ImportFmt();
    PackageMain();
    OneLineSecond("package main", imp, pkg);
    assert "\t" + ImportedLiteral(imp) == "\t\"fmt\"" by {
      TabFmt();
    }
    Cons("package main", ImportEdit(imp, pkg), "import (", BlankSpec(pkg), "\t\"fmt\"", ")");
  }

  /** A block opener is kept and the blank import becomes the first entry
      of the block. */
  lemma BlockExample(pkg: string)
    ensures AddedImport(["package main", "import (", "\t\"fmt\"", ")"], pkg) ==
              ["package main", "import (", BlankSpec(pkg), "\t\"fmt\"", ")"]
  {
    var lines := ["package main", "import (", "\t\"fmt\"", ")"];
    ImportParen();
    PackageMain();
    BlockShape(lines, pkg, 1);
    assert lines[..2] == ["package main", "import ("];
    assert lines[2..] == ["\t\"fmt\"", ")"];
  }
}
