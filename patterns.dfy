/** The three line patterns of the import rewriter, written as predicates
    over one line of text:
      package line    `^package\s+(\w+)$`
      block opener    `^import\s*\(\s*$`
      one-line import `^import\s+".+"$`
    Each computable predicate walks the line once; beside it a ghost
    predicate states the pattern the way the regular expression reads
    (some split of the line into the pattern's parts), and a lemma proves
    the two agree on every line. */
module Patterns {
  import opened Text

  /** RE2's `.` matches any character except a newline. */
  predicate NoNewline(s: string) {
    '\n' !in s
  }

  /** `^package\s+(\w+)$` */
  predicate IsPackageLine(line: string) {
    |line| >= 7 && line[..7] == "package" &&
    var n := SpanSpace(line[7..]);
    0 < n < |line| - 7 && AllWord(line[7 + n..])
  }

  ghost predicate PackageRegex(line: string) {
    exists k :: 7 < k < |line| && line[..7] == "package" && AllSpace(line[7..k]) && AllWord(line[k..])
  }

  lemma PackageLineIsRegex(line: string)
    ensures IsPackageLine(line) <==> PackageRegex(line)
  {
    if IsPackageLine(line) {
      var k := 7 + SpanSpace(line[7..]);
      assert line[7..k] == line[7..][..k - 7];
    }
    if PackageRegex(line) {
      var k :| 7 < k < |line| && line[..7] == "package" && AllSpace(line[7..k]) && AllWord(line[k..]);
      assert line[7..][..k - 7] == line[7..k];
      assert IsWord(line[k..][0]);
      SpanSpaceUnique(line[7..], k - 7);
    }
  }

  /** `^import\s*\(\s*$` */
  predicate IsImportBlockOpen(line: string) {
    |line| >= 6 && line[..6] == "import" &&
    var n := SpanSpace(line[6..]);
    6 + n < |line| && line[6 + n] == '(' && AllSpace(line[6 + n + 1..])
  }

  ghost predicate BlockOpenRegex(line: string) {
    exists k :: 6 <= k < |line| && line[..6] == "import" && AllSpace(line[6..k])
                && line[k] == '(' && AllSpace(line[k + 1..])
  }

  lemma BlockOpenIsRegex(line: string)
    ensures IsImportBlockOpen(line) <==> BlockOpenRegex(line)
  {
    if IsImportBlockOpen(line) {
      var k := 6 + SpanSpace(line[6..]);
      assert line[6..k] == line[6..][..k - 6];
    }
    if BlockOpenRegex(line) {
      var k :| 6 <= k < |line| && line[..6] == "import" && AllSpace(line[6..k])
               && line[k] == '(' && AllSpace(line[k + 1..]);
      assert line[6..][..k - 6] == line[6..k];
      SpanSpaceUnique(line[6..], k - 6);
    }
  }

  /** `^import\s+".+"$` */
  predicate IsImportOneLine(line: string) {
    |line| >= 6 && line[..6] == "import" &&
    var n := SpanSpace(line[6..]);
    0 < n && 6 + n + 3 <= |line| && line[6 + n] == '"' && line[|line| - 1] == '"'
    && NoNewline(line[6 + n + 1..|line| - 1])
  }

  ghost predicate OneLineRegex(line: string) {
    exists k :: 6 < k && k + 3 <= |line| && line[..6] == "import" && AllSpace(line[6..k])
                && line[k] == '"' && line[|line| - 1] == '"' && NoNewline(line[k + 1..|line| - 1])
  }

  lemma OneLineIsRegex(line: string)
    ensures IsImportOneLine(line) <==> OneLineRegex(line)
  {
    if IsImportOneLine(line) {
      var k := 6 + SpanSpace(line[6..]);
      assert line[6..k] == line[6..][..k - 6];
    }
    if OneLineRegex(line) {
      var k :| 6 < k && k + 3 <= |line| && line[..6] == "import" && AllSpace(line[6..k])
               && line[k] == '"' && line[|line| - 1] == '"' && NoNewline(line[k + 1..|line| - 1]);
      assert line[6..][..k - 6] == line[6..k];
      SpanSpaceUnique(line[6..], k - 6);
    }
  }

  /** No line is both a one-line import and a block opener: after
      `import` and its white space comes a `"` in one and a `(` in the
      other. */
  lemma OneLineNotBlock(line: string)
    ensures !(IsImportOneLine(line) && IsImportBlockOpen(line))
  {
    if IsImportBlockOpen(line) {
      assert line[6 + SpanSpace(line[6..])] == '(';
    }
  }

  /** A line that opens an import declaration, in either form. */
  predicate IsImportDecl(line: string) {
    IsImportOneLine(line) || IsImportBlockOpen(line)
  }

  /** The quoted import path of a one-line import, from its opening quote
      to its closing quote: the line is `import`, then white space, then
      this literal. */
  function ImportedLiteral(line: string): (q: string)
    requires IsImportOneLine(line)
    ensures |q| >= 3 && q[0] == '"' && q[|q| - 1] == '"'
    ensures |q| < |line| - 6
    ensures line == "import" + line[6..|line| - |q|] + q
    ensures AllSpace(line[6..|line| - |q|])
  {
    var n := SpanSpace(line[6..]);
    assert line[6..6 + n] == line[6..][..n];
    line[6 + n..]
  }
}
