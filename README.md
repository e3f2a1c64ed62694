# goautoimports, modelled in Dafny

goautoimports makes sure the packages of a Go module whose package name is
the `--module` flag (by default `main`, so every `main` package) import a
given set of side-effect packages; packages with any other name, such as
libraries, are never listed. It lists the source files of those packages,
each paired
with the import list `go list` reports for the file's package (the same
list for every file of that package), keeps one representative file per directory, finds the required
packages each kept file does not import, and rewrites those files line by
line to add a blank import (`_ "<pkg>"`).

This project models those three steps of `main.go` and proves what they do:

- **Canonicalisation** (`Filter`, in `filter.dfy`). A loop folds the file
  records into a map from directory to record. A file named `<module>.go`
  replaces whatever is stored for its directory. Any other file is stored
  only when its directory is not stored yet. A second loop lists the map's
  values. The fold is written for any record type with a key and a mark.
  The Go function uses it with the directory (`Paths.Dir`, in `paths.dfy`)
  and the canonical base name.
- **Missing-import detection** (`GetMissingImports`, in `missing.dfy`).
  Two nested loops append a file's path under every required package the
  file does not import. The map they build is tied to two fold functions,
  and through them to a closed form: under each package, the paths of the
  files lacking it, in input order, repeated once per occurrence of the
  package in the required list.
- **Import insertion** (`AddImport`, in `rewrite.dfy`, on the line filter
  of `linefilter.dfy`). The two per-line closures share the flag `found`.
  Each runs over the file as a filter stage (`LineFilter.Sed`), with the flag
  passed in and returned explicitly. The first stage widens the first import
  declaration. A one-line `import "x"` becomes a four-line block. An
  `import (` line gets the blank import after it. The second stage acts only
  when the first did not: it adds `import _ "<pkg>"` after the first package
  clause. The three regular expressions of `main.go:20-22` are predicates in
  `patterns.dfy`. Each is proved equal to a reading of the pattern as a split
  of the line. The Go string functions involved (`strings.TrimSpace`,
  `strings.CutPrefix`) and RE2's `\s` and `\w` are in `text.dfy`.
  `scenarios.dfy` works three concrete files through the rewrite.

The rewriter's precedence follows the code, read as two complete passes
(see "Left out" for the pipeline's buffering). The first stage scans the
whole file before the second starts, so an import declaration anywhere in
the file is edited in preference to a package clause that comes before it. The
rewrite is therefore not first-match-wins from top to bottom across all
three shapes. `Scenarios.OneLineExample` shows this on a file whose package
clause precedes its import.

## Model

| member | source | states |
|---|---|---|
| GoFiles.GoFile | main.go:35-38 | One listed source file: its path, and the import list reported for its package. |
| Filter.MainFile | main.go:66 | The canonical base name, `<module>.go`. |
| Filter.DirOf | main.go:70 | A file's directory, the key the fold groups by. |
| Filter.IsMain | main.go:71-73 | Whether a file's base name is the canonical one, the mark that makes a file replace the stored one. |
| Filter.Filter | main.go:65-87 | The result has exactly one record per directory of the input, and no two records share a directory. For every directory, the record listed is the one kept for it: the last file named `<module>.go` in that directory, or failing one, the first file seen there. Each listed record is an input record, unchanged. |
| Filter.Visit | main.go:68-79 | After the loop, `visit` has a key exactly for the directories of the input, and under each key the record kept for that directory. |
| Filter.VisitStep | main.go:69-78 | One iteration of the loop preserves that invariant for the records seen so far. |
| Filter.VisitStepAt | main.go:73-77 | For a single directory, one iteration keeps the key present exactly when a record with that directory has been seen, and keeps the value equal to the kept record. |
| Filter.KeptSnoc | main.go:73-77 | Appending a record changes the record kept for its directory exactly when the new record is canonically named or its directory is new. Other directories keep their record. |
| Filter.Kept | main.go:73-76 | The record kept for a directory is one of the input records and lies in that directory. |
| Filter.HasKey | main.go:75 | Whether a record lies in a given directory: the test the first record of a directory is searched with. |
| Search.FirstIndex | main.go:75-76 | Gives the index of the first element with a property: that element has it, and no earlier one does. In the fold, the first record in a directory. In the rewriter, the first line a pattern matches. |
| Search.FirstIndexSnoc | main.go:75-76 | Appending an element moves the first match only when there was none: a directory's first record changes only when the directory is new. |
| Filter.LastMarked | main.go:73-74 | Gives the index of the last canonically named record in a directory, or -1: no later record in the directory is canonically named. |
| Filter.InKeys | main.go:69-70 | A directory is among the input's directories exactly when some record lies in it. |
| Filter.CanonicalWins | main.go:73-74 | The record kept for the directory of a canonically named file is itself canonically named, wherever the file stands in the input. When it is the only canonical file in its directory, it is the record kept. |
| Filter.FirstSeenKept | main.go:75-76 | In a directory with no canonically named file, the first record seen is kept, and later records never replace it. |
| Filter.ListKept | main.go:81-84 | Listing the map's values gives as many records as keys: every value once, each under its own key, in an unspecified order. |
| Filter.VisitKeyed | main.go:73-76 | Every record in the map is stored under its own directory. |
| Filter.KeptListed | main.go:81-86 | Listing the fold's map yields one record per directory of the input, each the record kept for its directory. |
| Paths.LastSlash | main.go:70-71 | Gives the index of the last `/` of a path, or -1: no `/` follows it. |
| Paths.Dir | main.go:70 | `filepath.Dir` as the text before the last `/`: `.` without a `/`, and `/` when the only `/` is the first character. Its meaning is proved in `Paths.DirBaseSplit`. |
| Paths.Base | main.go:71 | `filepath.Base` as the text after the last `/`. Its meaning is proved in `Paths.DirBaseSplit`. |
| Paths.DirBaseSplit | main.go:70-71 | A path with a `/` is `Dir(p)`, a `/` and `Base(p)`. At the root the directory is `/` and the path is `/` followed by the base name. The base name holds no `/`. A path without `/` is its own base name, with directory `.`. |
| MissingImports.Get | main.go:94 | The list stored under a package, or the empty list for an absent key, as Go's `imports[pkg]` reads a nil slice. |
| MissingImports.Contains | main.go:93 | `slices.Contains` as a scan from the front. `MissingImports.ContainsIsMembership` proves it is membership. |
| MissingImports.AddFile | main.go:92-96 | The inner loop as a fold over the required packages. `MissingImports.AddFileGet` proves what it does under each package. |
| MissingImports.MissingMap | main.go:91-97 | The outer loop as a fold over the files. `MissingImports.MissingMapGet` proves it equals the closed form. |
| MissingImports.GetMissingImports | main.go:89-99 | A package is a key of the result exactly when it is required and some file lacks it. Under each package, the result lists the paths of the files that do not import it, in input order, each repeated once per occurrence of the package in `pkgs`. |
| MissingImports.AddFileGet | main.go:92-96 | The inner loop for one file leaves every package the file imports untouched. Under a package the file lacks, it appends the file's path once per occurrence of that package in `pkgs`. It adds a key only for a required package the file lacks. |
| MissingImports.MissingMapGet | main.go:91-97 | The outer loop's map holds, under each package, the lacking paths stuttered by the package's count. It holds a key exactly for required packages that some file lacks. |
| MissingImports.MissingIff | main.go:93-94 | A path is listed under a package exactly when the package is required and some file with that path does not import it (exact string match). |
| MissingImports.ContainsIsMembership | main.go:93 | The scan of `slices.Contains` is membership. |
| MissingImports.LackingMembers | main.go:93-94 | A path is among the lacking paths exactly when some file with that path does not import the package. |
| MissingImports.LackingAppend | main.go:91-97 | The lacking paths of two concatenated file lists are those of the first, then those of the second: input order is kept. |
| MissingImports.Lacking | main.go:93-94 | There is at most one lacking path per file. |
| MissingImports.StutterMembers | main.go:92-94 | A path appears in the repeated list exactly when the package occurs in `pkgs` and the path is among the lacking paths. |
| MissingImports.StutterEmpty | main.go:90-97 | The repeated list is empty exactly when there are no lacking paths or the package is not required. |
| MissingImports.StutterOnce | main.go:92-94 | For a package required once, the list under it is exactly the lacking paths. |
| MissingImports.Count | main.go:92 | Counts the occurrences of a package in `pkgs`: zero exactly when the package is absent. |
| LineFilter.Run | main.go:106-136 | A filter stage as a fold: the closure applied to each line in turn with the flag threaded through, outputs joined. `LineFilter.RunEditsFirst` and `LineFilter.RunIdle` prove what a stage of the rewriter's shape does. |
| LineFilter.Sed | main.go:106-136 | A filter stage's output lines and final flag are the closure applied line by line, outputs joined, flag threaded. |
| LineFilter.RunEditsFirst | main.go:107-125 | Take a closure that, while the flag is clear, edits a matching line and sets the flag. Started with the flag clear, its stage edits exactly the first matching line and keeps every other line. The final flag is set exactly when a line matched. |
| LineFilter.RunIdle | main.go:107-109 | Started with the flag set, a stage copies every line. |
| Search.FirstIndexAt | main.go:107-125 | The first match is at `d` when line `d` matches and no earlier line does. |
| Patterns.IsPackageLine | main.go:20 | `^package\s+(\w+)$` as a scan of the line. `Patterns.PackageLineIsRegex` proves it equals the pattern. |
| Patterns.IsImportBlockOpen | main.go:21 | `^import\s*\(\s*$` as a scan of the line. `Patterns.BlockOpenIsRegex` proves it equals the pattern. |
| Patterns.IsImportOneLine | main.go:22 | `^import\s+".+"$` as a scan of the line. `Patterns.OneLineIsRegex` proves it equals the pattern. |
| Patterns.IsImportDecl | main.go:110-121 | A line that either pattern of the first closure matches. |
| Patterns.OneLineNotBlock | main.go:21-22 | No line matches both import patterns, so the order of the two tests in the first closure does not matter. |
| Patterns.PackageLineIsRegex | main.go:20 | The package-clause predicate holds exactly when the line splits as `package`, one or more `\s`, then one or more `\w`. |
| Patterns.BlockOpenIsRegex | main.go:21 | The block-opener predicate holds exactly when the line splits as `import`, `\s*`, `(`, `\s*`. |
| Patterns.OneLineIsRegex | main.go:22 | The one-line import predicate holds exactly when the line splits as `import`, one or more `\s`, `"`, one or more characters other than a newline, then a final `"`. |
| Patterns.ImportedLiteral | main.go:112-113 | The quoted literal of a one-line import starts and ends with `"`. The line is `import`, white space, then this literal. |
| Text.IsSpace | main.go:20-22 | RE2's `\s`: exactly tab, newline, form feed, carriage return and space. |
| Text.IsWord | main.go:20 | RE2's `\w`: exactly ASCII letters, digits and `_`. |
| Text.IsUnicodeSpace | main.go:113 | Go's `unicode.IsSpace`: the Latin-1 spaces and the other Unicode White_Space code points. |
| Text.SpaceIsUnicodeSpace | main.go:113 | Every `\s` character is white space to `unicode.IsSpace`, so trimming removes what the patterns treat as white space. |
| Text.TrimBy | main.go:113 | The result is the slice of the input that starts after the leading run of matching elements, and only matching elements follow it. It neither starts nor ends with a matching element. |
| Text.TrimSpace | main.go:113 | `strings.TrimSpace` returns the slice of `s` that starts after its leading white space, and only white space follows that slice in `s`. The result neither starts nor ends with white space. |
| Text.TrimSpaceAfterSpaces | main.go:113 | Trimming white space followed by a word with non-space ends gives the word. |
| Text.TrimRightBy | main.go:113 | Only trailing characters satisfying the predicate are dropped, and what is kept does not end with one. |
| Text.CutPrefix | main.go:112 | `strings.CutPrefix` reports whether the text starts with the prefix, and then returns the rest; otherwise it returns the text unchanged. |
| Text.SpanSpace | main.go:20-22 | Gives the length of the run of leading `\s` characters: all of them are `\s`, and the next character is not. |
| Text.SpanSpaceUnique | main.go:20-22 | That run is determined by where it stops. |
| Rewrite.BlankSpec | main.go:116 | The line added inside an import block: a tab, then `_ "<pkg>"`, as the format `"\t_ \"%s\""` writes it at main.go:116 and after the opener at main.go:123. |
| Rewrite.BlankImport | main.go:133 | The line added after the package clause: `import _ "<pkg>"`, as the format at main.go:133 writes it. |
| Rewrite.EditImport | main.go:110-123 | The first closure's edit of an import declaration, as a function from the line to the lines written (the form the line filter's lemmas take). It is `Rewrite.ImportEdit`. |
| Rewrite.EditPackage | main.go:133 | The second closure's edit of a package clause: the clause, then `Rewrite.BlankImport`. |
| Rewrite.ImportStage | main.go:106-126 | The closure handed to the first `Sed`, with the shared flag as an argument and a result. `Rewrite.ImportStageEditsFirst` proves what it does. |
| Rewrite.PackageStage | main.go:127-136 | The closure handed to the second `Sed`, with the shared flag as an argument and a result. `Rewrite.PackageStageEditsFirst` proves what it does. |
| Rewrite.ImportEdit | main.go:110-123 | A one-line import is replaced by `import (`, the blank import, a tab followed by the original quoted path, and `)`. A block opener is kept and followed by the blank import. |
| Rewrite.ImportFilter | main.go:106-126 | The first closure, on one line. Once the flag is set, it copies the line. Otherwise it sets the flag exactly when the line opens an import declaration, and then writes that declaration's edit, `Rewrite.ImportEdit`, whose second line is the blank import. Any other line is copied. |
| Rewrite.PackageFilter | main.go:127-136 | The second closure, on one line. The line itself is always written first. Exactly when the flag is clear and the line is a package clause, the closure sets the flag and writes one more line, the one-line blank import. |
| Rewrite.AddImport | main.go:101-139 | The two filter stages, sharing one flag, produce the rewritten file. |
| Rewrite.AddedImport | main.go:106-136 | The rewritten file is as long as the input, or one line longer, or three lines longer. |
| Rewrite.ImportStageRun | main.go:106-126 | The first stage edits the first import declaration, if there is one, and sets the flag exactly then. Otherwise it copies the file. |
| Rewrite.PackageStageRun | main.go:127-136 | Started with the flag clear, the second stage adds the blank import after the first package clause, if there is one, and sets the flag exactly then. Started with the flag set, it copies the file. |
| Rewrite.ImportStageEditsFirst | main.go:106-125 | Until the flag is set, the first closure edits an import declaration and copies any other line. Once the flag is set, it copies every line. |
| Rewrite.PackageStageEditsFirst | main.go:127-135 | Until the flag is set, the second closure edits a package clause and copies any other line. Once the flag is set, it copies every line. |
| Rewrite.TrimmedIsLiteral | main.go:112-113 | On a one-line import, the trimmed text after `import` is exactly the quoted import path. |
| Rewrite.OneLineShape | main.go:110-120 | When a one-line import is the first import declaration, it is replaced by that four-line block, and all other lines are kept. |
| Rewrite.BlockShape | main.go:121-124 | When `import (` is the first import declaration, it is kept and followed by the blank import. Every other line, including the closing `)`, is kept. |
| Rewrite.PackageShape | main.go:127-135 | Without any import declaration, the blank import `import _ "<pkg>"` goes right after the first package clause, and all other lines are kept. |
| Rewrite.UnchangedIff | main.go:106-136 | The file is left as it is exactly when no line is an import declaration or a package clause. |
| Rewrite.AtMostOneEdit | main.go:106-136 | The output is the input, or it keeps the lines before some index and the lines after it, and what stands in for that one line is one or three lines longer. |
| Rewrite.ImportAdded | main.go:116-123 | An edited file holds the blank import, as a block entry or as a one-line import. |
| Scenarios.PackageMain | main.go:20 | `package main` is a package clause and not an import declaration. |
| Scenarios.NotImport | main.go:21-22 | A line not starting with `i` is not an import declaration. |
| Scenarios.ImportFmt | main.go:22 | `import "fmt"` is a one-line import whose literal is `"fmt"`. |
| Scenarios.ImportParen | main.go:21 | `import (` opens an import block. |
| Scenarios.OneLineSecond | main.go:110-120 | In a two-line file with a one-line import second, the first line is kept and the import is edited. |
| Scenarios.PackageFallbackExample | main.go:127-136 | For any package, `package main`, an empty line and `func main() {}` become `package main`, `import _ "<pkg>"`, the empty line and `func main() {}`. |
| Scenarios.OneLineExample | main.go:106-120 | For any package, `package main` followed by `import "fmt"` becomes `package main`, `import (`, `\t_ "<pkg>"`, `\t"fmt"`, `)`. The earlier package clause is not edited. |
| Scenarios.BlockExample | main.go:121-124 | For any package, `package main`, `import (`, `\t"fmt"`, `)` gains `\t_ "<pkg>"` right after `import (`. |

## Left out

- `GetGoFiles` (main.go:40-62) runs `go list` through a shell-out and parses YAML with a third-party library. Its output enters the model only as the input sequence of `GoFile` records. The template (main.go:44-47) writes under every file the package's import list (`$.Imports`), so a record's `imports` are its package's imports, in `go list`'s order, not the imports the file itself declares. The model takes the list as given. The template also lists only packages whose name is the `--module` flag (main.go:43, default `main` at main.go:209); the model's input is that selection.
- `AutoImports` (main.go:141-194), `main` and `init` are command-line wiring, printing and logging. They are not modelled, including the driver's report of a file as updated when the rewrite matched nothing.
- File reading and writing around `AddImport` (main.go:105, 137) are not modelled. The rewrite is a function from the file's lines to the new lines. How the line filter splits the text into lines and joins them back is not modelled, including trailing newlines and `\r\n`.
- Rewrite.AddImport: the two filter stages run as two complete passes in sequence, sharing the flag. The buffering of the underlying pipeline library (yevna) is not part of this model. If that library streamed each line through both stages in turn, the second closure could reach a package clause before the first reached a later import declaration. It would then add the one-line import after the package clause instead. The model follows the two-pass reading.
- Rewrite.ImportFilter: a Go replacement string with embedded newlines is modelled as the separate lines it consists of. A package path that itself holds a newline or a quote is inserted verbatim by Go's formatting. That case, which would split into further lines or produce invalid Go, is not modelled separately.
- Filter.ListKept: Go's map iteration order is unspecified. The loop picks the next key arbitrarily, so the contract fixes the set of records listed but not their order.
- Paths.Dir: `filepath.Dir` also cleans the directory (`.`, `..`, repeated slashes) and `filepath.Base` drops trailing slashes. The model, and Paths.Base with it, splits at the last `/` only. For an uncleaned path such as `a//b` or `a/b/` it differs from Go: `Dir("a//b")` is `a/` in the model and `a` in Go, and `Base("a/b/")` is empty in the model and `b` in Go. The package lister produces clean absolute paths, for which the split is exact.
- Patterns.IsPackageLine: the pattern's capture group is not used by the code, so only whether the line matches is modelled.
- Text.IsUnicodeSpace covers the Latin-1 and Unicode White_Space code points that `unicode.IsSpace` accepts. Invalid UTF-8 is not modelled, since strings are sequences of characters.
- MissingImports.GetMissingImports: Go's map of slices is a map of sequences. The nil slice under an absent key reads as empty (`Get`), which is what `append` to a missing entry does.
