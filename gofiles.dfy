/** The record the package inventory produces for each source file. */
module GoFiles {

  /** One source file of a package: its path, and the import list the
      inventory reports for the file's whole package (the same list for
      every file of that package, in the inventory's order), not the
      imports the file itself declares. */
  datatype GoFile = GoFile(imports: seq<string>, path: string)
}
