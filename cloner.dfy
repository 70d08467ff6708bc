/** `cloneTypes`: the emission policy and the text written to the output file. */
module Cloner {
  import opened Wrappers
  import opened Strings
  import opened ConfigSearch
  import opened Syntax
  import opened Generics
  import opened Extraction

  const DeclarationFileSuffix := ".d.ts"
  const LineSeparator := '\n'

  /** Declaration lines are ambient exactly when the output path ends with `.d.ts`. */
  predicate AmbientOutput(outputFilePath: string)
  {
    EndsWith(outputFilePath, DeclarationFileSuffix)
  }

  /**
   * `cloneTypes`: extracts the lines of `filePath`, ambient when `outputFilePath` ends with
   * `.d.ts`, and yields the text `writeFileSync` would write: the lines joined by a newline,
   * with no trailing newline. Any error is passed on and then nothing is written.
   */
  method CloneTypes<Opts, Ty>(
    filePath: string, outputFilePath: string, cwd: Path, fileExists: Path -> bool,
    compilerOptionsFromTsConfig: string -> Result<Opts, string>,
    createProgram: (seq<string>, Opts) -> Program<Ty>)
    returns (r: Result<string, Error>)
    ensures var e := Extracted(filePath, AmbientOutput(outputFilePath), cwd, fileExists,
                               compilerOptionsFromTsConfig, createProgram);
            && (e.Failure? ==> r == Failure(e.error))
            && (e.Success? ==> r == Success(Join(e.value, [LineSeparator])))
  {
    var extractedTypes := ExtractTypesFromSourceFile(filePath, AmbientOutput(outputFilePath), cwd, fileExists,
                                                     compilerOptionsFromTsConfig, createProgram);
    if extractedTypes.Failure? {
      return Failure(extractedTypes.error);
    }
    return Success(Join(extractedTypes.value, [LineSeparator]));
  }

  /**
   * The written text reads back as the lines: split at newlines it gives every line in order
   * (when no line holds a newline itself); a file without aliases is written empty.
   */
  lemma OutputReadsBackAsLines(lines: seq<string>)
    requires forall i :: 0 <= i < |lines| ==> LineSeparator !in lines[i]
    ensures |lines| == 0 ==> Join(lines, [LineSeparator]) == ""
    ensures |lines| > 0 ==> Split(Join(lines, [LineSeparator]), LineSeparator) == lines
  {
    if |lines| > 0 {
      SplitJoin(lines, LineSeparator);
    }
  }

  /** A text that holds a newline splits into at least two pieces. */
  lemma {:induction false} SplitHoldingSeparator(s: string, c: char)
    requires c in s
    ensures |Split(s, c)| >= 2
  {
    if s[0] != c {
      SplitHoldingSeparator(s[1..], c);
    }
  }

  /**
   * Constraint text is copied verbatim, so a constraint written over two lines puts a newline
   * inside one declaration line, and the written file then reads back as more lines than
   * were pushed.
   */
  lemma MultiLineConstraintSplitsTheLine()
    ensures var alias := TypeAlias("A", Some([TypeParameter("T", Some("{\n x: 1 }"))]), "T");
            var line := DeclarationLine(alias, "T", false);
            && LineSeparator in line
            && |Split(Join([line], [LineSeparator]), LineSeparator)| >= 2
  {
    var alias := TypeAlias("A", Some([TypeParameter("T", Some("{\n x: 1 }"))]), "T");
    var line := DeclarationLine(alias, "T", false);
    var clause := GenericsClause(alias.typeParameters);
    assert clause == "<T extends {\n x: 1 }>";
    assert line == "export type A" + clause + " = T";
    assert line[25] == LineSeparator;
    SplitHoldingSeparator(line, LineSeparator);
  }
}
