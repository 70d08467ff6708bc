/**
 * Reading the type aliases of one source file and writing each back as one line
 * (`extractTypesFromSourceFile` and its inner `processType`).
 *
 * The TypeScript compiler is not modelled: `compilerOptionsFromTsConfig` stands for reading and
 * parsing the config file (options, or the formatted diagnostics it throws), and `createProgram`
 * for the program built from the target file, with what the cloner asks of it.
 */
module Extraction {
  import opened Wrappers
  import opened Strings
  import opened Syntax
  import opened Generics
  import opened ConfigSearch

  /** The checker's type of an alias's right-hand side: a union or intersection with its member types, or any other type. */
  datatype ResolvedType<Ty> = UnionOrIntersection(types: seq<Ty>) | Other(whole: Ty)

  /**
   * What the cloner uses of a compiler program: `getSourceFile`, the checker's
   * `getTypeFromTypeNode` on an alias's right-hand side, and `typeToString` with `NoTruncation`.
   */
  datatype Program<!Ty> = Program(
    getSourceFile: string -> Option<seq<Statement>>,
    getTypeFromTypeNode: TypeAlias -> ResolvedType<Ty>,
    typeToString: Ty -> string)

  /** The errors thrown on the way: config diagnostics, and a source file the program lacks. */
  datatype Error = ConfigError(diagnostics: string) | SourceFileNotFound(message: string)

  const MemberSeparator := " | "
  const ExportPrefix := "export "
  const DeclareKeyword := "declare "

  function MemberTexts<Ty>(types: seq<Ty>, typeToString: Ty -> string): seq<string>
  {
    seq(|types|, i requires 0 <= i < |types| => typeToString(types[i]))
  }

  /**
   * The text of a resolved type: a union or intersection as its members' texts, in the
   * checker's order, joined by ` | ` (intersections too); any other type as its own text.
   */
  function TypeText<Ty>(t: ResolvedType<Ty>, typeToString: Ty -> string): string
  {
    match t
    case UnionOrIntersection(types) => Join(MemberTexts(types, typeToString), MemberSeparator)
    case Other(whole) => typeToString(whole)
  }

  /** Member `i` of a union or intersection appears verbatim at its offset, in the checker's order. */
  lemma MemberAt<Ty>(types: seq<Ty>, typeToString: Ty -> string, i: nat)
    requires i < |types|
    ensures var o := Offset(MemberTexts(types, typeToString), MemberSeparator, i);
            && o + |typeToString(types[i])| <= |TypeText(UnionOrIntersection(types), typeToString)|
            && TypeText(UnionOrIntersection(types), typeToString)[o .. o + |typeToString(types[i])|]
               == typeToString(types[i])
  {
    var items := MemberTexts(types, typeToString);
    assert items[i] == typeToString(types[i]);
    JoinItemAt(items, MemberSeparator, i);
  }

  /**
   * The text of a union or intersection is as long as its members' texts plus one ` | `
   * between neighbours: nothing precedes the first member or follows the last.
   */
  lemma TypeTextLength<Ty>(types: seq<Ty>, typeToString: Ty -> string)
    ensures |types| == 0 ==> TypeText(UnionOrIntersection(types), typeToString) == ""
    ensures |types| > 0 ==>
      |TypeText(UnionOrIntersection(types), typeToString)|
        == TotalLength(MemberTexts(types, typeToString)) + 3 * (|types| - 1)
  {
    if |types| > 0 {
      JoinLength(MemberTexts(types, typeToString), MemberSeparator);
    }
  }

  /** Between member `i` and member `i + 1` the text holds exactly ` | `, for intersections too. */
  lemma MemberSeparatorAt<Ty>(types: seq<Ty>, typeToString: Ty -> string, i: nat)
    requires i + 1 < |types|
    ensures var items := MemberTexts(types, typeToString);
            var o := Offset(items, MemberSeparator, i) + |typeToString(types[i])|;
            && Offset(items, MemberSeparator, i + 1) == o + |MemberSeparator|
            && Offset(items, MemberSeparator, i + 1) <= |TypeText(UnionOrIntersection(types), typeToString)|
            && TypeText(UnionOrIntersection(types), typeToString)[o .. Offset(items, MemberSeparator, i + 1)]
               == MemberSeparator
  {
    var items := MemberTexts(types, typeToString);
    assert items[i] == typeToString(types[i]);
    JoinSeparatorAt(items, MemberSeparator, i);
  }

  /** ``export ${declarations ? 'declare ' : ''}type ${name}${generics} = ${typeText}``. */
  function DeclarationLine(alias: TypeAlias, typeText: string, declarations: bool): string
  {
    ExportPrefix + (if declarations then DeclareKeyword else "") + "type " + alias.name
      + GenericsClause(alias.typeParameters) + " = " + typeText
  }

  /** Whether a line is an ambient declaration: it starts with `export declare `. */
  predicate IsAmbientLine(line: string)
  {
    |ExportPrefix + DeclareKeyword| <= |line| && line[..|ExportPrefix + DeclareKeyword|] == ExportPrefix + DeclareKeyword
  }

  /**
   * The `declarations` flag is all that separates the two forms of a line: the ambient line is
   * the plain one with `declare ` inserted after `export `, and the flag can be read back.
   */
  lemma DeclareIsTheOnlyDifference(alias: TypeAlias, typeText: string)
    ensures var plain := DeclarationLine(alias, typeText, false);
            var ambient := DeclarationLine(alias, typeText, true);
            && |plain| >= |ExportPrefix|
            && plain[..|ExportPrefix|] == ExportPrefix
            && ambient == ExportPrefix + DeclareKeyword + plain[|ExportPrefix|..]
    ensures IsAmbientLine(DeclarationLine(alias, typeText, true))
    ensures !IsAmbientLine(DeclarationLine(alias, typeText, false))
  {
    var plain := DeclarationLine(alias, typeText, false);
    var tail := "type " + alias.name + GenericsClause(alias.typeParameters) + " = " + typeText;
    assert plain == ExportPrefix + tail;
    assert plain[|ExportPrefix|..] == tail;
    assert DeclarationLine(alias, typeText, true) == ExportPrefix + DeclareKeyword + tail;
    assert plain[|ExportPrefix|] == 't';
  }

  /** The line `processType` pushes for one alias. */
  function AliasLine<Ty>(alias: TypeAlias, program: Program<Ty>, declarations: bool): string
  {
    DeclarationLine(alias, TypeText(program.getTypeFromTypeNode(alias), program.typeToString), declarations)
  }

  /** The direct children that are type aliases, in source order. */
  function Aliases(children: seq<Statement>): seq<TypeAlias>
  {
    if |children| == 0 then []
    else
      Aliases(children[..|children| - 1]) +
        match children[|children| - 1]
        case TypeAliasDeclaration(a) => [a]
        case OtherStatement(_) => []
  }

  /** The positions of the alias children. */
  function AliasPositions(children: seq<Statement>): seq<nat>
  {
    if |children| == 0 then []
    else
      AliasPositions(children[..|children| - 1]) +
        if children[|children| - 1].TypeAliasDeclaration? then [|children| - 1] else []
  }

  /** Entry `i` of `Aliases` is the alias found at the `i`-th alias position. */
  lemma {:induction false} AliasesAtPositions(children: seq<Statement>)
    ensures |AliasPositions(children)| == |Aliases(children)|
    ensures forall i :: 0 <= i < |AliasPositions(children)| ==>
              AliasPositions(children)[i] < |children| &&
              children[AliasPositions(children)[i]] == TypeAliasDeclaration(Aliases(children)[i])
  {
    if |children| > 0 {
      var n := |children| - 1;
      var front := children[..n];
      AliasesAtPositions(front);
      var pos, aliases := AliasPositions(children), Aliases(children);
      var m := |AliasPositions(front)|;
      assert pos[..m] == AliasPositions(front);
      assert aliases[..m] == Aliases(front);
      forall i | 0 <= i < |pos|
        ensures pos[i] < |children| && children[pos[i]] == TypeAliasDeclaration(aliases[i])
      {
        if i < m {
          assert pos[i] == AliasPositions(front)[i];
          assert aliases[i] == Aliases(front)[i];
          assert children[pos[i]] == front[pos[i]];
        }
      }
    }
  }

  /** The alias positions strictly increase: the aliases keep their source order. */
  lemma {:induction false} AliasPositionsIncrease(children: seq<Statement>)
    ensures forall i :: 0 <= i < |AliasPositions(children)| ==> AliasPositions(children)[i] < |children|
    ensures forall i, j :: 0 <= i < j < |AliasPositions(children)| ==>
              AliasPositions(children)[i] < AliasPositions(children)[j]
  {
    if |children| > 0 {
      var n := |children| - 1;
      var front := children[..n];
      AliasPositionsIncrease(front);
      var pos := AliasPositions(children);
      var m := |AliasPositions(front)|;
      assert pos[..m] == AliasPositions(front);
      assert forall i :: 0 <= i < m ==> pos[i] == AliasPositions(front)[i] < n;
    }
  }

  /** Every alias child's position is among the alias positions: no alias is dropped. */
  lemma {:induction false} AliasPositionsComplete(children: seq<Statement>)
    ensures forall k :: 0 <= k < |children| && children[k].TypeAliasDeclaration? ==> k in AliasPositions(children)
  {
    if |children| > 0 {
      var n := |children| - 1;
      var front := children[..n];
      AliasPositionsComplete(front);
      var pos := AliasPositions(children);
      assert AliasPositions(front) <= pos;
      forall k | 0 <= k < |children| && children[k].TypeAliasDeclaration?
        ensures k in pos
      {
        if k < n {
          assert front[k] == children[k];
        } else {
          assert pos[|pos| - 1] == n;
        }
      }
    }
  }

  /** The lines of a whole file: one per alias child, in source order. */
  function DeclarationLines<Ty>(children: seq<Statement>, program: Program<Ty>, declarations: bool): seq<string>
  {
    var aliases := Aliases(children);
    seq(|aliases|, i requires 0 <= i < |aliases| => AliasLine(aliases[i], program, declarations))
  }

  /** The message of the error thrown when the program has no such source file. */
  function NotFoundMessage(filePath: string): string
  {
    "Could not find source file: " + filePath
  }

  /**
   * What `extractTypesFromSourceFile` yields: the config error first if any, then a missing
   * source file, and otherwise the lines of the file.
   */
  function Extracted<Opts, Ty>(
    filePath: string, declarations: bool, cwd: Path, fileExists: Path -> bool,
    compilerOptionsFromTsConfig: string -> Result<Opts, string>,
    createProgram: (seq<string>, Opts) -> Program<Ty>): Result<seq<string>, Error>
  {
    match compilerOptionsFromTsConfig(ConfigPathText(FirstConfig(cwd, fileExists)))
    case Failure(diagnostics) => Failure(ConfigError(diagnostics))
    case Success(options) =>
      var program := createProgram([filePath], options);
      match program.getSourceFile(filePath)
      case None => Failure(SourceFileNotFound(NotFoundMessage(filePath)))
      case Some(children) => Success(DeclarationLines(children, program, declarations))
  }

  /**
   * `extractTypesFromSourceFile`: locates the config (falling back to `./tsconfig.json`), builds
   * the program, and pushes one line for each alias child while visiting the file's children.
   * `cwd` stands for `process.cwd()` and `fileExists` for `ts.sys.fileExists`.
   */
  method ExtractTypesFromSourceFile<Opts, Ty>(
    filePath: string, declarations: bool, cwd: Path, fileExists: Path -> bool,
    compilerOptionsFromTsConfig: string -> Result<Opts, string>,
    createProgram: (seq<string>, Opts) -> Program<Ty>)
    returns (r: Result<seq<string>, Error>)
    ensures r == Extracted(filePath, declarations, cwd, fileExists, compilerOptionsFromTsConfig, createProgram)
  {
    var found := FindTsConfigPath(cwd, fileExists);
    var options := compilerOptionsFromTsConfig(ConfigPathText(found));
    if options.Failure? {
      return Failure(ConfigError(options.error));
    }
    var program := createProgram([filePath], options.value);
    var sourceFile := program.getSourceFile(filePath);
    if sourceFile.None? {
      return Failure(SourceFileNotFound(NotFoundMessage(filePath)));
    }
    var children := sourceFile.value;
    var res: seq<string> := [];
    var i := 0;
    while i < |children|
      invariant i <= |children|
      invariant res == DeclarationLines(children[..i], program, declarations)
    {
      var node := children[i];
      assert children[..i + 1][..i] == children[..i];
      if node.TypeAliasDeclaration? {
        res := res + [AliasLine(node.alias, program, declarations)];
      }
      assert res == DeclarationLines(children[..i + 1], program, declarations);
      i := i + 1;
    }
    assert children[..i] == children;
    return Success(res);
  }

  /**
   * The lines of a file are its alias children's lines, in source order, one each; the children
   * that are not aliases contribute nothing and no alias is dropped.
   */
  lemma {:induction false} OneLinePerAlias<Ty>(children: seq<Statement>, program: Program<Ty>, declarations: bool)
    ensures |DeclarationLines(children, program, declarations)| == |AliasPositions(children)|
    ensures forall i :: 0 <= i < |AliasPositions(children)| ==>
              AliasPositions(children)[i] < |children| &&
              children[AliasPositions(children)[i]].TypeAliasDeclaration? &&
              DeclarationLines(children, program, declarations)[i]
                == AliasLine(children[AliasPositions(children)[i]].alias, program, declarations)
    ensures forall i, j :: 0 <= i < j < |AliasPositions(children)| ==>
              AliasPositions(children)[i] < AliasPositions(children)[j]
    ensures forall k :: 0 <= k < |children| && children[k].TypeAliasDeclaration? ==> k in AliasPositions(children)
  {
    AliasesAtPositions(children);
    AliasPositionsIncrease(children);
    AliasPositionsComplete(children);
  }

  /**
   * Running with and without the ambient flag gives the same number of lines, and each ambient
   * line is the plain one with `declare ` inserted after its leading `export `.
   */
  lemma AmbientSwitch<Ty>(children: seq<Statement>, program: Program<Ty>)
    ensures var plain := DeclarationLines(children, program, false);
            var ambient := DeclarationLines(children, program, true);
            && |ambient| == |plain|
            && forall i :: 0 <= i < |plain| ==>
                 && |plain[i]| >= |ExportPrefix|
                 && plain[i][..|ExportPrefix|] == ExportPrefix
                 && ambient[i] == ExportPrefix + DeclareKeyword + plain[i][|ExportPrefix|..]
  {
    var aliases := Aliases(children);
    forall i | 0 <= i < |aliases|
      ensures var plain := DeclarationLines(children, program, false)[i];
              && |plain| >= |ExportPrefix|
              && plain[..|ExportPrefix|] == ExportPrefix
              && DeclarationLines(children, program, true)[i] == ExportPrefix + DeclareKeyword + plain[|ExportPrefix|..]
    {
      DeclareIsTheOnlyDifference(aliases[i], TypeText(program.getTypeFromTypeNode(aliases[i]), program.typeToString));
    }
  }
}
