# typeclone, modelled in Dafny

typeclone copies the top-level type aliases of one TypeScript file into a standalone output file.
Each alias is pushed as one declaration line, with its right-hand side replaced by the type
checker's resolved text. A constraint written over several lines is copied with its newlines.
This project models the deterministic logic around the TypeScript compiler in
`src/index.ts`. The compiler itself is outside the model.

- **Generics** (`getGenericsOfTypeDeclaration`): builds the `<T extends C, U>` clause from an
  alias's type parameters. The constraint text is copied verbatim.
- **ConfigSearch** (`findTsConfigPath` and the `|| './tsconfig.json'` fallback): walks up from the
  working directory until it finds a directory that contains `tsconfig.json`. It stops before `/`.
  A path is an absolute, normalised list of components. `[]` is `/`, `dirname` drops the last
  component and `resolve(dir, 'tsconfig.json')` appends the file name. The search is a `while`
  loop, proved equal to the recursive specification `FirstConfig`. The first-match lemmas are
  proved about `FirstConfig`.
- **Extraction** (`extractTypesFromSourceFile` and `processType`): finds the config, builds the
  program and visits the file's direct children. It pushes one line per type alias:
  `export [declare ]type Name<generics> = text`. For a union or an intersection, the text is the
  member types' texts joined by ` | `. For any other type it is the whole type's text. The push
  loop is a method proved equal to the specification function `Extracted`.
- **Cloner** (`cloneTypes`): sets the ambient flag when the output path ends with `.d.ts`, and
  joins the lines with a newline. The result is the text that would be written.
- **Strings**: the JavaScript `join` and `endsWith` these rely on, plus splitting at one character.
  Splitting is the reading side of `join`.

The compiler API is modelled as parameters:
- `compilerOptionsFromTsConfig` gives options or diagnostics text. It stands for
  `getCompilerOptionsFromTsConfig`.
- `createProgram` gives a `Program` record with `getSourceFile`, the checker's
  `getTypeFromTypeNode` and `typeToString`.
- `process.cwd()` becomes the parameter `cwd`.
- `ts.sys.fileExists` becomes the predicate `fileExists`.

Behaviour of the code worth noting:
- No error is raised for an alias whose type cannot be resolved, because `processType` has no
  such check (src/index.ts:70-77).
- Intersections are joined with ` | `, just like unions (src/index.ts:73-74).
- A type-parameter list that is present but empty renders as `<>`, not as nothing. An empty
  array is truthy (src/index.ts:6).

## Model

| member | source | states |
|---|---|---|
| `Generics.ParameterText` | src/index.ts:8-14 | a parameter's text begins with its name; it is the name alone when there is no constraint, and otherwise the name is followed by ` extends ` and the constraint text |
| `Generics.GenericsClause` | src/index.ts:5-18 | the clause is empty exactly when the alias has no parameter list; otherwise it starts with `<` and ends with `>` |
| `Generics.ClauseLength` | src/index.ts:7-15 | an empty list gives `<>`; otherwise the clause is as long as the brackets, every parameter's text, and one `, ` between neighbours |
| `Generics.ParameterAt` | src/index.ts:7-15 | parameter `i` (name, then constraint) appears verbatim at its offset, in declaration order |
| `Generics.SeparatorAt` | src/index.ts:15 | exactly `, ` stands between neighbouring parameters |
| `ConfigSearch.Dirname` | src/index.ts:30 | the parent drops the last component; `/` is its own parent |
| `ConfigSearch.Resolve` | src/index.ts:24 | the candidate path is the directory followed by the file name |
| `ConfigSearch.FindTsConfigPath` | src/index.ts:20-34 | the loop returns what the first-match specification `FirstConfig` gives |
| `ConfigSearch.FirstConfigIsNearest` | src/index.ts:23-30 | a found path is `tsconfig.json` in an ancestor-or-self of the start directory other than `/`; the file exists there; no nearer directory has one |
| `ConfigSearch.FirstConfigNoneIff` | src/index.ts:23-33 | nothing is found exactly when no directory on the chain below `/` has the file |
| `ConfigSearch.FirstConfigIgnoresUntested` | src/index.ts:23 | the result depends only on the tested candidates, so `/tsconfig.json` plays no part |
| `ConfigSearch.ConfigPathText` | src/index.ts:61 | a found path's own text is what is passed on; the fallback `./tsconfig.json` is used exactly when nothing was found |
| `ConfigSearch.PathTextResolve` | src/index.ts:24 | the text of `resolve(dir, name)` is the directory's text, `/`, and the name |
| `ConfigSearch.CandidateText` | src/index.ts:24-27 | the text handed on for a tested directory is that directory's text followed by `/tsconfig.json` |
| `Extraction.MemberAt` | src/index.ts:73-74 | each member type's text appears verbatim at its offset, in the checker's order |
| `Extraction.TypeTextLength` | src/index.ts:74 | a union or intersection's text is its members' texts plus one ` \| ` per gap and nothing else; no members give `""` |
| `Extraction.MemberSeparatorAt` | src/index.ts:74 | exactly ` \| ` separates neighbouring members, for intersections as well |
| `Extraction.DeclareIsTheOnlyDifference` | src/index.ts:78 | the ambient line is the plain line with `declare ` inserted after `export `; the flag can be read back from the line |
| `Extraction.AliasesAtPositions` | src/index.ts:83-87 | entry `i` of the selected aliases is the direct child at the `i`-th alias position |
| `Extraction.AliasPositionsIncrease` | src/index.ts:83-87 | the selected aliases keep their source order |
| `Extraction.AliasPositionsComplete` | src/index.ts:83-87 | every direct child that is a type alias is selected |
| `Extraction.ExtractTypesFromSourceFile` | src/index.ts:60-90 | the config error comes first; then a missing source file fails with `Could not find source file: <path>` before any line exists; otherwise the push loop yields `DeclarationLines` |
| `Extraction.OneLinePerAlias` | src/index.ts:70-89 | there is one line per alias child, in source order, and it is that alias's line; no alias is dropped and other children add nothing |
| `Extraction.AmbientSwitch` | src/index.ts:78 | with and without the flag, a file gives the same number of lines, and line by line they differ only by `declare ` |
| `Cloner.CloneTypes` | src/index.ts:92-95 | lines are ambient exactly when the output path ends with `.d.ts`; the text is the lines joined by a newline; errors pass through |
| `Cloner.OutputReadsBackAsLines` | src/index.ts:94 | split at newlines, the written text gives back every line in order, with no trailing newline; no aliases means an empty file |
| `Cloner.MultiLineConstraintSplitsTheLine` | src/index.ts:11 | a two-line constraint puts a newline inside one declaration line, so the written file reads back as more lines than were pushed |
| `Strings.EndsWithIff` | src/index.ts:93 | `endsWith` holds exactly when the text is some text followed by the suffix |

## Left out

- src/cli.ts is not part of this model: argument checks, the usage message, `process.exit` and
  `console.log`.
- `readFileSync` and `writeFileSync` are left out. `CloneTypes` returns the text instead of
  writing it.
- `process.cwd()` is a parameter. The model does not check that it is absolute.
- The TypeScript compiler API is a set of parameters. Its behaviour is not modelled. This covers
  config parsing, diagnostics formatting, `createProgram`, `getSourceFile`,
  `getTypeFromTypeNode`, `typeToString` and `getText`.
- `getCompilerOptionsFromTsConfig` is only "options or diagnostics text". The diagnostics text
  is assumed to be formatted already.
- ConfigSearch.FindTsConfigPath: works on absolute, normalised component lists only.
  - Relative start directories are not modelled. On them `dirname` reaches `.` and the loop
    never stops.
  - Windows roots are not modelled. `dirname('C:\\')` is `'C:\\'`, which never equals `'/'`, so
    the loop never stops there when no `tsconfig.json` exists above the start.
  - The empty-string test in `while (currentDir && ...)` is always true on absolute paths, so
    it has no counterpart.
  - `..`, `.` and trailing slashes are not normalised.
  - `fileExists` is asked about the component list, not about its text.
- Extraction.ExtractTypesFromSourceFile: only the direct children are visited, as in the code.
  `forEachChild` would stop early on a truthy callback result. The callback returns nothing, so
  that path does not arise.
- Runs do not depend on each other because Dafny functions are deterministic. There is no
  separate idempotence lemma.
- Cloner.OutputReadsBackAsLines: the read-back holds only when no line contains a newline.
  Constraint text is copied verbatim, so a constraint written over several lines breaks it.
  `Cloner.MultiLineConstraintSplitsTheLine` exhibits such an input.
