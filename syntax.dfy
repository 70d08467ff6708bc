/**
 * The part of a source file's syntax tree the cloner looks at. The tree itself is built by
 * the TypeScript compiler; these values are the views of it the cloner reads.
 */
module Syntax {
  import opened Wrappers

  /** One type parameter: its name and, when written, the source text of its `extends` constraint. */
  datatype TypeParameter = TypeParameter(name: string, constraint: Option<string>)

  /**
   * A `type Name<...> = ...` declaration. `typeParameters` is `None` when no `<...>` list is
   * written; `typeText` is the source text of the right-hand side.
   */
  datatype TypeAlias = TypeAlias(name: string, typeParameters: Option<seq<TypeParameter>>, typeText: string)

  /** A direct child of a source file: a type alias, or any other statement. */
  datatype Statement = TypeAliasDeclaration(alias: TypeAlias) | OtherStatement(text: string)
}
