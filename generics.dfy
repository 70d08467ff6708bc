/** The generic clause written after an alias name (`getGenericsOfTypeDeclaration`). */
module Generics {
  import opened Wrappers
  import opened Strings
  import opened Syntax

  const ExtendsKeyword := " extends "
  const ParameterSeparator := ", "

  /** One parameter as written back: its name, then ` extends ` and the constraint text when it has one. */
  function ParameterText(tp: TypeParameter): (r: string)
    ensures |tp.name| <= |r| && r[..|tp.name|] == tp.name
    ensures tp.constraint.None? ==> r == tp.name
    ensures tp.constraint.Some? ==> r[|tp.name|..] == ExtendsKeyword + tp.constraint.value
  {
    match tp.constraint
    case None => tp.name
    case Some(c) => tp.name + ExtendsKeyword + c
  }

  function ParameterTexts(tps: seq<TypeParameter>): seq<string>
  {
    seq(|tps|, i requires 0 <= i < |tps| => ParameterText(tps[i]))
  }

  /**
   * `""` when the alias has no parameter list; otherwise the parameters in declaration order,
   * separated by `, ` and enclosed in `<` and `>` (an empty but present list gives `<>`).
   */
  function GenericsClause(typeParameters: Option<seq<TypeParameter>>): (r: string)
    ensures r == "" <==> typeParameters.None?
    ensures typeParameters.Some? ==> |r| >= 2 && r[0] == '<' && r[|r| - 1] == '>'
  {
    match typeParameters
    case None => ""
    case Some(tps) => "<" + Join(ParameterTexts(tps), ParameterSeparator) + ">"
  }

  /** Where parameter `i` starts in the clause of `tps`. */
  function ParameterOffset(tps: seq<TypeParameter>, i: nat): nat
    requires i <= |tps|
  {
    1 + Offset(ParameterTexts(tps), ParameterSeparator, i)
  }

  /** A slice inside the brackets is the same slice of the enclosed text, one position later. */
  lemma Bracketed(j: string, a: nat, b: nat)
    requires a <= b <= |j|
    ensures ("<" + j + ">")[1 + a .. 1 + b] == j[a .. b]
  {
  }

  /** The clause's length: brackets, every parameter's text, and one separator between neighbours. */
  lemma ClauseLength(tps: seq<TypeParameter>)
    ensures |tps| == 0 ==> GenericsClause(Some(tps)) == "<>"
    ensures |tps| > 0 ==>
      |GenericsClause(Some(tps))| == 2 + TotalLength(ParameterTexts(tps)) + 2 * (|tps| - 1)
  {
    if |tps| > 0 {
      JoinLength(ParameterTexts(tps), ParameterSeparator);
    }
  }

  /** Parameter `i` appears, name first and then its constraint, at its offset in the clause. */
  lemma ParameterAt(tps: seq<TypeParameter>, i: nat)
    requires i < |tps|
    ensures ParameterOffset(tps, i) + |ParameterText(tps[i])| < |GenericsClause(Some(tps))|
    ensures GenericsClause(Some(tps))[ParameterOffset(tps, i) .. ParameterOffset(tps, i) + |ParameterText(tps[i])|]
            == ParameterText(tps[i])
  {
    var items := ParameterTexts(tps);
    var j := Join(items, ParameterSeparator);
    JoinItemAt(items, ParameterSeparator, i);
    var o := Offset(items, ParameterSeparator, i);
    assert items[i] == ParameterText(tps[i]);
    Bracketed(j, o, o + |items[i]|);
  }

  /** Between parameter `i` and parameter `i + 1` the clause holds exactly `, `. */
  lemma SeparatorAt(tps: seq<TypeParameter>, i: nat)
    requires i + 1 < |tps|
    ensures ParameterOffset(tps, i + 1) == ParameterOffset(tps, i) + |ParameterText(tps[i])| + 2
    ensures ParameterOffset(tps, i + 1) < |GenericsClause(Some(tps))|
    ensures GenericsClause(Some(tps))[ParameterOffset(tps, i) + |ParameterText(tps[i])| .. ParameterOffset(tps, i + 1)]
            == ParameterSeparator
  {
    var items := ParameterTexts(tps);
    var j := Join(items, ParameterSeparator);
    JoinSeparatorAt(items, ParameterSeparator, i);
    var a := Offset(items, ParameterSeparator, i) + |items[i]|;
    var b := Offset(items, ParameterSeparator, i + 1);
    assert items[i] == ParameterText(tps[i]);
    Bracketed(j, a, b);
  }
}
