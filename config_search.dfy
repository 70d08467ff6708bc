/**
 * Locating `tsconfig.json` (`findTsConfigPath` and the fallback used by
 * `extractTypesFromSourceFile`).
 *
 * A path is absolute and normalised, written as its list of components: `[]` is `/`,
 * `["home", "me"]` is `/home/me`. On such paths `dirname` drops the last component and
 * `resolve(dir, name)` appends `name`.
 */
module ConfigSearch {
  import opened Wrappers
  import opened Strings

  type Path = seq<string>

  const ConfigFileName := "tsconfig.json"
  const FallbackConfigPath := "./tsconfig.json"

  /** `dirname`: the parent directory; `/` is its own parent. */
  function Dirname(dir: Path): (r: Path)
    ensures |dir| > 0 ==> |r| == |dir| - 1 && r <= dir
    ensures |dir| == 0 ==> r == dir
  {
    if |dir| == 0 then dir else dir[..|dir| - 1]
  }

  /** `resolve(dir, name)` for a single file name. */
  function Resolve(dir: Path, name: string): (r: Path)
    ensures |r| == |dir| + 1 && r[..|dir|] == dir && r[|dir|] == name
  {
    dir + [name]
  }

  /** The text of a path: `/` followed by its components separated by `/`. */
  function PathText(p: Path): (r: string)
    ensures |r| > 0 && r[0] == '/'
  {
    "/" + Join(p, "/")
  }

  /** The config file the search tests in the ancestor of `startDir` that keeps its first `k` components. */
  function Candidate(startDir: Path, k: nat): Path
    requires k <= |startDir|
  {
    Resolve(startDir[..k], ConfigFileName)
  }

  /**
   * What the search answers: the config file of the nearest directory, starting at `dir` and
   * going up, in which it exists; the root is never tested.
   */
  function FirstConfig(dir: Path, fileExists: Path -> bool): Option<Path>
    decreases |dir|
  {
    if |dir| == 0 then None
    else if fileExists(Resolve(dir, ConfigFileName)) then Some(Resolve(dir, ConfigFileName))
    else FirstConfig(Dirname(dir), fileExists)
  }

  /**
   * `findTsConfigPath`: walks from `startDir` up to, but not including, `/`, and returns the
   * first `tsconfig.json` that `fileExists` reports. `fileExists` stands for `ts.sys.fileExists`.
   */
  method FindTsConfigPath(startDir: Path, fileExists: Path -> bool) returns (r: Option<Path>)
    ensures r == FirstConfig(startDir, fileExists)
  {
    var currentDir := startDir;
    while currentDir != []
      invariant FirstConfig(currentDir, fileExists) == FirstConfig(startDir, fileExists)
      decreases |currentDir|
    {
      var potentialPath := Resolve(currentDir, ConfigFileName);
      if fileExists(potentialPath) {
        return Some(potentialPath);
      }
      currentDir := Dirname(currentDir);
    }
    return None;
  }

  /**
   * A found config file belongs to a directory on the ancestor chain of `startDir` other than
   * `/`, exists, and no nearer directory has one: the first match wins.
   */
  lemma {:induction false} FirstConfigIsNearest(startDir: Path, fileExists: Path -> bool)
    requires FirstConfig(startDir, fileExists).Some?
    ensures exists k ::
              && 0 < k <= |startDir|
              && FirstConfig(startDir, fileExists).value == Candidate(startDir, k)
              && fileExists(Candidate(startDir, k))
              && (forall j :: k < j <= |startDir| ==> !fileExists(Candidate(startDir, j)))
  {
    var n := |startDir|;
    if fileExists(Candidate(startDir, n)) {
      assert startDir[..n] == startDir;
      assert FirstConfig(startDir, fileExists).value == Candidate(startDir, n);
    } else {
      assert startDir[..n] == startDir;
      var parent := Dirname(startDir);
      FirstConfigIsNearest(parent, fileExists);
      var k :| 0 < k <= |parent|
        && FirstConfig(parent, fileExists).value == Candidate(parent, k)
        && fileExists(Candidate(parent, k))
        && (forall j :: k < j <= |parent| ==> !fileExists(Candidate(parent, j)));
      forall j | 0 <= j <= |parent|
        ensures Candidate(parent, j) == Candidate(startDir, j)
      {
        assert parent[..j] == startDir[..j];
      }
      assert forall j :: k < j <= n ==> !fileExists(Candidate(startDir, j)) by {
        forall j | k < j <= n
          ensures !fileExists(Candidate(startDir, j))
        {
          if j < n {
            assert Candidate(parent, j) == Candidate(startDir, j);
          }
        }
      }
      assert Candidate(parent, k) == Candidate(startDir, k);
    }
  }

  /** The search finds nothing exactly when no directory on the chain below `/` has the file. */
  lemma {:induction false} FirstConfigNoneIff(startDir: Path, fileExists: Path -> bool)
    ensures FirstConfig(startDir, fileExists).None?
        <==> forall k :: 0 < k <= |startDir| ==> !fileExists(Candidate(startDir, k))
  {
    var n := |startDir|;
    if n > 0 {
      assert startDir[..n] == startDir;
      assert Candidate(startDir, n) == Resolve(startDir, ConfigFileName);
      var parent := Dirname(startDir);
      FirstConfigNoneIff(parent, fileExists);
      forall j | 0 <= j <= |parent|
        ensures Candidate(parent, j) == Candidate(startDir, j)
      {
        assert parent[..j] == startDir[..j];
      }
    }
  }

  /**
   * The answer depends only on what `fileExists` says of the tested candidates; in particular
   * `/tsconfig.json` plays no part.
   */
  lemma {:induction false} FirstConfigIgnoresUntested(startDir: Path, fileExists: Path -> bool, other: Path -> bool)
    requires forall k :: 0 < k <= |startDir| ==> fileExists(Candidate(startDir, k)) == other(Candidate(startDir, k))
    ensures FirstConfig(startDir, fileExists) == FirstConfig(startDir, other)
  {
    var n := |startDir|;
    if n > 0 {
      assert startDir[..n] == startDir;
      assert Candidate(startDir, n) == Resolve(startDir, ConfigFileName);
      var parent := Dirname(startDir);
      forall j | 0 < j <= |parent|
        ensures fileExists(Candidate(parent, j)) == other(Candidate(parent, j))
      {
        assert parent[..j] == startDir[..j];
        assert Candidate(parent, j) == Candidate(startDir, j);
      }
      FirstConfigIgnoresUntested(parent, fileExists, other);
    }
  }

  /** The text of a path with one more component is the directory's text, `/`, and that component. */
  lemma PathTextResolve(dir: Path, name: string)
    requires |dir| > 0
    ensures PathText(Resolve(dir, name)) == PathText(dir) + "/" + name
  {
    JoinSnoc(dir, name, "/");
  }

  /**
   * `findTsConfigPath(cwd) || './tsconfig.json'`: the text of the found path itself, or the
   * fallback relative path when nothing was found.
   */
  function ConfigPathText(found: Option<Path>): (r: string)
    ensures found.Some? ==> r == PathText(found.value)
    ensures r == FallbackConfigPath <==> found.None?
  {
    match found
    case None => FallbackConfigPath
    case Some(p) =>
      assert PathText(p)[0] != FallbackConfigPath[0];
      PathText(p)
  }

  /**
   * The text handed on for candidate `k` is the text of that ancestor directory followed by
   * `/tsconfig.json`.
   */
  lemma CandidateText(startDir: Path, k: nat)
    requires 0 < k <= |startDir|
    ensures ConfigPathText(Some(Candidate(startDir, k))) == PathText(startDir[..k]) + "/" + ConfigFileName
    ensures EndsWith(ConfigPathText(Some(Candidate(startDir, k))), "/" + ConfigFileName)
  {
    PathTextResolve(startDir[..k], ConfigFileName);
    var t := PathText(startDir[..k]) + "/" + ConfigFileName;
    assert t[|t| - |"/" + ConfigFileName|..] == "/" + ConfigFileName;
  }
}
