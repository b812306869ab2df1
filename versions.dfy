/** Version resolution: each strategy reads one source and either yields a
    version or fails; the Python resolver tries them in a fixed order and
    the first success wins, with the sentinel `unknown` when all fail. */
module Versions {
  import opened Wrappers
  import opened JsText
  import opened Paths
  import opened VersionPatterns

  const Unknown: string := "unknown"

  /** `extractVersionFromPyproject`, given the file's text (None when it is
      missing or cannot be read): the `[project]` pattern first, the
      line-initial `version = "..."` only if that fails, else `unknown`. */
  function PyprojectVersion(content: Option<string>): string {
    match content
    case None => Unknown
    case Some(text) =>
      match ProjectSectionVersion(text)
      case Some(v) => v
      case None => LineStartVersion(text).GetOr(Unknown)
  }

  /** The pyproject strategy never yields the empty string or a quote: its
      result is `unknown` or a capture of one of its two patterns, the
      section pattern preferred. */
  lemma PyprojectVersionSources(content: Option<string>)
    ensures PyprojectVersion(content) != []
    ensures NoQuotes(PyprojectVersion(content))
    ensures content.None? ==> PyprojectVersion(content) == Unknown
    ensures content.Some? && ProjectSectionVersion(content.value).Some? ==>
      PyprojectVersion(content) == ProjectSectionVersion(content.value).value
    ensures content.Some? && ProjectSectionVersion(content.value).None? ==>
      PyprojectVersion(content) == LineStartVersion(content.value).GetOr(Unknown)
  {
    if content.Some? {
      ProjectSectionVersionShape(content.value);
      LineStartVersionShape(content.value);
    }
  }

  /** The `__init__.py` strategy: the `__version__ = "..."` capture, or
      failure when the file is missing, unreadable or has no match. */
  function InitFileVersion(content: Option<string>): Option<string> {
    match content
    case None => None
    case Some(text) => DunderVersion(text)
  }

  /** The git strategy: `git-` and the trimmed output of
      `git rev-parse --short HEAD` (None when the command fails). */
  function GitVersion(output: Option<string>): (r: Option<string>)
    ensures r.Some? <==> output.Some?
    ensures r.Some? ==> |r.value| >= 4 && r.value[..4] == "git-" && r.value[4..] == Trim(output.value)
  {
    match output
    case None => None
    case Some(o) => Some("git-" + Trim(o))
  }

  /** The pyproject strategy returns `unknown` for failure, and the resolver
      compares with it (`if (version !== 'unknown') return version`). */
  function UnlessUnknown(v: string): (r: Option<string>)
    ensures r.None? <==> v == Unknown
    ensures r.Some? ==> r.value == v
  {
    if v == Unknown then None else Some(v)
  }

  /** First-success-wins over the strategies' results, in order. */
  function FirstSuccess(steps: seq<Option<string>>): (r: Option<string>)
    ensures r.None? <==> forall i | 0 <= i < |steps| :: steps[i].None?
    ensures r.Some? ==> exists k | 0 <= k < |steps| ::
      steps[k] == r && forall j | 0 <= j < k :: steps[j].None?
    decreases |steps|
  {
    if steps == [] then None
    else if steps[0].Some? then steps[0]
    else
      var r := FirstSuccess(steps[1..]);
      assert forall i | 1 <= i < |steps| :: steps[i] == steps[1..][i - 1];
      assert r.Some? ==> exists k | 0 <= k < |steps| ::
        steps[k] == r && forall j | 0 <= j < k :: steps[j].None?
      by {
        if r.Some? {
          var k :| 0 <= k < |steps[1..]| && steps[1..][k] == r
            && forall j | 0 <= j < k :: steps[1..][j].None?;
          assert steps[k + 1] == r;
        }
      }
      r
  }

  /** The result is the first step that succeeds, whatever the later ones hold. */
  lemma FirstSuccessIsFirst(steps: seq<Option<string>>, k: nat)
    requires k < |steps| && steps[k].Some?
    requires forall j | 0 <= j < k :: steps[j].None?
    ensures FirstSuccess(steps) == steps[k]
  {
    var r := FirstSuccess(steps);
    var k' :| 0 <= k' < |steps| && steps[k'] == r && forall j | 0 <= j < k' :: steps[j].None?;
    assert k' == k;
  }

  /** The four strategies of `extractVersionFromPython`, in the order tried. */
  function PythonSteps(pyproject: Option<string>, srcInit: Option<string>,
                       packageInit: Option<string>, git: Option<string>): seq<Option<string>>
  {
    [UnlessUnknown(PyprojectVersion(pyproject)), InitFileVersion(srcInit),
     InitFileVersion(packageInit), GitVersion(git)]
  }

  /** `extractVersionFromPython` once the three files and the git output are
      inputs. */
  function PythonVersion(pyproject: Option<string>, srcInit: Option<string>,
                         packageInit: Option<string>, git: Option<string>): string
  {
    FirstSuccess(PythonSteps(pyproject, srcInit, packageInit, git)).GetOr(Unknown)
  }

  /** A strategy decides the result when every earlier one failed, whatever
      the later ones would yield; when all fail the result is `unknown`. */
  lemma PythonVersionOrder(pyproject: Option<string>, srcInit: Option<string>,
                           packageInit: Option<string>, git: Option<string>)
    ensures PyprojectVersion(pyproject) != Unknown ==>
      PythonVersion(pyproject, srcInit, packageInit, git) == PyprojectVersion(pyproject)
    ensures (PyprojectVersion(pyproject) == Unknown && InitFileVersion(srcInit).Some?) ==>
      PythonVersion(pyproject, srcInit, packageInit, git) == InitFileVersion(srcInit).value
    ensures (PyprojectVersion(pyproject) == Unknown && InitFileVersion(srcInit).None?
             && InitFileVersion(packageInit).Some?) ==>
      PythonVersion(pyproject, srcInit, packageInit, git) == InitFileVersion(packageInit).value
    ensures (PyprojectVersion(pyproject) == Unknown && InitFileVersion(srcInit).None?
             && InitFileVersion(packageInit).None? && git.Some?) ==>
      PythonVersion(pyproject, srcInit, packageInit, git) == "git-" + Trim(git.value)
    ensures (PyprojectVersion(pyproject) == Unknown && InitFileVersion(srcInit).None?
             && InitFileVersion(packageInit).None? && git.None?) ==>
      PythonVersion(pyproject, srcInit, packageInit, git) == Unknown
  {
    var steps := PythonSteps(pyproject, srcInit, packageInit, git);
    FourSteps(steps[0], steps[1], steps[2], steps[3]);
    assert steps == [steps[0], steps[1], steps[2], steps[3]];
  }

  /** The chain over four steps, case by case. */
  lemma FourSteps(a: Option<string>, b: Option<string>, c: Option<string>, d: Option<string>)
    ensures a.Some? ==> FirstSuccess([a, b, c, d]) == a
    ensures a.None? && b.Some? ==> FirstSuccess([a, b, c, d]) == b
    ensures a.None? && b.None? && c.Some? ==> FirstSuccess([a, b, c, d]) == c
    ensures a.None? && b.None? && c.None? ==> FirstSuccess([a, b, c, d]) == d
  {
    var steps := [a, b, c, d];
    if a.Some? {
      FirstSuccessIsFirst(steps, 0);
    } else if b.Some? {
      FirstSuccessIsFirst(steps, 1);
    } else if c.Some? {
      FirstSuccessIsFirst(steps, 2);
    } else if d.Some? {
      FirstSuccessIsFirst(steps, 3);
    }
  }

  /** A later source can change the result only if every earlier one failed. */
  lemma PythonVersionIgnoresLaterSources(pyproject: Option<string>, srcInit: Option<string>,
                                         packageInit: Option<string>, git: Option<string>,
                                         srcInit': Option<string>, packageInit': Option<string>,
                                         git': Option<string>)
    ensures PyprojectVersion(pyproject) != Unknown ==>
      PythonVersion(pyproject, srcInit, packageInit, git) ==
      PythonVersion(pyproject, srcInit', packageInit', git')
    ensures InitFileVersion(srcInit).Some? ==>
      PythonVersion(pyproject, srcInit, packageInit, git) ==
      PythonVersion(pyproject, srcInit, packageInit', git')
    ensures InitFileVersion(packageInit).Some? ==>
      PythonVersion(pyproject, srcInit, packageInit, git) ==
      PythonVersion(pyproject, srcInit, packageInit, git')
  {
    PythonVersionOrder(pyproject, srcInit, packageInit, git);
    PythonVersionOrder(pyproject, srcInit', packageInit', git');
    PythonVersionOrder(pyproject, srcInit, packageInit', git');
    PythonVersionOrder(pyproject, srcInit, packageInit, git');
  }

  /** The result is a pyproject version, a marker-file capture, a git tag or
      `unknown`: never anything else, and never empty. */
  lemma PythonVersionCameFromASource(pyproject: Option<string>, srcInit: Option<string>,
                                     packageInit: Option<string>, git: Option<string>)
    ensures var r := PythonVersion(pyproject, srcInit, packageInit, git);
      || r == PyprojectVersion(pyproject)
      || Some(r) == InitFileVersion(srcInit)
      || Some(r) == InitFileVersion(packageInit)
      || Some(r) == GitVersion(git)
      || r == Unknown
    ensures PythonVersion(pyproject, srcInit, packageInit, git) != []
  {
    PythonVersionOrder(pyproject, srcInit, packageInit, git);
    PyprojectVersionSources(pyproject);
    if srcInit.Some? && DunderVersion(srcInit.value).Some? {
      var q := FindAssign(srcInit.value, 0, "__version__").value;
      CaptureShape(srcInit.value, q, "__version__");
    }
    if packageInit.Some? && DunderVersion(packageInit.value).Some? {
      var q := FindAssign(packageInit.value, 0, "__version__").value;
      CaptureShape(packageInit.value, q, "__version__");
    }
  }

  /** Only the pyproject result is compared with `unknown`: a marker file
      declaring `__version__ = "unknown"` ends the search with `unknown`,
      even when git would have given a revision. */
  lemma UnknownMarkerStopsTheChain(pyproject: Option<string>, srcInit: Option<string>,
                                   packageInit: Option<string>, git: Option<string>)
    requires PyprojectVersion(pyproject) == Unknown
    requires InitFileVersion(srcInit) == Some(Unknown)
    ensures PythonVersion(pyproject, srcInit, packageInit, git) == Unknown
  {
    PythonVersionOrder(pyproject, srcInit, packageInit, git);
  }

  /** `extractVersionFromPackageJson`, given the `version` property that
      `JSON.parse` found in `package.json` (None when the file is missing,
      unreadable, not JSON, or has no such property): the property when it
      is non-empty, else `unknown`. */
  function PackageJsonVersion(field: Option<string>): (r: string)
    ensures r == Unknown <==> (field.None? || field.value == [] || field.value == Unknown)
    ensures r != Unknown ==> field == Some(r)
  {
    match field
    case Some(v) => if v != [] then v else Unknown
    case None => Unknown
  }

  /** What the file system and git give the resolver: the files that exist
      and can be read, the output of a successful `git rev-parse --short HEAD`
      per directory, and the string `version` property of each `package.json`
      that parses. */
  datatype Host = Host(
    files: map<string, string>,
    gitShortHead: map<string, string>,
    packageJsonVersion: map<string, string>)

  /** `extractVersionFromPython(projectPath)`: the three files it reads and
      the git query it runs, at the paths it builds. */
  function ResolvePython(host: Host, projectPath: string): string {
    PythonVersion(
      Lookup(host.files, Join(projectPath, "pyproject.toml")),
      Lookup(host.files, Join(Join(projectPath, "src"), "__init__.py")),
      Lookup(host.files, Join(Join(projectPath, PackageFolder(projectPath)), "__init__.py")),
      Lookup(host.gitShortHead, projectPath))
  }

  /** `extractVersionFromPackageJson(projectPath)`. */
  function ResolvePackageJson(host: Host, projectPath: string): string {
    PackageJsonVersion(Lookup(host.packageJsonVersion, Join(projectPath, "package.json")))
  }

  lemma UnderDirectory(dir: string, a: string, b: string)
    ensures dir + "/" <= Join(dir, a)
    ensures dir + "/" <= Join(Join(dir, a), b)
  {
    assert Join(Join(dir, a), b) == dir + "/" + (a + "/" + b);
  }

  /** A project with none of the files and no git repository resolves to
      `unknown`; with only a git repository, to `git-` and the revision. */
  lemma ResolvePythonWithoutFiles(host: Host, projectPath: string)
    requires forall p | p in host.files :: !(projectPath + "/" <= p)
    ensures projectPath !in host.gitShortHead ==> ResolvePython(host, projectPath) == Unknown
    ensures projectPath in host.gitShortHead ==>
      ResolvePython(host, projectPath) == "git-" + Trim(host.gitShortHead[projectPath])
  {
    var p1 := Join(projectPath, "pyproject.toml");
    var p2 := Join(Join(projectPath, "src"), "__init__.py");
    var p3 := Join(Join(projectPath, PackageFolder(projectPath)), "__init__.py");
    UnderDirectory(projectPath, "pyproject.toml", []);
    UnderDirectory(projectPath, "src", "__init__.py");
    UnderDirectory(projectPath, PackageFolder(projectPath), "__init__.py");
    assert p1 !in host.files && p2 !in host.files && p3 !in host.files;
    var g := Lookup(host.gitShortHead, projectPath);
    assert ResolvePython(host, projectPath) == PythonVersion(None, None, None, g);
    PythonVersionOrder(None, None, None, g);
  }
}
