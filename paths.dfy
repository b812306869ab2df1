/** The path helpers the configuration uses, on clean relative segments:
    `path.join`, `path.basename`, and the package-folder name derived with
    `String.prototype.replace('-', '_')`. */
module Paths {

  /** `path.join(a, b)` for a normalised `a` without a trailing separator and
      a relative `b`. */
  function Join(a: string, b: string): (r: string)
    ensures |r| == |a| + 1 + |b|
    ensures r[..|a|] == a && r[|a|] == '/' && r[|a| + 1..] == b
  {
    a + "/" + b
  }

  /** `path.basename(p)`: the text after the last `/`. */
  function Basename(p: string): (r: string)
    ensures '/' !in r
    ensures |r| <= |p| && p[|p| - |r|..] == r
    ensures |r| < |p| ==> p[|p| - |r| - 1] == '/'
    decreases |p|
  {
    if p == [] then []
    else if p[|p| - 1] == '/' then []
    else
      var q := p[..|p| - 1];
      var b := Basename(q);
      assert p[|p| - |b| - 1..] == q[|q| - |b|..] + [p[|p| - 1]];
      b + [p[|p| - 1]]
  }

  /** The last segment of a joined path is the segment that was joined. */
  lemma {:induction false} BasenameOfJoin(a: string, b: string)
    requires '/' !in b
    ensures Basename(Join(a, b)) == b
  {
    var p := Join(a, b);
    var r := Basename(p);
    assert p[|p| - |b|..] == b;
  }

  /** `s.replace(from, to)` with a one-character string pattern: only the
      first occurrence is replaced. */
  function ReplaceFirst(s: string, from: char, to: char): (r: string)
    ensures |r| == |s|
    ensures forall i | 0 <= i < |s| ::
      r[i] == (if s[i] == from && from !in s[..i] then to else s[i])
    decreases |s|
  {
    if s == [] then []
    else if s[0] == from then [to] + s[1..]
    else
      var rest := ReplaceFirst(s[1..], from, to);
      assert forall i | 1 <= i < |s| :: s[1..][..i - 1] == s[1..i];
      [s[0]] + rest
  }

  /** The package folder the Python strategy looks in:
      `path.basename(projectPath).replace('-', '_')`. */
  function PackageFolder(projectPath: string): string {
    ReplaceFirst(Basename(projectPath), '-', '_')
  }

  /** The first occurrence is replaced and everything after it is kept,
      including later occurrences. */
  lemma {:induction false} ReplaceFirstSplits(a: string, b: string, from: char, to: char)
    requires from !in a
    ensures ReplaceFirst(a + [from] + b, from, to) == a + [to] + b
    decreases |a|
  {
    var s := a + [from] + b;
    if a == [] {
      assert s[0] == from && s[1..] == b;
    } else {
      assert s[0] == a[0] != from;
      assert s[1..] == a[1..] + [from] + b;
      ReplaceFirstSplits(a[1..], b, from, to);
      assert ReplaceFirst(s, from, to) == [a[0]] + ReplaceFirst(s[1..], from, to);
      assert a + [to] + b == [a[0]] + (a[1..] + [to] + b);
    }
  }

  /** Only the first hyphen becomes an underscore: for the directory
      `am-agents-labs` the marker file is looked for under `am_agents-labs`,
      not `am_agents_labs`. */
  lemma PackageFolderFirstHyphenOnly(root: string, a: string, b: string)
    requires '/' !in a && '/' !in b && '-' !in a
    ensures PackageFolder(Join(root, a + "-" + b)) == a + "_" + b
  {
    assert '/' !in a + "-" + b by {
      assert forall c | c in a + "-" + b :: c in a || c == '-' || c in b;
    }
    BasenameOfJoin(root, a + "-" + b);
    ReplaceFirstSplits(a, b, '-', '_');
  }
}
