/** Hand-written matchers for the four regular expressions the version
    strategies use. Each pattern has the shape
    `NAME\s*=\s*["']([^"']+)["']`, whose greedy parts never need to give
    characters back, so the match at a fixed position is unique and a
    left-to-right scan finds the match the regular-expression engine
    reports (the leftmost one). */
module VersionPatterns {
  import opened Wrappers
  import opened JsText

  /** End of the run of `\s` characters starting at `i`. */
  function SkipSpaces(s: string, i: nat): (j: nat)
    requires i <= |s|
    ensures i <= j <= |s|
    ensures j == |s| || !IsSpace(s[j])
    decreases |s| - i
  {
    if i < |s| && IsSpace(s[i]) then SkipSpaces(s, i + 1) else i
  }

  /** End of the run of `[^"']` characters starting at `i`. */
  function SkipNonQuotes(s: string, i: nat): (j: nat)
    requires i <= |s|
    ensures i <= j <= |s|
    ensures j == |s| || IsQuote(s[j])
    decreases |s| - i
  {
    if i < |s| && !IsQuote(s[i]) then SkipNonQuotes(s, i + 1) else i
  }

  /** Everything `\s*` consumes is white space. */
  lemma {:induction false} SkipSpacesConsumesSpaces(s: string, i: nat)
    requires i <= |s|
    ensures AllSpaces(s[i..SkipSpaces(s, i)])
    decreases |s| - i
  {
    if i < |s| && IsSpace(s[i]) {
      SkipSpacesConsumesSpaces(s, i + 1);
      assert s[i..SkipSpaces(s, i)] == [s[i]] + s[i + 1..SkipSpaces(s, i + 1)];
    }
  }

  /** Everything `[^"']+` consumes is quote-free. */
  lemma {:induction false} SkipNonQuotesConsumesNonQuotes(s: string, i: nat)
    requires i <= |s|
    ensures NoQuotes(s[i..SkipNonQuotes(s, i)])
    decreases |s| - i
  {
    if i < |s| && !IsQuote(s[i]) {
      SkipNonQuotesConsumesNonQuotes(s, i + 1);
      assert s[i..SkipNonQuotes(s, i)] == [s[i]] + s[i + 1..SkipNonQuotes(s, i + 1)];
    }
  }

  /** The capture group of `name\s*=\s*["']([^"']+)["']` anchored at
      position `q` of `s`, or None when the pattern does not match there. */
  function AssignAt(s: string, q: nat, name: string): Option<string> {
    if q + |name| <= |s| && s[q..q + |name|] == name then QuotedAfterEquals(s, q + |name|)
    else None
  }

  /** The capture of `\s*=\s*["']([^"']+)["']` anchored at position `i`. */
  function QuotedAfterEquals(s: string, i: nat): Option<string>
    requires i <= |s|
  {
    var e1 := SkipSpaces(s, i);
    if e1 < |s| && s[e1] == '=' then
      var e2 := SkipSpaces(s, e1 + 1);
      if e2 < |s| && IsQuote(s[e2]) then
        var e3 := SkipNonQuotes(s, e2 + 1);
        if e2 + 1 < e3 < |s| then Some(s[e2 + 1..e3]) else None
      else None
    else None
  }

  /** The text of `s` from `i` on reads spaces, `=`, spaces (the `=` at
      `e1`), an opening quote at `e2`, the non-empty quote-free value `v`,
      and a closing quote (either quote character at either end). */
  predicate ValueLayout(s: string, i: nat, e1: nat, e2: nat, v: string) {
    && i <= e1 < e2
    && e2 + 1 + |v| < |s|
    && AllSpaces(s[i..e1])
    && s[e1] == '='
    && AllSpaces(s[e1 + 1..e2])
    && IsQuote(s[e2])
    && v != []
    && NoQuotes(v)
    && s[e2 + 1..e2 + 1 + |v|] == v
    && IsQuote(s[e2 + 1 + |v|])
  }

  /** The text of `s` from `q` on reads `name` and then the value layout. */
  predicate AssignLayout(s: string, q: nat, name: string, e1: nat, e2: nat, v: string) {
    && q + |name| <= |s|
    && s[q..q + |name|] == name
    && ValueLayout(s, q + |name|, e1, e2, v)
  }

  lemma {:induction false} SkipSpacesUnique(s: string, i: nat, j: nat)
    requires i <= j < |s|
    requires AllSpaces(s[i..j]) && !IsSpace(s[j])
    ensures SkipSpaces(s, i) == j
    decreases j - i
  {
    if i < j {
      assert s[i..j][0] == s[i];
      assert s[i + 1..j] == s[i..j][1..];
      SkipSpacesUnique(s, i + 1, j);
    }
  }

  lemma {:induction false} SkipNonQuotesUnique(s: string, i: nat, j: nat)
    requires i <= j < |s|
    requires NoQuotes(s[i..j]) && IsQuote(s[j])
    ensures SkipNonQuotes(s, i) == j
    decreases j - i
  {
    if i < j {
      assert s[i..j][0] == s[i];
      assert s[i + 1..j] == s[i..j][1..];
      SkipNonQuotesUnique(s, i + 1, j);
    }
  }

  /** The matcher agrees with the pattern: it captures `v` at `q` exactly
      when the text there has the layout the pattern describes. */
  lemma AssignAtMeans(s: string, q: nat, name: string, v: string)
    ensures AssignAt(s, q, name) == Some(v) <==>
      exists e1: nat, e2: nat :: AssignLayout(s, q, name, e1, e2, v)
  {
    if AssignAt(s, q, name) == Some(v) {
      var e1, e2 := AssignAtSound(s, q, name);
    }
    if e1: nat, e2: nat :| AssignLayout(s, q, name, e1, e2, v) {
      AssignAtComplete(s, q, name, e1, e2, v);
    }
  }

  lemma AssignAtSound(s: string, q: nat, name: string) returns (e1: nat, e2: nat)
    requires AssignAt(s, q, name).Some?
    ensures AssignLayout(s, q, name, e1, e2, AssignAt(s, q, name).value)
  {
    e1 := SkipSpaces(s, q + |name|);
    e2 := SkipSpaces(s, e1 + 1);
    SkipSpacesConsumesSpaces(s, q + |name|);
    SkipSpacesConsumesSpaces(s, e1 + 1);
    SkipNonQuotesConsumesNonQuotes(s, e2 + 1);
  }

  lemma AssignAtComplete(s: string, q: nat, name: string, e1: nat, e2: nat, v: string)
    requires AssignLayout(s, q, name, e1, e2, v)
    ensures AssignAt(s, q, name) == Some(v)
  {
    QuotedAfterEqualsComplete(s, q + |name|, e1, e2, v);
  }

  lemma QuotedAfterEqualsComplete(s: string, i: nat, e1: nat, e2: nat, v: string)
    requires ValueLayout(s, i, e1, e2, v)
    ensures QuotedAfterEquals(s, i) == Some(v)
  {
    var e3 := e2 + 1 + |v|;
    SkipSpacesUnique(s, i, e1);
    SkipSpacesUnique(s, e1 + 1, e2);
    SkipNonQuotesUnique(s, e2 + 1, e3);
  }

  /** Leftmost position at or after `from` where the pattern matches: the
      match an unanchored regular-expression search reports. */
  function FindAssign(s: string, from: nat, name: string): (r: Option<nat>)
    ensures r.Some? ==> from <= r.value <= |s| && AssignAt(s, r.value, name).Some?
    ensures r.Some? ==> forall q | from <= q < r.value :: AssignAt(s, q, name).None?
    ensures r.None? ==> forall q | from <= q <= |s| :: AssignAt(s, q, name).None?
    decreases |s| - from
  {
    if from > |s| then None
    else if AssignAt(s, from, name).Some? then Some(from)
    else FindAssign(s, from + 1, name)
  }

  /** Position `q` is where `^` matches under the multiline flag. */
  predicate LineStart(s: string, q: nat) {
    q == 0 || (0 < q <= |s| && IsLineTerminator(s[q - 1]))
  }

  /** Leftmost line start at or after `from` where the pattern matches:
      the search `/^name.../m` performs. */
  function FindAssignAtLineStart(s: string, from: nat, name: string): (r: Option<nat>)
    ensures r.Some? ==> from <= r.value <= |s| && LineStart(s, r.value)
    ensures r.Some? ==> AssignAt(s, r.value, name).Some?
    ensures r.Some? ==> forall q | from <= q < r.value && LineStart(s, q) :: AssignAt(s, q, name).None?
    ensures r.None? ==> forall q | from <= q <= |s| && LineStart(s, q) :: AssignAt(s, q, name).None?
    decreases |s| - from
  {
    if from > |s| then None
    else if LineStart(s, from) && AssignAt(s, from, name).Some? then Some(from)
    else
      var r := FindAssignAtLineStart(s, from + 1, name);
      assert LineStart(s, from) ==> AssignAt(s, from, name).None?;
      r
  }

  /** The literal `pat` occurs in `s` at position `i`. */
  predicate OccursAt(s: string, pat: string, i: nat) {
    i + |pat| <= |s| && s[i..i + |pat|] == pat
  }

  /** Leftmost occurrence of `pat` at or after `from`. */
  function IndexOf(s: string, pat: string, from: nat): (r: Option<nat>)
    ensures r.Some? ==> from <= r.value && OccursAt(s, pat, r.value)
    ensures r.Some? ==> forall i | from <= i < r.value :: !OccursAt(s, pat, i)
    ensures r.None? ==> forall i | from <= i :: !OccursAt(s, pat, i)
    decreases |s| - from
  {
    if from + |pat| > |s| then None
    else if s[from..from + |pat|] == pat then Some(from)
    else IndexOf(s, pat, from + 1)
  }

  const ProjectHeader: string := "[project]"

  /** `/\[project\][\s\S]*?version\s*=\s*["']([^"']+)["']/`: the section
      header, then the nearest `version = "..."` anywhere after it (the lazy
      gap may cross later section headers and needs no word boundary). */
  function ProjectSectionVersion(s: string): Option<string> {
    match IndexOf(s, ProjectHeader, 0)
    case None => None
    case Some(h) =>
      match FindAssign(s, h + |ProjectHeader|, "version")
      case None => None
      case Some(q) => AssignAt(s, q, "version")
  }

  /** A match of the section pattern that starts with the header at `h` and
      whose `version` begins at `q`. */
  predicate SectionMatch(s: string, h: nat, q: nat) {
    OccursAt(s, ProjectHeader, h) && h + |ProjectHeader| <= q && AssignAt(s, q, "version").Some?
  }

  /** The section matcher fails exactly when the regular expression has no
      match at all. */
  lemma ProjectSectionVersionFails(s: string)
    ensures ProjectSectionVersion(s).None? <==>
      forall h: nat, q: nat | q <= |s| :: !SectionMatch(s, h, q)
  {
    var n := |ProjectHeader|;
    match IndexOf(s, ProjectHeader, 0) {
      case None =>
      case Some(h) =>
        match FindAssign(s, h + n, "version") {
          case None =>
            forall h': nat, q': nat | q' <= |s| ensures !SectionMatch(s, h', q') {
              if h' < h {
                assert !OccursAt(s, ProjectHeader, h');
              } else if h + n <= q' {
                assert AssignAt(s, q', "version").None?;
              }
            }
          case Some(q) =>
            assert SectionMatch(s, h, q);
        }
    }
  }

  /** When it succeeds, the section matcher returns the capture of the match
      the regular expression reports: the leftmost header start `h` and,
      from there, the shortest lazy gap, i.e. the smallest `q`. */
  lemma ProjectSectionVersionLeftmost(s: string)
    requires ProjectSectionVersion(s).Some?
    ensures exists h: nat, q: nat | q <= |s| ::
      && SectionMatch(s, h, q)
      && ProjectSectionVersion(s) == AssignAt(s, q, "version")
      && (forall h': nat, q': nat | h' < h && q' <= |s| :: !SectionMatch(s, h', q'))
      && (forall q': nat | q' < q :: !SectionMatch(s, h, q'))
  {
    var n := |ProjectHeader|;
    var h := IndexOf(s, ProjectHeader, 0).value;
    var q := FindAssign(s, h + n, "version").value;
    assert SectionMatch(s, h, q);
    forall h': nat, q': nat | h' < h && q' <= |s| ensures !SectionMatch(s, h', q') {
      assert !OccursAt(s, ProjectHeader, h');
    }
    forall q': nat | q' < q ensures !SectionMatch(s, h, q') {
      if h + n <= q' {
        assert AssignAt(s, q', "version").None?;
      }
    }
  }

  /** `/^version\s*=\s*["']([^"']+)["']/m`: the first `version = "..."` that
      starts a line. */
  function LineStartVersion(s: string): Option<string> {
    match FindAssignAtLineStart(s, 0, "version")
    case None => None
    case Some(q) => AssignAt(s, q, "version")
  }

  /** `/__version__\s*=\s*["']([^"']+)["']/`: the first `__version__ = "..."`
      anywhere in the text. */
  function DunderVersion(s: string): Option<string> {
    match FindAssign(s, 0, "__version__")
    case None => None
    case Some(q) => AssignAt(s, q, "__version__")
  }

  /** Every capture is a non-empty run of characters other than quotes. */
  lemma {:induction false} CaptureShape(s: string, q: nat, name: string)
    requires AssignAt(s, q, name).Some?
    ensures AssignAt(s, q, name).value != []
    ensures NoQuotes(AssignAt(s, q, name).value)
  {
    var v := AssignAt(s, q, name).value;
    AssignAtMeans(s, q, name, v);
  }

  /** What the section pattern captures is a non-empty, quote-free value. */
  lemma ProjectSectionVersionShape(s: string)
    ensures ProjectSectionVersion(s).Some? ==>
      ProjectSectionVersion(s).value != [] && NoQuotes(ProjectSectionVersion(s).value)
  {
    match IndexOf(s, ProjectHeader, 0) {
      case None =>
      case Some(h) =>
        match FindAssign(s, h + |ProjectHeader|, "version") {
          case None =>
          case Some(q) => CaptureShape(s, q, "version");
        }
    }
  }

  /** What the line-start pattern captures is a non-empty, quote-free value. */
  lemma LineStartVersionShape(s: string)
    ensures LineStartVersion(s).Some? ==>
      LineStartVersion(s).value != [] && NoQuotes(LineStartVersion(s).value)
  {
    match FindAssignAtLineStart(s, 0, "version") {
      case None =>
      case Some(q) => CaptureShape(s, q, "version");
    }
  }
}
