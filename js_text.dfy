/** The few JavaScript string primitives the configuration file relies on:
    `String.prototype.trim`, `String.prototype.split` with a one-character
    separator, and the quote class `["']`. */
module JsText {

  /** ECMAScript WhiteSpace and LineTerminator code points: exactly what
      `trim()` removes and what `\s` matches in a regular expression. */
  predicate IsSpace(c: char) {
    || c == ' ' || c == '\t' || c == '\n' || c == '\r'
    || c == '\U{000B}' || c == '\U{000C}' || c == '\U{00A0}' || c == '\U{1680}'
    || ('\U{2000}' <= c <= '\U{200A}')
    || c == '\U{2028}' || c == '\U{2029}' || c == '\U{202F}' || c == '\U{205F}'
    || c == '\U{3000}' || c == '\U{FEFF}'
  }

  /** The line terminators that `^` follows in a multiline regular expression. */
  predicate IsLineTerminator(c: char) {
    c == '\n' || c == '\r' || c == '\U{2028}' || c == '\U{2029}'
  }

  /** The character class `["']`. */
  predicate IsQuote(c: char) {
    c == '"' || c == '\''
  }

  predicate AllSpaces(s: string) {
    forall i | 0 <= i < |s| :: IsSpace(s[i])
  }

  predicate NoQuotes(s: string) {
    forall i | 0 <= i < |s| :: !IsQuote(s[i])
  }

  /** What `trimStart()` leaves: the longest suffix that does not start with a space. */
  function TrimStart(s: string): (r: string)
    ensures |r| <= |s| && r == s[|s| - |r|..]
    ensures AllSpaces(s[..|s| - |r|])
    ensures r == [] || !IsSpace(r[0])
    decreases |s|
  {
    if s != [] && IsSpace(s[0]) then
      var r := TrimStart(s[1..]);
      assert s[..|s| - |r|] == [s[0]] + s[1..][..|s| - 1 - |r|];
      r
    else s
  }

  /** What `trimEnd()` leaves: the longest prefix that does not end with a space. */
  function TrimEnd(s: string): (r: string)
    ensures |r| <= |s| && r == s[..|r|]
    ensures AllSpaces(s[|r|..])
    ensures r == [] || !IsSpace(r[|r| - 1])
    decreases |s|
  {
    if s != [] && IsSpace(s[|s| - 1]) then
      var r := TrimEnd(s[..|s| - 1]);
      assert s[|r|..] == s[..|s| - 1][|r|..] + [s[|s| - 1]];
      r
    else s
  }

  /** `s.trim()`. */
  function Trim(s: string): (r: string)
    ensures r == [] <==> AllSpaces(s)
    ensures r != [] ==> !IsSpace(r[0]) && !IsSpace(r[|r| - 1])
  {
    var t := TrimStart(s);
    assert AllSpaces(t) ==> AllSpaces(s) by {
      if AllSpaces(t) {
        assert s == s[..|s| - |t|] + t;
      }
    }
    TrimEnd(t)
  }

  /** Every string is the trimmed string with spaces around it. */
  lemma {:induction false} TrimParts(s: string) returns (lead: string, tail: string)
    ensures AllSpaces(lead) && AllSpaces(tail)
    ensures s == lead + Trim(s) + tail
  {
    var t := TrimStart(s);
    var u := TrimEnd(t);
    var i := |s| - |t|;
    var j := i + |u|;
    lead := s[..i];
    tail := t[|u|..];
    assert s[i..] == t;
    assert s[i..j] == t[..|u|] == u;
    assert s[j..] == tail;
    SplitAround(s, i, j);
  }

  lemma SplitAround(s: string, i: nat, j: nat)
    requires i <= j <= |s|
    ensures s == s[..i] + s[i..j] + s[j..]
  {
  }

  /** Trimming removes exactly the surrounding spaces and nothing inside. */
  lemma {:induction false} TrimPadded(lead: string, core: string, tail: string)
    requires AllSpaces(lead) && AllSpaces(tail)
    requires core == [] || (!IsSpace(core[0]) && !IsSpace(core[|core| - 1]))
    ensures Trim(lead + core + tail) == core
  {
    var s := lead + core + tail;
    assert s == lead + (core + tail);
    if core == [] {
      assert core + tail == tail;
      TrimStartPadded(lead, tail);
      assert TrimStart(s) == [];
    } else {
      assert (core + tail)[0] == core[0];
      TrimStartPadded(lead, core + tail);
      assert !AllSpaces(core + tail) by {
        assert !IsSpace((core + tail)[0]);
      }
      assert TrimStart(s) == core + tail;
      TrimEndPadded(core, tail);
    }
  }

  /** Text with no whitespace at either end is its own trim. */
  lemma TrimUnpadded(s: string)
    requires s == [] || (!IsSpace(s[0]) && !IsSpace(s[|s| - 1]))
    ensures Trim(s) == s
  {
    TrimPadded([], s, []);
    assert [] + s + [] == s;
  }

  lemma {:induction false} TrimStartPadded(lead: string, rest: string)
    requires AllSpaces(lead)
    requires rest == [] || !IsSpace(rest[0]) || AllSpaces(rest)
    ensures TrimStart(lead + rest) == (if AllSpaces(rest) then [] else rest)
    decreases |lead|
  {
    if lead == [] {
      assert lead + rest == rest;
      if AllSpaces(rest) && rest != [] {
        AllSpacesTrimStart(rest);
      }
    } else {
      assert (lead + rest)[1..] == lead[1..] + rest;
      TrimStartPadded(lead[1..], rest);
    }
  }

  lemma {:induction false} AllSpacesTrimStart(s: string)
    requires AllSpaces(s)
    ensures TrimStart(s) == []
    decreases |s|
  {
    if s != [] {
      AllSpacesTrimStart(s[1..]);
    }
  }

  lemma {:induction false} TrimEndPadded(core: string, tail: string)
    requires AllSpaces(tail)
    requires core != [] && !IsSpace(core[|core| - 1])
    ensures TrimEnd(core + tail) == core
    decreases |tail|
  {
    if tail == [] {
      assert core + tail == core;
    } else {
      assert (core + tail)[..|core + tail| - 1] == core + tail[..|tail| - 1];
      TrimEndPadded(core, tail[..|tail| - 1]);
    }
  }

  /** `parts.join(sep)`. */
  function JoinWith(parts: seq<string>, sep: char): string
    decreases |parts|
  {
    if |parts| == 0 then []
    else if |parts| == 1 then parts[0]
    else parts[0] + [sep] + JoinWith(parts[1..], sep)
  }

  /** `s.split(sep)` for a one-character separator: the pieces between the
      separators, an empty piece where two separators touch or at either end. */
  function Split(s: string, sep: char): (r: seq<string>)
    ensures |r| >= 1
    ensures forall i | 0 <= i < |r| :: sep !in r[i]
    ensures JoinWith(r, sep) == s
    decreases |s|
  {
    if s == [] then [[]]
    else
      var rest := Split(s[1..], sep);
      if s[0] == sep then
        assert JoinWith([[]] + rest, sep) == [sep] + JoinWith(rest, sep) by {
          assert ([[]] + rest)[1..] == rest;
        }
        [[]] + rest
      else
        JoinConsChar(s[0], rest, sep);
        [[s[0]] + rest[0]] + rest[1..]
  }

  lemma JoinConsChar(c: char, parts: seq<string>, sep: char)
    requires |parts| >= 1
    ensures JoinWith([[c] + parts[0]] + parts[1..], sep) == [c] + JoinWith(parts, sep)
  {
    var q := [[c] + parts[0]] + parts[1..];
    assert q[1..] == parts[1..];
  }

  /** A piece free of the separator splits into itself. */
  lemma {:induction false} SplitNoSeparator(a: string, sep: char)
    requires sep !in a
    ensures Split(a, sep) == [a]
    decreases |a|
  {
    if a != [] {
      SplitNoSeparator(a[1..], sep);
      assert [a[0]] + a[1..] == a;
    }
  }

  /** Splitting peels off everything before the first separator. */
  lemma {:induction false} SplitAtFirst(a: string, b: string, sep: char)
    requires sep !in a
    ensures Split(a + [sep] + b, sep) == [a] + Split(b, sep)
    decreases |a|
  {
    var s := a + [sep] + b;
    if a == [] {
      assert s[1..] == b;
    } else {
      assert s[1..] == a[1..] + [sep] + b;
      SplitAtFirst(a[1..], b, sep);
      assert [a[0]] + a[1..] == a;
    }
  }

  /** Splitting undoes joining pieces that do not contain the separator. */
  lemma {:induction false} SplitJoin(parts: seq<string>, sep: char)
    requires |parts| >= 1
    requires forall i | 0 <= i < |parts| :: sep !in parts[i]
    ensures Split(JoinWith(parts, sep), sep) == parts
    decreases |parts|
  {
    if |parts| == 1 {
      SplitNoSeparator(parts[0], sep);
    } else {
      SplitJoin(parts[1..], sep);
      SplitAtFirst(parts[0], JoinWith(parts[1..], sep), sep);
      assert [parts[0]] + parts[1..] == parts;
    }
  }
}
