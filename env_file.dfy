/** The `.env` overlay: the text of `<install root>/.env` becomes the
    `envVars` object that every service's environment starts from. */
module EnvFile {
  import opened Wrappers
  import opened JsText

  /** What the loader finds at `<install root>/.env`. `Unreadable` is a file
      that exists but cannot be read (a directory, no permission): the read
      is outside any try/catch, so the whole configuration fails to load. */
  datatype EnvSource = Missing | Unreadable | Readable(text: string)

  /** `v.replace(/^["']|["']$/g, '')`: one leading and one trailing quote
      are removed, each on its own, whether or not they match. */
  function StripQuotes(v: string): (r: string) {
    var a := if v != [] && IsQuote(v[0]) then v[1..] else v;
    if a != [] && IsQuote(a[|a| - 1]) then a[..|a| - 1] else a
  }

  /** Quotes at both ends go, matching or not, and only one at each end. */
  lemma StripQuotesBoth(q1: char, m: string, q2: char)
    requires IsQuote(q1) && IsQuote(q2)
    ensures StripQuotes([q1] + m + [q2]) == m
  {
    var v := [q1] + m + [q2];
    assert v[1..] == m + [q2];
    assert (m + [q2])[..|m|] == m;
  }

  /** A leading quote goes when the last character is not a quote, even
      when the next one is: `''abc` becomes `'abc`. */
  lemma StripQuotesLeading(q: char, m: string)
    requires IsQuote(q)
    requires m == [] || !IsQuote(m[|m| - 1])
    ensures StripQuotes([q] + m) == m
  {
    assert ([q] + m)[1..] == m;
  }

  /** A trailing quote goes when the first character is not a quote, even
      when the one before it is: `abc''` becomes `abc'`. */
  lemma StripQuotesTrailing(q: char, m: string)
    requires IsQuote(q)
    requires m == [] || !IsQuote(m[0])
    ensures StripQuotes(m + [q]) == m
  {
    assert (m + [q])[..|m|] == m;
    if m != [] {
      assert (m + [q])[0] == m[0];
    }
  }

  /** Text without a quote at either end is left alone: no unescaping. */
  lemma StripQuotesUnquoted(m: string)
    requires m == [] || (!IsQuote(m[0]) && !IsQuote(m[|m| - 1]))
    ensures StripQuotes(m) == m
  {
  }

  /** The entry one line contributes: `const [key, value] = line.split('=')`,
      kept when both are non-empty, stored as `key.trim()` and the trimmed,
      quote-stripped value. */
  function ParseLine(line: string): Option<(string, string)> {
    var parts := Split(line, '=');
    if |parts| >= 2 && parts[0] != [] && parts[1] != [] then
      Some((Trim(parts[0]), StripQuotes(Trim(parts[1]))))
    else
      None
  }

  /** A line without `=` contributes nothing. */
  lemma ParseLineWithoutEquals(line: string)
    requires '=' !in line
    ensures ParseLine(line).None?
  {
    SplitNoSeparator(line, '=');
  }

  /** A line is `key=value` followed by nothing or by more `=`-separated
      text. It contributes an entry exactly when the raw `key` and `value`
      (before trimming) are both non-empty, and whatever follows a second
      `=` is dropped. */
  lemma {:induction false} ParseLineFields(key: string, value: string, rest: string)
    requires '=' !in key && '=' !in value
    requires rest == [] || rest[0] == '='
    ensures ParseLine(key + "=" + value + rest) ==
      if key != [] && value != [] then Some((Trim(key), StripQuotes(Trim(value)))) else None
  {
    var line := key + "=" + value + rest;
    assert line == key + ['='] + (value + rest);
    SplitAtFirst(key, value + rest, '=');
    if rest == [] {
      assert value + rest == value;
      SplitNoSeparator(value, '=');
    } else {
      assert value + rest == value + ['='] + rest[1..];
      SplitAtFirst(value, rest[1..], '=');
    }
  }

  /** A second `=` truncates the value: the line reads as if it ended there. */
  lemma SecondEqualsTruncates(key: string, value: string, rest: string)
    requires '=' !in key && '=' !in value
    ensures ParseLine(key + "=" + value + "=" + rest) == ParseLine(key + "=" + value)
  {
    ParseLineFields(key, value, "=" + rest);
    assert key + "=" + value + "=" + rest == key + "=" + value + ("=" + rest);
    ParseLineFields(key, value, []);
    assert key + "=" + value + [] == key + "=" + value;
  }

  /** A key made of spaces passes the non-empty test and is stored under the
      empty name. */
  lemma BlankKeyStoredAsEmpty(spaces: string, value: string)
    requires spaces != [] && AllSpaces(spaces)
    requires '=' !in value && value != []
    ensures ParseLine(spaces + "=" + value) == Some(([], StripQuotes(Trim(value))))
  {
    assert '=' !in spaces by {
      assert !IsSpace('=');
    }
    ParseLineFields(spaces, value, []);
    assert spaces + "=" + value + [] == spaces + "=" + value;
    TrimPadded(spaces, [], []);
    assert spaces + [] + [] == spaces;
  }

  /** An empty raw value drops the line, even though it names a key. */
  lemma EmptyValueDropped(key: string)
    requires '=' !in key
    ensures ParseLine(key + "=").None?
  {
    ParseLineFields(key, [], []);
    assert key + "=" + [] + [] == key + "=";
  }

  /** `KEY=""` (or `KEY=''`, or mixed quotes) passes the non-empty test and
      stores the empty string, which every `||` default later ignores. */
  lemma QuotesOnlyStoredAsEmpty(key: string, quotes: string)
    requires '=' !in key && key != []
    requires |quotes| == 2 && IsQuote(quotes[0]) && IsQuote(quotes[1])
    ensures ParseLine(key + "=" + quotes) == Some((Trim(key), []))
  {
    assert '=' !in quotes;
    assert ParseLine(key + "=" + quotes) == Some((Trim(key), StripQuotes(Trim(quotes)))) by {
      ParseLineFields(key, quotes, []);
      assert key + "=" + quotes + [] == key + "=" + quotes;
    }
    QuotePairEmpties(quotes);
  }

  lemma QuotePairEmpties(quotes: string)
    requires |quotes| == 2 && IsQuote(quotes[0]) && IsQuote(quotes[1])
    ensures StripQuotes(Trim(quotes)) == []
  {
    TrimUnpadded(quotes);
    assert |quotes[1..]| == 1 && quotes[1..][0] == quotes[1];
  }

  /** `envVars[key] = value` for the line's entry, if it has one. */
  function ApplyLine(env: map<string, string>, line: string): map<string, string> {
    match ParseLine(line)
    case Some((k, v)) => env[k := v]
    case None => env
  }

  /** The object the `forEach` loop leaves after the given lines. */
  function FoldLines(lines: seq<string>): map<string, string>
    decreases |lines|
  {
    if lines == [] then map[] else ApplyLine(FoldLines(lines[..|lines| - 1]), lines[|lines| - 1])
  }

  /** The line produces an entry for `k`. */
  predicate Defines(line: string, k: string) {
    ParseLine(line).Some? && ParseLine(line).value.0 == k
  }

  /** The overlay, or None when loading the configuration throws. */
  function Overlay(src: EnvSource): Option<map<string, string>> {
    match src
    case Missing => Some(map[])
    case Unreadable => None
    case Readable(text) => Some(FoldLines(Split(text, '\n')))
  }

  /** The loader of the configuration file: an empty object, filled line by
      line by the `forEach` loop when the file exists. */
  method LoadEnvFile(src: EnvSource) returns (envVars: Option<map<string, string>>)
    ensures envVars == Overlay(src)
  {
    var vars: map<string, string> := map[];
    match src {
      case Missing =>
      case Unreadable =>
        return None;
      case Readable(text) =>
        var lines := Split(text, '\n');
        var i := 0;
        while i < |lines|
          invariant 0 <= i <= |lines|
          invariant vars == FoldLines(lines[..i])
        {
          var parts := Split(lines[i], '=');
          assert FoldLines(lines[..i + 1]) == ApplyLine(FoldLines(lines[..i]), lines[i]) by {
            assert lines[..i + 1][..i] == lines[..i];
          }
          if |parts| >= 2 && parts[0] != [] && parts[1] != [] {
            vars := vars[Trim(parts[0]) := StripQuotes(Trim(parts[1]))];
          }
          i := i + 1;
        }
        assert lines[..|lines|] == lines;
    }
    return Some(vars);
  }

  /** A missing file gives the empty overlay; an unreadable one aborts. */
  lemma OverlayOfMissingOrUnreadable()
    ensures Overlay(Missing) == Some(map[])
    ensures Overlay(Unreadable).None?
  {
  }

  /** The value of a key is the one from the last line that defines it. */
  lemma {:induction false} LastDefinitionWins(lines: seq<string>, k: string, j: nat)
    requires j < |lines| && Defines(lines[j], k)
    requires forall j' | j < j' < |lines| :: !Defines(lines[j'], k)
    ensures k in FoldLines(lines)
    ensures FoldLines(lines)[k] == ParseLine(lines[j]).value.1
    decreases |lines|
  {
    var init := lines[..|lines| - 1];
    if j < |lines| - 1 {
      assert forall j' | j < j' < |init| :: init[j'] == lines[j'];
      LastDefinitionWins(init, k, j);
    }
  }

  /** A key no line defines is absent. */
  lemma {:induction false} UndefinedKeyAbsent(lines: seq<string>, k: string)
    requires forall j | 0 <= j < |lines| :: !Defines(lines[j], k)
    ensures k !in FoldLines(lines)
    decreases |lines|
  {
    if lines != [] {
      var init := lines[..|lines| - 1];
      assert forall j | 0 <= j < |init| :: init[j] == lines[j];
      UndefinedKeyAbsent(init, k);
    }
  }

  /** Every key of the overlay is defined by some line. */
  lemma OverlayKeysDefined(lines: seq<string>, k: string)
    requires k in FoldLines(lines)
    ensures exists j | 0 <= j < |lines| :: Defines(lines[j], k)
  {
    if forall j | 0 <= j < |lines| :: !Defines(lines[j], k) {
      UndefinedKeyAbsent(lines, k);
    }
  }

  /** A plain `key=value` line, with no spaces, quotes or further `=`
      around its two fields, is read as exactly that entry. */
  lemma PlainLine(key: string, value: string)
    requires key != [] && value != []
    requires '=' !in key && '=' !in value
    requires !IsSpace(key[0]) && !IsSpace(key[|key| - 1])
    requires !IsSpace(value[0]) && !IsSpace(value[|value| - 1])
    requires !IsQuote(value[0]) && !IsQuote(value[|value| - 1])
    ensures ParseLine(key + "=" + value) == Some((key, value))
  {
    ParseLineFields(key, value, []);
    assert key + "=" + value + [] == key + "=" + value;
    TrimUnpadded(key);
    TrimUnpadded(value);
    StripQuotesUnquoted(value);
  }

  /** A `.env` file of one plain `key=value` line is the overlay with that
      single entry. */
  lemma SingleLineOverlay(key: string, value: string)
    requires key != [] && value != []
    requires '=' !in key && '=' !in value && '\n' !in key && '\n' !in value
    requires !IsSpace(key[0]) && !IsSpace(key[|key| - 1])
    requires !IsSpace(value[0]) && !IsSpace(value[|value| - 1])
    requires !IsQuote(value[0]) && !IsQuote(value[|value| - 1])
    ensures Overlay(Readable(key + "=" + value)) == Some(map[key := value])
  {
    var line := key + "=" + value;
    assert '\n' !in line by {
      assert forall c | c in line :: c in key || c == '=' || c in value;
    }
    SplitNoSeparator(line, '\n');
    PlainLine(key, value);
    assert FoldLines([line]) == ApplyLine(FoldLines([]), line) by {
      assert [line][..0] == [];
    }
  }
}
