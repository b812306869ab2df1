# Automagik suite process configuration, modelled in Dafny

`ecosystem.config.js` is the PM2 configuration of the Automagik suite. When
PM2 evaluates it, three things happen in sequence:

1. **The `.env` overlay.** `<install root>/.env` is read, when it exists, into
   the `envVars` object. The loader works line by line: it splits each line on
   `=`, keeps the line when its first two pieces are non-empty, trims key and
   value, and strips a leading and a trailing quote from the value. A later
   line overwrites an earlier one.
2. **Version resolution.** Python services try four sources, in order:
   `pyproject.toml`, `src/__init__.py`, `<package>/__init__.py`, then
   `git rev-parse --short HEAD`. If all fail the version is `unknown`. The web
   UI reads the `version` property of its `package.json`.
3. **The `apps` array.** It holds seven service descriptors. Each one is an
   object literal: working directory, command line, environment
   (`{...envVars, KEY: envVars.KEY || 'default', ...}`), a shared restart
   policy and three log files.

The model is split by module:

| file | module | what it holds |
|---|---|---|
| `wrappers.dfy` | `Wrappers` | `Option`, and map lookup returning `Option`. |
| `js_text.dfy` | `JsText` | The ECMAScript white-space set, `trim`, and `split` on one character, with its join round trip. |
| `paths.dfy` | `Paths` | `path.join`, `path.basename`, and `replace('-', '_')`, which replaces only the first occurrence. |
| `version_patterns.dfy` | `VersionPatterns` | Hand-written scanners for the regular expressions of the version extractors, each proved to find the leftmost match. |
| `versions.dfy` | `Versions` | The extractors, the first-success chain, and the resolvers over a `Host` (files, git output, `package.json` fields). |
| `env_file.dfy` | `EnvFile` | The loader: an imperative method with a loop, proved equal to a left fold over the lines. |
| `catalog.dfy` | `Catalog` | The seven object literals as data, the builder that evaluates one of them, and the top-level `LoadEcosystem`. |
| `catalog_properties.dfy` | `CatalogProperties` | What the assembled array guarantees. |

Versions enter the descriptor builder as an argument. `Catalog.ResolvedVersions`
computes them, and `Catalog.LoadEcosystem` ties the two together.

### Behaviour modelled as the code has it

- The read of `.env` is outside any `try`. A `.env` that exists but cannot be
  read therefore makes the whole file throw: `LoadEnvFile` and
  `LoadEcosystem` return `None`.
- `line.split('=')` splits on every `=`. The value is only the text between the
  first and the second `=`, so `URL=a=b` stores `a`.
- A key of spaces only passes the `key &&` test and is stored under `""`.
  `KEY=""` stores the empty string, which each `||` default then replaces.
- Quote stripping removes one leading and one trailing `'` or `"`
  independently: the quotes need not match, and a lone quote is removed too.
- Only the pyproject result is compared with `unknown`. A marker file that
  declares `__version__ = "unknown"` ends the search with `unknown`, and git is
  never consulted.
- `basename.replace('-', '_')` replaces the first hyphen only. For
  `am-agents-labs`, the marker file is therefore looked for under
  `am_agents-labs/__init__.py`.
- The `[project]` pattern's lazy `[\s\S]*?` is not confined to the section. It
  takes the first `[project]` and then the nearest `version = "..."` after it,
  anywhere later in the file, with no word boundary before `version`.

## Model

| member | source | states |
|---|---|---|
| JsText.Trim | ecosystem.config.js:130 | `trim()` yields the empty string exactly when the input is all white space; otherwise the result starts and ends with non-white-space |
| JsText.TrimParts | ecosystem.config.js:130 | the input is white space, then the trimmed text, then white space |
| JsText.TrimPadded | ecosystem.config.js:130 | white space around a core with no white space at its ends trims back to that core |
| JsText.TrimUnpadded | ecosystem.config.js:130 | text with no white space at either end is its own trim |
| JsText.Split | ecosystem.config.js:127-128 | `split(sep)` gives at least one piece, no piece contains `sep`, and joining the pieces with `sep` restores the input |
| JsText.SplitNoSeparator | ecosystem.config.js:128 | text without the separator splits into itself alone |
| JsText.SplitAtFirst | ecosystem.config.js:128 | the first piece is the text before the first separator, and the rest is the split of what follows it |
| JsText.SplitJoin | ecosystem.config.js:127-128 | splitting a join of separator-free pieces returns exactly those pieces |
| Paths.Join | ecosystem.config.js:142 | `path.join(a, b)` is `a`, one `/`, then `b` |
| Paths.Basename | ecosystem.config.js:74 | the basename has no `/`, is a suffix of the path, and is preceded by `/` when shorter than the path |
| Paths.BasenameOfJoin | ecosystem.config.js:74 | the basename of `join(a, b)` is `b` when `b` is one segment |
| Paths.ReplaceFirst | ecosystem.config.js:75 | the character at a position changes exactly when it is the first occurrence of the pattern; the length is kept |
| Paths.ReplaceFirstSplits | ecosystem.config.js:75 | `(a + "-" + b).replace('-', '_')` is `a + "_" + b` when `a` has no hyphen, and later hyphens in `b` stay |
| Paths.PackageFolderFirstHyphenOnly | ecosystem.config.js:74-75 | the package folder of `root/a-b` is `a_b`, with only the first hyphen replaced |
| VersionPatterns.SkipSpaces | ecosystem.config.js:66 | `\s*` stops at the first non-white-space character or at the end |
| VersionPatterns.SkipNonQuotes | ecosystem.config.js:66 | `[^"']+` stops at the first quote or at the end |
| VersionPatterns.AssignAtMeans | ecosystem.config.js:66 | an anchored match of `NAME\s*=\s*["']([^"']+)["']` at a position succeeds with capture `v` exactly when the text has that layout there |
| VersionPatterns.AssignAtSound | ecosystem.config.js:66 | a successful match exhibits the layout around its capture |
| VersionPatterns.AssignAtComplete | ecosystem.config.js:66 | any text with the layout matches, with the quote-free run as capture |
| VersionPatterns.FindAssign | ecosystem.config.js:66 | the unanchored search returns the leftmost position where the pattern matches, and fails only when it matches nowhere |
| VersionPatterns.FindAssignAtLineStart | ecosystem.config.js:39 | with the `m` flag, the match is the leftmost one at a line start (after `\n`, `\r`, U+2028 or U+2029, or at offset 0) |
| VersionPatterns.IndexOf | ecosystem.config.js:33 | the first occurrence of a literal at or after a position, or none at all |
| VersionPatterns.ProjectSectionVersionFails | ecosystem.config.js:33-36 | the `[project]` matcher fails exactly when no header is followed, anywhere later, by a `version` assignment |
| VersionPatterns.ProjectSectionVersionLeftmost | ecosystem.config.js:33-36 | when it succeeds, it captures the match with the leftmost header and, after it, the nearest assignment: the match the lazy pattern reports |
| VersionPatterns.SkipSpacesConsumesSpaces | ecosystem.config.js:66 | everything `\s*` consumes is white space |
| VersionPatterns.SkipNonQuotesConsumesNonQuotes | ecosystem.config.js:66 | everything `[^"']+` consumes is quote-free |
| VersionPatterns.QuotedAfterEqualsComplete | ecosystem.config.js:66 | text reading spaces, `=`, spaces, a quote, a quote-free value and a quote yields that value |
| VersionPatterns.ProjectSectionVersionShape | ecosystem.config.js:33-36 | what the `[project]` pattern captures is non-empty and quote-free |
| VersionPatterns.LineStartVersionShape | ecosystem.config.js:39-42 | what the line-start pattern captures is non-empty and quote-free |
| VersionPatterns.CaptureShape | ecosystem.config.js:33-42 | every capture is non-empty and contains no quote |
| Versions.PyprojectVersionSources | ecosystem.config.js:22-49 | the section pattern is preferred, the line-start pattern is used only when it fails, and a missing file gives `unknown`; the result is never empty and holds no quote |
| Versions.UnlessUnknown | ecosystem.config.js:59 | the pyproject result counts as a failure exactly when it is `unknown` |
| Versions.GitVersion | ecosystem.config.js:87-97 | the git step succeeds exactly when the command does, with `git-` followed by the trimmed output |
| Versions.FirstSuccess | ecosystem.config.js:56-98 | the chain fails exactly when every step fails; otherwise its result is a step whose predecessors all failed |
| Versions.FirstSuccessIsFirst | ecosystem.config.js:56-98 | the first successful step decides the result, whatever later steps hold |
| Versions.FourSteps | ecosystem.config.js:56-98 | over four steps, the first that succeeds is the result, and the last is taken when the first three fail |
| Versions.PythonVersionOrder | ecosystem.config.js:56-98 | pyproject (unless `unknown`), then `src/__init__.py`, then the package `__init__.py`, then `git-<rev>`, then `unknown` |
| Versions.PythonVersionIgnoresLaterSources | ecosystem.config.js:56-98 | once a source succeeds, changing any later source leaves the version unchanged |
| Versions.PythonVersionCameFromASource | ecosystem.config.js:56-98 | the version is one of the four sources' results or `unknown`, and never empty |
| Versions.UnknownMarkerStopsTheChain | ecosystem.config.js:59-67 | a `src/__init__.py` declaring `unknown` yields `unknown`, even when git would answer |
| Versions.PackageJsonVersion | ecosystem.config.js:105-120 | the result is `unknown` exactly when the file or its `version` is missing or the field is empty (or is `unknown`); otherwise it is the field itself |
| Versions.ResolvePythonWithoutFiles | ecosystem.config.js:56-98 | with no file under the project, the version is `git-` plus the trimmed revision when git answers and `unknown` otherwise |
| EnvFile.StripQuotesBoth | ecosystem.config.js:130 | one quote at each end is removed, matching or not, and only one |
| EnvFile.StripQuotesLeading | ecosystem.config.js:130 | a leading quote is removed when the value does not end in a quote, and nothing else is removed, even a second leading quote (`''abc` gives `'abc`) |
| EnvFile.StripQuotesTrailing | ecosystem.config.js:130 | a trailing quote is removed when the value does not start with a quote, and nothing else is removed, even a second trailing quote (`abc''` gives `abc'`) |
| EnvFile.StripQuotesUnquoted | ecosystem.config.js:130 | a value with no quote at either end is kept unchanged |
| EnvFile.ParseLineWithoutEquals | ecosystem.config.js:128-129 | a line without `=` contributes nothing |
| EnvFile.ParseLineFields | ecosystem.config.js:127-131 | `key=value[=...]` contributes exactly when the raw key and value are non-empty, and stores the trimmed key with the trimmed, quote-stripped value |
| EnvFile.SecondEqualsTruncates | ecosystem.config.js:128-130 | text after a second `=` is dropped |
| EnvFile.BlankKeyStoredAsEmpty | ecosystem.config.js:129-130 | a key of spaces passes the test and is stored as the empty name |
| EnvFile.EmptyValueDropped | ecosystem.config.js:129 | `KEY=` contributes nothing |
| EnvFile.QuotesOnlyStoredAsEmpty | ecosystem.config.js:128-130 | `KEY=""` stores the empty string |
| EnvFile.PlainLine | ecosystem.config.js:128-130 | a plain `key=value` line is read as exactly that pair |
| EnvFile.LoadEnvFile | ecosystem.config.js:123-133 | the loop leaves the left fold of the lines' entries; a missing file gives the empty object; an unreadable one aborts |
| EnvFile.OverlayOfMissingOrUnreadable | ecosystem.config.js:124-126 | a missing `.env` gives the empty overlay; an unreadable one gives none |
| EnvFile.LastDefinitionWins | ecosystem.config.js:127-132 | a key's value comes from the last line that defines it |
| EnvFile.UndefinedKeyAbsent | ecosystem.config.js:127-132 | a key no line defines is absent from the overlay |
| EnvFile.OverlayKeysDefined | ecosystem.config.js:127-132 | every key of the overlay is defined by some line |
| EnvFile.SingleLineOverlay | ecosystem.config.js:123-133 | a `.env` of one plain `key=value` line is the overlay with that single entry |
| Catalog.LogFile | ecosystem.config.js:165-167 | a log file lies in its service directory's `logs` folder and ends with the service's tag and the log kind |
| Catalog.ApplySettingsKeeps | ecosystem.config.js:147-155 | the env literal's keys are the overlay's plus the literal's; overlay keys the literal does not name keep their values |
| Catalog.ApplySettingsLastWins | ecosystem.config.js:147-155 | a key written after the spread takes its value from the last setting that writes it |
| Catalog.LoadEcosystem | ecosystem.config.js:123-375 | the configuration fails exactly when `.env` is unreadable; otherwise it is the seven descriptors built from the overlay and the resolved versions |
| CatalogProperties.AgentsLabsWellFormed | ecosystem.config.js:140-171 | distinct env keys, and `PYTHONPATH` and `NODE_ENV` present |
| CatalogProperties.SparkApiWellFormed | ecosystem.config.js:176-206 | distinct env keys, the port in `args` mirrored by an env entry, and `PYTHONPATH` and `NODE_ENV` present |
| CatalogProperties.SparkWorkerWellFormed | ecosystem.config.js:211-239 | distinct env keys, and `PYTHONPATH` and `NODE_ENV` present |
| CatalogProperties.OmniWellFormed | ecosystem.config.js:244-274 | distinct env keys, port mirrored, and `PYTHONPATH` and `NODE_ENV` present |
| CatalogProperties.ToolsSseWellFormed | ecosystem.config.js:279-308 | distinct env keys, port mirrored, and `PYTHONPATH` and `NODE_ENV` present |
| CatalogProperties.ToolsHttpWellFormed | ecosystem.config.js:313-342 | distinct env keys, port mirrored, and `PYTHONPATH` and `NODE_ENV` present |
| CatalogProperties.UiWellFormed | ecosystem.config.js:347-374 | distinct env keys and `NODE_ENV` present |
| CatalogProperties.ServiceWellFormed | ecosystem.config.js:136-375 | every entry of the catalog is well formed |
| CatalogProperties.ServiceNames | ecosystem.config.js:136-375 | the seven service names, in order |
| CatalogProperties.CatalogOrder | ecosystem.config.js:136-375 | seven descriptors, `am-agents-labs` first and `automagik-ui` last, in the file's order |
| CatalogProperties.BuildPolicyAndPaths | ecosystem.config.js:140-171 | a descriptor has the shared policy, interpreter `none`, the given version, its `cwd` under the install root and its three logs in `cwd/logs/` |
| CatalogProperties.CatalogPolicyAndPaths | ecosystem.config.js:136-375 | the same for all seven, with the `i`-th resolved version on the `i`-th descriptor |
| CatalogProperties.BuildEnvLayering | ecosystem.config.js:147-155 | env keys are the overlay's plus the literal's, untouched overlay keys pass through, and each literal key has its computed value |
| CatalogProperties.EnvLayering | ecosystem.config.js:136-375 | the layering, for each descriptor of the catalog |
| CatalogProperties.BuildComputedKeys | ecosystem.config.js:147-155 | whatever the overlay holds, `NODE_ENV` is `production` and a Python service's `PYTHONPATH` is its `cwd` |
| CatalogProperties.ComputedKeysWin | ecosystem.config.js:136-375 | the same for every descriptor of the catalog |
| CatalogProperties.DefaultedEntries | ecosystem.config.js:150-153 | a defaulted entry is the overlay value when it is non-empty, and the literal default when it is absent or empty |
| CatalogProperties.BuildPortArgs | ecosystem.config.js:180-186 | the port in `args` is the very string stored under the port variable in `env` |
| CatalogProperties.PortArgsMatchEnv | ecosystem.config.js:136-375 | the same for every service whose `args` carries a port |
| CatalogProperties.UiPortIgnoresOverlayPort | ecosystem.config.js:354-358 | the UI's `PORT` is `AUTOMAGIK_UI_PORT` when non-empty, else `8888`; an overlay `PORT` never reaches it |
| CatalogProperties.PythonServices | ecosystem.config.js:136-375 | the first six services use the Python strategy |
| CatalogProperties.CatalogVersions | ecosystem.config.js:136-375 | the first six versions come from the Python chain in each service's own directory, the UI's from its `package.json` |
| CatalogProperties.SparkPortFollowsOverlay | ecosystem.config.js:180 | a non-empty `AUTOMAGIK_SPARK_API_PORT` becomes the port of the Spark API command line |
| CatalogProperties.SparkPortFromEnvFile | ecosystem.config.js:123-206 | a `.env` holding the single line `AUTOMAGIK_SPARK_API_PORT=<port>` moves the Spark API to that port |

## Left out

- File reads, `fs.existsSync` and `git rev-parse` are inputs. The `Host` value holds the files that exist and can be read, the git output of each directory where the command succeeds, and the `version` property of each `package.json` that parses. The `.env` file arrives as an `EnvSource` that is missing, unreadable or readable, rather than being looked up at `<root>/.env`.
- `INSTALL_ROOT` (`__dirname`) is the parameter `root`.
- `console.warn` is left out: it only logs.
- `JSON.parse` and non-string `version` properties are left out. A truthy non-string `version` (a non-zero number, an object) would be returned as is by `||`, while a falsy one (`0`, `NaN`, `null`, `false`) gives `unknown` as the empty string does; the model takes only string fields.
- The general regular-expression engine is replaced by scanners for the exact four patterns. The scanners need no backtracking.
- `path.join` normalisation is reduced to `a + "/" + b`. `..`, `.`, repeated or trailing separators and absolute second arguments are not modelled.
- Strings are sequences of Unicode scalar values, not UTF-16 code units. A surrogate pair is one character here, and the white-space set is matched per scalar value.
- Object semantics of `envVars` are not modelled. That covers the key `__proto__` (the value assigned is always a string, which the `__proto__` setter ignores, so such a line adds no key and leaves the prototype unchanged), inherited properties such as `constructor` read through `envVars.X`, and the insertion order of keys. The overlay is a plain map.
- The `deploy` block and the supervisor-only constants are not modelled: `instances`, `exec_mode`, `watch`, `merge_logs`, `time` and `log_date_format` are the same for every service and have nothing to prove.
- Process spawning, restarting and log writing are done by PM2 and are not part of this model.
