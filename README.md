# LessInGrunt asset URL helpers, modelled in Dafny

`MinimizedContentUrlHelpers` is an ASP.NET MVC helper class. It builds the URLs of
scripts and stylesheets. `MkoScript` and `MkoStylesheet` trim the resolved path. In debug
mode they replace a minified suffix (`.min.js`, `.min.css`) with the plain one. They then
append `?v=<version>`, using the explicit version if given and the application version
otherwise. `IsDebug` turns debug mode on when the application flag `_debugScripts` is
`"1"` or when the request's query parameter `_debugScripts` is `"1"`.
`SetGlobalScriptDebug` writes that flag.

The model has two modules:

- `DotNetText` (`dotnet_text.dfy`) models the .NET primitives the helpers call:
  - `String.Trim()`, with the full `Char.IsWhiteSpace` set;
  - `Regex.Replace` with a fixed, end-anchored, case-insensitive pattern of single
    characters. An unescaped `.` is `AnyChar`: any character but a newline. `$` holds at
    the end of the string and also just before a final newline.
- `MinimizedContentUrlHelpers` (`minimized_content_url_helpers.dfy`) models the helpers:
  - the key and pattern constants, exactly as written;
  - `ResolveUrl`, the body shared by both builders, parameterised by pattern and
    replacement;
  - the class `ApplicationState`. Its `store` field is the application store, which
    `SetGlobalScriptDebug` updates in place. `IsDebug`, `MkoScript` and `MkoStylesheet`
    read that field.

The request's query string is a `map<string, string>` parameter. The result of
`url.Content(contentPath)` is taken as the `contentPath` input. A C# `null` string is
`None`.

## Model

| member | source | states |
|---|---|---|
| `DotNetText.Trim` | LessInGrunt/MinimizedContentUrlHelpers.cs:48 | neither end of the trimmed path is white space |
| `DotNetText.TrimBounds` | LessInGrunt/MinimizedContentUrlHelpers.cs:48 | only white space lies outside the kept range, and a non-empty kept range starts and ends with a non-white-space character |
| `DotNetText.SkipWhiteSpaceForward` | LessInGrunt/MinimizedContentUrlHelpers.cs:48 | the scan stops at the first non-white-space character, and everything it skipped is white space |
| `DotNetText.SkipWhiteSpaceBackward` | LessInGrunt/MinimizedContentUrlHelpers.cs:78 | the backward scan stops after the last non-white-space character, and everything it skipped is white space |
| `DotNetText.TrimRemovesOnlyWhiteSpace` | LessInGrunt/MinimizedContentUrlHelpers.cs:48 | the path is white space, then its trimmed form, then white space |
| `DotNetText.TrimCharacterized` | LessInGrunt/MinimizedContentUrlHelpers.cs:78 | trimming white space + m + white space gives exactly m, when m has no white space at either end |
| `DotNetText.TrimIdempotent` | LessInGrunt/MinimizedContentUrlHelpers.cs:48 | trimming twice is trimming once |
| `DotNetText.AtMostOneAnchoredMatch` | LessInGrunt/MinimizedContentUrlHelpers.cs:26-27 | `$` can hold at the end or before a final newline, but such a pattern matches in at most one of those places |
| `DotNetText.ReplaceAtEndOfMatch` | LessInGrunt/MinimizedContentUrlHelpers.cs:52 | any prefix followed by a match of the pattern becomes that prefix followed by the replacement |
| `DotNetText.ReplaceAtEndChangesIffMatch` | LessInGrunt/MinimizedContentUrlHelpers.cs:82 | the string changes if and only if the anchored pattern matches, given a replacement of a different length |
| `DotNetText.TrimmedAnchorIsEnd` | LessInGrunt/MinimizedContentUrlHelpers.cs:48-52 | after `Trim()` the string cannot end in a newline, so `$` means the end of the string |
| `MinimizedContentUrlHelpers.DebugRewritesMinified` | LessInGrunt/MinimizedContentUrlHelpers.cs:50-53 | in debug mode, a trimmed path made of a prefix and a pattern match becomes the prefix plus the replacement |
| `MinimizedContentUrlHelpers.DebugKeepsUnmatched` | LessInGrunt/MinimizedContentUrlHelpers.cs:50-53 | a trimmed path whose end does not match is left unchanged, in debug mode or not |
| `MinimizedContentUrlHelpers.NoRewriteWithoutDebug` | LessInGrunt/MinimizedContentUrlHelpers.cs:80-83 | with `noDebugVersion`, or outside debug mode, the path part is the trimmed path |
| `MinimizedContentUrlHelpers.ExplicitVersionWins` | LessInGrunt/MinimizedContentUrlHelpers.cs:55-63 | an explicit version v gives path + `?v=` + v, whatever the application version |
| `MinimizedContentUrlHelpers.AmbientVersionFallback` | LessInGrunt/MinimizedContentUrlHelpers.cs:85-93 | with no explicit version, the application version is appended |
| `MinimizedContentUrlHelpers.NoVersionNoQuery` | LessInGrunt/MinimizedContentUrlHelpers.cs:55-65 | with no version of either kind, the URL is the path part and nothing more |
| `MinimizedContentUrlHelpers.MinJsMatchesScriptPattern` | LessInGrunt/MinimizedContentUrlHelpers.cs:26 | every spelling of `.min.js`, in any case, matches the script pattern |
| `MinimizedContentUrlHelpers.MinCssMatchesStylesheetPattern` | LessInGrunt/MinimizedContentUrlHelpers.cs:27 | every spelling of `.min.css`, in any case, matches the stylesheet pattern |
| `MinimizedContentUrlHelpers.DebugPathOfUnpadded` | LessInGrunt/MinimizedContentUrlHelpers.cs:48-53 | for a path with no padding, the debug path is the anchored replacement applied to the path |
| `MinimizedContentUrlHelpers.UpperCaseMinifiedScriptExample` | LessInGrunt/MinimizedContentUrlHelpers.cs:52 | `X.MIN.JS` becomes `X.js`, because the match ignores case |
| `MinimizedContentUrlHelpers.MinifiedStylesheetExample` | LessInGrunt/MinimizedContentUrlHelpers.cs:82 | `X.min.css` becomes `X.css` |
| `MinimizedContentUrlHelpers.RewriteHappensOnce` | LessInGrunt/MinimizedContentUrlHelpers.cs:26 | `X.min.min.js` becomes `X.min.js`: only the final suffix is replaced |
| `MinimizedContentUrlHelpers.PlainScriptExample` | LessInGrunt/MinimizedContentUrlHelpers.cs:35 | `dir/foo.js` passes through debug mode unchanged |
| `MinimizedContentUrlHelpers.AdminScriptIsRewritten` | LessInGrunt/MinimizedContentUrlHelpers.cs:26 | as written, the plain script `dir/admin.js` is served as `dir/a.js` in debug mode |
| `MinimizedContentUrlHelpers.AdminStylesheetIsRewritten` | LessInGrunt/MinimizedContentUrlHelpers.cs:27 | as written, the plain stylesheet `dir/admin.css` is served as `dir/a.css` in debug mode |
| `MinimizedContentUrlHelpers.EscapedScriptPatternIsExact` | LessInGrunt/MinimizedContentUrlHelpers.cs:26 | `\.min\.js` matches a 7-character text exactly when the text is `.min.js` in some case |
| `MinimizedContentUrlHelpers.EscapedStylesheetPatternIsExact` | LessInGrunt/MinimizedContentUrlHelpers.cs:27 | `\.min\.css` matches an 8-character text exactly when the text is `.min.css` in some case |
| `MinimizedContentUrlHelpers.EscapedScriptKeepsPlainScripts` | LessInGrunt/MinimizedContentUrlHelpers.cs:35 | with the escaped pattern, a path not ending in `.min.js` is never rewritten, as the documentation promises |
| `MinimizedContentUrlHelpers.EscapedStylesheetKeepsPlainStylesheets` | LessInGrunt/MinimizedContentUrlHelpers.cs:82 | with the escaped pattern, a path not ending in `.min.css` is never rewritten |
| `MinimizedContentUrlHelpers.EscapedAdminScriptIsKept` | LessInGrunt/MinimizedContentUrlHelpers.cs:35 | with the escaped pattern, `dir/admin.js` keeps its name |
| `MinimizedContentUrlHelpers.ApplicationState.constructor` | LessInGrunt/MinimizedContentUrlHelpers.cs:17 | the store starts with the entries the application gives it at start-up |
| `MinimizedContentUrlHelpers.ApplicationState.SetGlobalScriptDebug` | LessInGrunt/MinimizedContentUrlHelpers.cs:102-105 | stores `"1"`, or `"0"` when `disableDebug` is set, under `_debugScripts`; every other key is unchanged; afterwards a request without the override is in debug mode exactly when `disableDebug` is false |
| `MinimizedContentUrlHelpers.QueryOverrideForcesDebug` | LessInGrunt/MinimizedContentUrlHelpers.cs:111 | `?_debugScripts=1` turns debug mode on whatever the application flag is, `"0"` included |
| `MinimizedContentUrlHelpers.GlobalFlagDecidesWithoutOverride` | LessInGrunt/MinimizedContentUrlHelpers.cs:108-113 | without the query override, debug mode holds exactly when the application flag is `"1"` |
| `MinimizedContentUrlHelpers.ScriptAndStylesheetAgreeWithoutRewrite` | LessInGrunt/MinimizedContentUrlHelpers.cs:76-96 | outside debug mode, or with `noDebugVersion`, both builders produce the same URL for the same inputs |
| `MinimizedContentUrlHelpers.MkoScriptServesPlainScript` | LessInGrunt/MinimizedContentUrlHelpers.cs:46-66 | in debug mode, `MkoScript` gives the prefix in front of the `.min.js` match, then `.js`, then the version query |
| `MinimizedContentUrlHelpers.MkoStylesheetServesPlainStylesheet` | LessInGrunt/MinimizedContentUrlHelpers.cs:76-96 | in debug mode, `MkoStylesheet` gives the prefix in front of the `.min.css` match, then `.css`, then the version query |

`MkoScript`, `MkoStylesheet`, `IsDebug`, `ResolveUrl`, `DebugPath`, `VersionQuery`, `Lookup`
(the string indexer of the store and of the query string) and `ToLowerAsciiString` are
the definitions themselves. The lemmas above state what they do.

## Findings

| source | as written | input that shows it | evidently intended | confidence | as-written member | corrected member |
|---|---|---|---|---|---|---|
| LessInGrunt/MinimizedContentUrlHelpers.cs:26-27 | `.min.js$` and `.min.css$` are not escaped, so each `.` matches any character. A plain file whose name ends in `min`, one character, then `js` or `css`, is taken for a minified one. | In debug mode `/scripts/admin.js` (what `url.Content` gives for `~/scripts/admin.js`) is served as `/scripts/a.js`, and `/Content/admin.css` as `/Content/a.css`; any `?v=` query follows. The doc comment at :35 says a plain script is safe to pass. | `\.min\.js$` and `\.min\.css$`: only a real `.min.js` / `.min.css` suffix is rewritten | high (proved on the model; not executed) | `MinimizedContentUrlHelpers.AdminScriptIsRewritten` | `MinimizedContentUrlHelpers.EscapedScriptKeepsPlainScripts` |

The helpers `MkoScript` and `MkoStylesheet` keep the patterns as written, because the
model follows the code. The corrected patterns (`EscapedMinScriptPattern`,
`EscapedMinStylesheetPattern`) can be passed to `ResolveUrl` in their place. Every general
lemma about `ResolveUrl` and `DebugPath` takes the pattern as a parameter, so each one
holds for the corrected patterns too. `EscapedScriptKeepsPlainScripts` and
`EscapedStylesheetKeepsPlainStylesheets` prove the promise of :35 for those patterns.

A debug-mode script path can still end in `.min.js`: only the final suffix is replaced
(`RewriteHappensOnce`), so `x.min.min.js` becomes `x.min.js`.

## Left out

- `url.Content(...)`: application-relative path resolution by the framework. The model
  takes its result as the input string.
- `HttpContext.Current` and the thread safety of the shared application store. The store
  is a field, and the query string is a parameter.
- Application values that are not strings. The C# code casts them with `(string)`, which
  would throw for another type. The model's store holds only strings.
- The case-insensitive key lookup of `HttpApplicationState` and of the query string
  collection. The model compares keys exactly.
- Repeated query parameters: the framework joins them with commas (`"1,1"`). The model
  takes one value per key, so a caller would pass the joined value.
- Culture-specific case folding under `RegexOptions.IgnoreCase`, such as the Turkish
  dotted and dotless i. The model folds ASCII letters only.
- UTF-16 code units. Strings here are sequences of Unicode scalar values, while .NET's
  strings, `Trim()` and `Regex` work on UTF-16 code units. A `.` in the pattern that falls
  on a surrogate pair therefore matches differently than in .NET: `x` + U+1F600 + `min.js`
  becomes `x.js` in the model, where .NET keeps a lone high surrogate in front of `.js`.
- A general regular-expression engine. Only fixed, end-anchored patterns of single
  characters are modelled, which are the only ones the helpers use.
- A `null` `contentPath`: `url.Content` would fail on it before this code runs.
- The start-up code in the usage comment, which reads the assembly version with
  `Assembly.Load`. It is host-application code; the model's `ApplicationState`
  constructor takes the initial store instead.
