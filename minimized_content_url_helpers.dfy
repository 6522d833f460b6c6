/**
 The LessInGrunt asset URL helpers: `MkoScript` and `MkoStylesheet` turn an application
 path into a URL that carries a cache-busting `?v=<version>` and, in debug mode, points at
 the non-minified file; `IsDebug` decides debug mode from the application store and the
 request's query string; `SetGlobalScriptDebug` switches debug mode for the whole
 application.

 The framework's ambient state is explicit here: the application store is the `store`
 field of an `ApplicationState` object, the request's query string is a map parameter, and
 `url.Content(contentPath)` is represented by its result, the `contentPath` argument.
 A C# `null` string is `None`.
 */
module MinimizedContentUrlHelpers {
  import opened DotNetText

  datatype Option<T> = None | Some(value: T)

  /** Key of the debug flag, both in the application store and in the query string. */
  const DebugScriptKey: string := "_debugScripts"
  /** Key of the application version in the application store. */
  const AppVersionKey: string := "appVersion"

  /** `.min.js$` as written: both dots are unescaped and match any character but a newline. */
  const MinScriptPattern: seq<PatternChar> :=
    [AnyChar, Literal('m'), Literal('i'), Literal('n'), AnyChar, Literal('j'), Literal('s')]
  /** `.min.css$` as written, with the same two unescaped dots. */
  const MinStylesheetPattern: seq<PatternChar> :=
    [AnyChar, Literal('m'), Literal('i'), Literal('n'), AnyChar, Literal('c'), Literal('s'), Literal('s')]
  const ScriptReplacement: string := ".js"
  const StylesheetReplacement: string := ".css"

  /** The string indexer of the application store or of the query string: null when the key is absent. */
  function Lookup(m: map<string, string>, key: string): Option<string>
  {
    if key in m then Some(m[key]) else None
  }

  /** The query string asks for debug scripts: `?_debugScripts=1`. */
  predicate QueryRequestsDebug(query: map<string, string>)
  {
    Lookup(query, DebugScriptKey) == Some("1")
  }

  /** The path part of the URL: the trimmed resolved path, with the minified suffix
      replaced when debug mode is on and the caller did not pass `noDebugVersion`. */
  function DebugPath(contentPath: string, pattern: seq<PatternChar>, replacement: string,
                     debug: bool, noDebugVersion: bool): string
    requires Anchorable(pattern)
  {
    var path := Trim(contentPath);
    if !noDebugVersion && debug then ReplaceAtEnd(path, pattern, replacement) else path
  }

  /** The `?v=` query: the explicit version, else the application version, else nothing. */
  function VersionQuery(version: Option<string>, appVersion: Option<string>): string
  {
    var v := if version.None? then appVersion else version;
    if v.Some? then "?v=" + v.value else ""
  }

  /** The body shared by `MkoScript` and `MkoStylesheet`, which differ only in the pattern
      and its replacement. `appVersion` is what the application store holds under
      `AppVersionKey`, `debug` what `IsDebug()` answers. */
  function ResolveUrl(contentPath: string, pattern: seq<PatternChar>, replacement: string,
                      version: Option<string>, appVersion: Option<string>,
                      debug: bool, noDebugVersion: bool): string
    requires Anchorable(pattern)
  {
    DebugPath(contentPath, pattern, replacement, debug, noDebugVersion) + VersionQuery(version, appVersion)
  }

  /** In debug mode a trimmed path made of any prefix `p` and a match `m` of the pattern
      becomes `p` followed by the replacement: the prefix is kept as it is. */
  lemma DebugRewritesMinified(contentPath: string, pattern: seq<PatternChar>, replacement: string,
                              p: string, m: string)
    requires Anchorable(pattern) && Trim(contentPath) == p + m && Matches(m, pattern)
    ensures DebugPath(contentPath, pattern, replacement, true, false) == p + replacement
  {
    ReplaceAtEndOfMatch(p, m, pattern, replacement);
  }

  /** A trimmed path whose end does not match the pattern is never rewritten, debug or not. */
  lemma DebugKeepsUnmatched(contentPath: string, pattern: seq<PatternChar>, replacement: string,
                            debug: bool, noDebugVersion: bool)
    requires Anchorable(pattern) && !EndsWithMatch(Trim(contentPath), pattern)
    ensures DebugPath(contentPath, pattern, replacement, debug, noDebugVersion) == Trim(contentPath)
  {
    TrimmedAnchorIsEnd(contentPath, pattern);
  }

  /** Without debug mode, or with `noDebugVersion`, the path is only trimmed. */
  lemma NoRewriteWithoutDebug(contentPath: string, pattern: seq<PatternChar>, replacement: string,
                              debug: bool, noDebugVersion: bool)
    requires Anchorable(pattern) && (noDebugVersion || !debug)
    ensures DebugPath(contentPath, pattern, replacement, debug, noDebugVersion) == Trim(contentPath)
  {
  }

  /** An explicit version is appended and the application version is ignored. */
  lemma ExplicitVersionWins(contentPath: string, pattern: seq<PatternChar>, replacement: string,
                            v: string, appVersion: Option<string>, debug: bool, noDebugVersion: bool)
    requires Anchorable(pattern)
    ensures ResolveUrl(contentPath, pattern, replacement, Some(v), appVersion, debug, noDebugVersion)
            == DebugPath(contentPath, pattern, replacement, debug, noDebugVersion) + "?v=" + v
  {
  }

  /** Without an explicit version the application version is appended. */
  lemma AmbientVersionFallback(contentPath: string, pattern: seq<PatternChar>, replacement: string,
                               a: string, debug: bool, noDebugVersion: bool)
    requires Anchorable(pattern)
    ensures ResolveUrl(contentPath, pattern, replacement, None, Some(a), debug, noDebugVersion)
            == DebugPath(contentPath, pattern, replacement, debug, noDebugVersion) + "?v=" + a
  {
  }

  /** With no version at all, no query string is appended. */
  lemma NoVersionNoQuery(contentPath: string, pattern: seq<PatternChar>, replacement: string,
                         debug: bool, noDebugVersion: bool)
    requires Anchorable(pattern)
    ensures ResolveUrl(contentPath, pattern, replacement, None, None, debug, noDebugVersion)
            == DebugPath(contentPath, pattern, replacement, debug, noDebugVersion)
  {
  }

  /** Every genuinely minified script name, `.min.js` in any case, matches the script pattern. */
  lemma MinJsMatchesScriptPattern(m: string)
    requires ToLowerAsciiString(m) == ".min.js"
    ensures Matches(m, MinScriptPattern)
  {
    assert |m| == 7;
    forall i | 0 <= i < 7 ensures CharMatches(m[i], MinScriptPattern[i]) {
      assert ToLowerAscii(m[i]) == ".min.js"[i];
    }
  }

  /** Every genuinely minified stylesheet name, `.min.css` in any case, matches the stylesheet pattern. */
  lemma MinCssMatchesStylesheetPattern(m: string)
    requires ToLowerAsciiString(m) == ".min.css"
    ensures Matches(m, MinStylesheetPattern)
  {
    assert |m| == 8;
    forall i | 0 <= i < 8 ensures CharMatches(m[i], MinStylesheetPattern[i]) {
      assert ToLowerAscii(m[i]) == ".min.css"[i];
    }
  }

  /** For a path with no white space at either end, which `Trim()` leaves alone, the debug path
      is the anchored replacement on the path itself. */
  lemma DebugPathOfUnpadded(s: string, pattern: seq<PatternChar>, replacement: string)
    requires Anchorable(pattern)
    requires s == [] || (!IsWhiteSpace(s[0]) && !IsWhiteSpace(s[|s| - 1]))
    ensures DebugPath(s, pattern, replacement, true, false) == ReplaceAtEnd(s, pattern, replacement)
  {
    assert "" + s + "" == s;
    TrimCharacterized("", s, "");
  }

  /** Case does not matter: a path ending in `.MIN.JS` is rewritten like one ending in `.min.js`. */
  lemma UpperCaseMinifiedScriptExample(dir: string)
    ensures ReplaceAtEnd(dir + ".MIN.JS", MinScriptPattern, ScriptReplacement) == dir + ".js"
  {
    assert ToLowerAsciiString(".MIN.JS") == ".min.js";
    MinJsMatchesScriptPattern(".MIN.JS");
    ReplaceAtEndOfMatch(dir, ".MIN.JS", MinScriptPattern, ScriptReplacement);
  }

  /** A path ending in `.min.css` is rewritten to the plain stylesheet. */
  lemma MinifiedStylesheetExample(dir: string)
    ensures ReplaceAtEnd(dir + ".min.css", MinStylesheetPattern, StylesheetReplacement) == dir + ".css"
  {
    assert ToLowerAsciiString(".min.css") == ".min.css";
    MinCssMatchesStylesheetPattern(".min.css");
    ReplaceAtEndOfMatch(dir, ".min.css", MinStylesheetPattern, StylesheetReplacement);
  }

  /** The pattern is anchored at the end, so only one suffix is replaced: a doubly minified
      name keeps its inner `.min`. */
  lemma RewriteHappensOnce(dir: string)
    ensures ReplaceAtEnd(dir + ".min.min.js", MinScriptPattern, ScriptReplacement) == dir + ".min.js"
  {
    assert dir + ".min.min.js" == (dir + ".min") + ".min.js";
    assert ToLowerAsciiString(".min.js") == ".min.js";
    MinJsMatchesScriptPattern(".min.js");
    ReplaceAtEndOfMatch(dir + ".min", ".min.js", MinScriptPattern, ScriptReplacement);
    assert (dir + ".min") + ScriptReplacement == dir + ".min.js";
  }

  /** A plain script `foo.js` in any directory passes through debug mode unchanged. */
  lemma PlainScriptExample(dir: string)
    requires dir == [] || !IsWhiteSpace(dir[0])
    ensures DebugPath(dir + "foo.js", MinScriptPattern, ScriptReplacement, true, false) == dir + "foo.js"
  {
    var s := dir + "foo.js";
    assert !EndsWithMatch(s, MinScriptPattern) by {
      if |s| >= 7 {
        assert s[|s| - 7..][1] == 'f';
      }
    }
    DebugPathOfUnpadded(s, MinScriptPattern, ScriptReplacement);
  }

  /** As written, the dots of `.min.js$` match any character, so a plain script whose name
      ends in `min` plus one character before `js`, such as `admin.js`, is taken for a
      minified one, and the debug URL points at `a.js`, a file that does not exist. */
  lemma AdminScriptIsRewritten(dir: string)
    requires dir == [] || !IsWhiteSpace(dir[0])
    ensures DebugPath(dir + "admin.js", MinScriptPattern, ScriptReplacement, true, false) == dir + "a.js"
  {
    var p, m := dir + "a", "dmin.js";
    assert p + m == dir + "admin.js";
    assert p + ScriptReplacement == dir + "a.js";
    assert Matches(m, MinScriptPattern) by {
      forall i | 0 <= i < 7 ensures CharMatches(m[i], MinScriptPattern[i]) {}
    }
    DebugPathOfUnpadded(p + m, MinScriptPattern, ScriptReplacement);
    ReplaceAtEndOfMatch(p, m, MinScriptPattern, ScriptReplacement);
  }

  /** The same happens to a plain stylesheet such as `admin.css`, served as `a.css`. */
  lemma AdminStylesheetIsRewritten(dir: string)
    requires dir == [] || !IsWhiteSpace(dir[0])
    ensures DebugPath(dir + "admin.css", MinStylesheetPattern, StylesheetReplacement, true, false)
            == dir + "a.css"
  {
    var p, m := dir + "a", "dmin.css";
    assert p + m == dir + "admin.css";
    assert p + StylesheetReplacement == dir + "a.css";
    assert Matches(m, MinStylesheetPattern) by {
      forall i | 0 <= i < 8 ensures CharMatches(m[i], MinStylesheetPattern[i]) {}
    }
    DebugPathOfUnpadded(p + m, MinStylesheetPattern, StylesheetReplacement);
    ReplaceAtEndOfMatch(p, m, MinStylesheetPattern, StylesheetReplacement);
  }

  /** `\.min\.js$`: the script pattern with its dots escaped, as evidently intended. */
  const EscapedMinScriptPattern: seq<PatternChar> :=
    [Literal('.'), Literal('m'), Literal('i'), Literal('n'), Literal('.'), Literal('j'), Literal('s')]
  /** `\.min\.css$`: the stylesheet pattern with its dots escaped. */
  const EscapedMinStylesheetPattern: seq<PatternChar> :=
    [Literal('.'), Literal('m'), Literal('i'), Literal('n'), Literal('.'), Literal('c'), Literal('s'), Literal('s')]

  /** The escaped script pattern matches exactly the spellings of `.min.js` in any case. */
  lemma EscapedScriptPatternIsExact(t: string)
    ensures Matches(t, EscapedMinScriptPattern) <==> ToLowerAsciiString(t) == ".min.js"
  {
    if Matches(t, EscapedMinScriptPattern) {
      assert forall i :: 0 <= i < 7 ==> ToLowerAsciiString(t)[i] == ".min.js"[i];
    }
    if ToLowerAsciiString(t) == ".min.js" {
      forall i | 0 <= i < 7 ensures CharMatches(t[i], EscapedMinScriptPattern[i]) {
        assert ToLowerAscii(t[i]) == ".min.js"[i];
      }
    }
  }

  /** The escaped stylesheet pattern matches exactly the spellings of `.min.css` in any case. */
  lemma EscapedStylesheetPatternIsExact(t: string)
    ensures Matches(t, EscapedMinStylesheetPattern) <==> ToLowerAsciiString(t) == ".min.css"
  {
    if Matches(t, EscapedMinStylesheetPattern) {
      assert forall i :: 0 <= i < 8 ==> ToLowerAsciiString(t)[i] == ".min.css"[i];
    }
    if ToLowerAsciiString(t) == ".min.css" {
      forall i | 0 <= i < 8 ensures CharMatches(t[i], EscapedMinStylesheetPattern[i]) {
        assert ToLowerAscii(t[i]) == ".min.css"[i];
      }
    }
  }

  /** With the escaped pattern the promise of the documentation holds: a script path that does
      not end in `.min.js` (in any case) is never rewritten, so passing a plain script is safe. */
  lemma EscapedScriptKeepsPlainScripts(contentPath: string, debug: bool, noDebugVersion: bool)
    requires var t := Trim(contentPath); |t| < 7 || ToLowerAsciiString(t[|t| - 7..]) != ".min.js"
    ensures DebugPath(contentPath, EscapedMinScriptPattern, ScriptReplacement, debug, noDebugVersion)
            == Trim(contentPath)
  {
    var t := Trim(contentPath);
    if |t| >= 7 {
      EscapedScriptPatternIsExact(t[|t| - 7..]);
    }
    DebugKeepsUnmatched(contentPath, EscapedMinScriptPattern, ScriptReplacement, debug, noDebugVersion);
  }

  /** With the escaped pattern a stylesheet path that does not end in `.min.css` (in any case)
      is never rewritten. */
  lemma EscapedStylesheetKeepsPlainStylesheets(contentPath: string, debug: bool, noDebugVersion: bool)
    requires var t := Trim(contentPath); |t| < 8 || ToLowerAsciiString(t[|t| - 8..]) != ".min.css"
    ensures DebugPath(contentPath, EscapedMinStylesheetPattern, StylesheetReplacement, debug, noDebugVersion)
            == Trim(contentPath)
  {
    var t := Trim(contentPath);
    if |t| >= 8 {
      EscapedStylesheetPatternIsExact(t[|t| - 8..]);
    }
    DebugKeepsUnmatched(contentPath, EscapedMinStylesheetPattern, StylesheetReplacement, debug, noDebugVersion);
  }

  /** With the escaped pattern `admin.js` keeps its name. */
  lemma EscapedAdminScriptIsKept(dir: string)
    requires dir == [] || !IsWhiteSpace(dir[0])
    ensures DebugPath(dir + "admin.js", EscapedMinScriptPattern, ScriptReplacement, true, false)
            == dir + "admin.js"
  {
    var s := dir + "admin.js";
    assert !EndsWithMatch(s, EscapedMinScriptPattern) by {
      assert s[|s| - 7..][0] == 'd';
    }
    DebugPathOfUnpadded(s, EscapedMinScriptPattern, ScriptReplacement);
  }

  /** The application store of the web application, which the helpers read and
      `SetGlobalScriptDebug` writes. */
  class ApplicationState {
    var store: map<string, string>

    constructor (initial: map<string, string>)
      ensures store == initial
    {
      store := initial;
    }

    /** Debug mode: the application flag or the request's query parameter is "1". */
    function IsDebug(query: map<string, string>): bool
      reads this
    {
      var debug := Lookup(store, DebugScriptKey) == Some("1");
      debug || QueryRequestsDebug(query)
    }

    /** `url.MkoScript(contentPath, version, noDebugVersion)`, `contentPath` already resolved by `url.Content`. */
    function MkoScript(contentPath: string, version: Option<string>, noDebugVersion: bool,
                       query: map<string, string>): string
      reads this
    {
      ResolveUrl(contentPath, MinScriptPattern, ScriptReplacement, version,
                 Lookup(store, AppVersionKey), IsDebug(query), noDebugVersion)
    }

    /** `url.MkoStylesheet(contentPath, version, noDebugVersion)`, `contentPath` already resolved by `url.Content`. */
    function MkoStylesheet(contentPath: string, version: Option<string>, noDebugVersion: bool,
                           query: map<string, string>): string
      reads this
    {
      ResolveUrl(contentPath, MinStylesheetPattern, StylesheetReplacement, version,
                 Lookup(store, AppVersionKey), IsDebug(query), noDebugVersion)
    }

    /** Stores "1" (or "0" when `disableDebug`) under the debug key and nothing else; from then
        on, a request without the query override is in debug mode exactly when `!disableDebug`. */
    method SetGlobalScriptDebug(disableDebug: bool := false)
      modifies this
      ensures store == old(store)[DebugScriptKey := if disableDebug then "0" else "1"]
      ensures forall key :: key != DebugScriptKey ==> Lookup(store, key) == Lookup(old(store), key)
      ensures forall query :: !QueryRequestsDebug(query) ==> (IsDebug(query) <==> !disableDebug)
    {
      store := store[DebugScriptKey := if disableDebug then "0" else "1"];
    }
  }

  /** `?_debugScripts=1` forces debug mode whatever the application flag says, "0" included. */
  lemma QueryOverrideForcesDebug(app: ApplicationState, query: map<string, string>)
    requires QueryRequestsDebug(query)
    ensures app.IsDebug(query)
  {
  }

  /** Without the query override, debug mode is exactly the application flag being "1". */
  lemma GlobalFlagDecidesWithoutOverride(app: ApplicationState, query: map<string, string>)
    requires !QueryRequestsDebug(query)
    ensures app.IsDebug(query) <==> DebugScriptKey in app.store && app.store[DebugScriptKey] == "1"
  {
  }

  /** Outside debug mode, or with `noDebugVersion`, a script and a stylesheet URL for the same
      path are the same: the two helpers differ only in the debug rewrite. */
  lemma ScriptAndStylesheetAgreeWithoutRewrite(app: ApplicationState, contentPath: string,
                                               version: Option<string>, noDebugVersion: bool,
                                               query: map<string, string>)
    requires noDebugVersion || !app.IsDebug(query)
    ensures app.MkoScript(contentPath, version, noDebugVersion, query)
            == app.MkoStylesheet(contentPath, version, noDebugVersion, query)
  {
  }

  /** In debug mode `MkoScript` serves the plain file: the trimmed path's prefix in front of a
      match of `.min.js$`, then `.js`, then the version query. */
  lemma MkoScriptServesPlainScript(app: ApplicationState, contentPath: string, p: string, m: string,
                                   version: Option<string>, query: map<string, string>)
    requires app.IsDebug(query) && Trim(contentPath) == p + m && Matches(m, MinScriptPattern)
    ensures app.MkoScript(contentPath, version, false, query)
            == p + ".js" + VersionQuery(version, Lookup(app.store, AppVersionKey))
  {
    DebugRewritesMinified(contentPath, MinScriptPattern, ScriptReplacement, p, m);
  }

  /** In debug mode `MkoStylesheet` serves the plain file: the trimmed path's prefix in front of
      a match of `.min.css$`, then `.css`, then the version query. */
  lemma MkoStylesheetServesPlainStylesheet(app: ApplicationState, contentPath: string, p: string, m: string,
                                           version: Option<string>, query: map<string, string>)
    requires app.IsDebug(query) && Trim(contentPath) == p + m && Matches(m, MinStylesheetPattern)
    ensures app.MkoStylesheet(contentPath, version, false, query)
            == p + ".css" + VersionQuery(version, Lookup(app.store, AppVersionKey))
  {
    DebugRewritesMinified(contentPath, MinStylesheetPattern, StylesheetReplacement, p, m);
  }
}
