# Kohana client controller: asset resolution

A Dafny model of `Kohana_Client`, the helper that Kohana layouts call to inject a page's
JavaScript controller and its theme stylesheet. For the current route it reads a configuration
entry `{page, theme, use_build}`, keeps that entry in a per-request cache, and picks an asset.
In development mode this is the raw source behind a module loader (RequireJS-style `data-main` /
`data-page` attributes, LESS stylesheets). In production mode it is a pre-built, versioned
bundle found by scanning the build directory.

Layout:

- `wrappers.dfy`: `Option`.
- `php_strings.dfy` (module `PhpStrings`): the PHP built-ins the core relies on, written out:
  `basename`, `explode('/', …)`, `join('/', …)`, `array_diff`, `strstr(…, …, TRUE)`.
- `versions.dfy` (module `Versions`): the hand-written stand-in for
  `preg_replace('/\.\d+$/', '', …)`, the build filter and the last-build pick.
- `assets.dfy` (module `Assets`): configuration values and PHP truthiness, and the script and
  stylesheet resolution as pure functions of the page entry (`ControllerScript`, `ThemeStyle`).
- `kohana_client.dfy` (module `KohanaClient`): the page-data lookup, the cache key, and the
  class `Client`. Its field `requestCache` is the static `$request_cache`, and six of its
  methods are the six static methods. Each of them is proved against the pure functions above.
  The seventh, `ResolveTwice`, is no source method: it states that two calls of
  `get_client_page_data` with one flag return the same entry.

Inputs are immutable values. The configuration is a `Config`. The routing context is a
`Request` (directory, controller, action). The filesystem is a `FileSystem` made of the working
directory and the `glob` scan, a function from pattern to paths that returns them in its own
order. Tags are returned as records (`Script`, `Style`) and not as HTML.

In four places the behaviour one might expect differs from what the code does. The model
follows the code each time:

- The version pick is meant to choose the "highest-numbered version". The code takes the *last* surviving entry
  of the scan, which is alphabetical. `home.2.js` is therefore picked over `home.10.js`
  (`Assets.ProductionScriptExample`, `Versions.LexicographicPick`).
- A missing base-directory key could be taken for a fatal configuration error. The code interpolates the configuration
  default (null, so the empty string). Here such a key is simply the empty string.
- The style path might be read as `{base}/{ext}/{theme}.{ext}`. The code builds
  `/{base}/skins/{page}/{ext}/{theme}.{ext}`.
- The cache could be keyed by an enumeration of the two flags. The code keys it by the string `__METHOD__` followed by
  the flag interpolated as `"1"` or `""`. The model uses that string and proves that the two
  keys differ.

## Model

| member | source | states |
|---|---|---|
| PhpStrings.BasenameOfChild | classes/Kohana/Client.php:68 | the basename of `dir/name + suffix`, with the suffix removed, is `name` for any directory |
| PhpStrings.LastComponentOfChild | classes/Kohana/Client.php:151 | the last component of `dir/leaf` is `leaf` when `leaf` has no '/' |
| PhpStrings.LastComponent | classes/Kohana/Client.php:151 | the result is the longest '/'-free suffix of the path: a suffix, holding no '/', preceded by a '/' unless it is the whole path |
| PhpStrings.Split | classes/Kohana/Client.php:52 | `explode` returns at least one piece, and no piece holds '/' |
| PhpStrings.JoinSplit | classes/Kohana/Client.php:52 | joining the exploded pieces of a string with '/' gives the string back |
| PhpStrings.SplitJoin | classes/Kohana/Client.php:52 | exploding a join of '/'-free pieces gives the pieces back |
| PhpStrings.DiffMembership | classes/Kohana/Client.php:52 | a segment survives `array_diff` exactly when it is in the first list and nowhere in the second |
| PhpStrings.DiffConcat | classes/Kohana/Client.php:52 | `array_diff` keeps the first list's order: it distributes over concatenation |
| PhpStrings.IndexOfFrom | classes/Kohana/Client.php:145 | the result is the first match of the needle at or after the start; None means no match anywhere after it |
| PhpStrings.StrBeforeFirst | classes/Kohana/Client.php:145 | `strstr(head . needle, needle, TRUE)` is `head` when the needle does not occur earlier |
| PhpStrings.StrBefore | classes/Kohana/Client.php:145 | `strstr(…, TRUE)` returns the prefix before the first occurrence, or None when the needle does not occur |
| Versions.DigitRunStart | classes/Kohana/Client.php:62 | the result is where the maximal run of trailing digits begins |
| Versions.StripVersionOfVersioned | classes/Kohana/Client.php:62 | stripping `t.digits` gives `t` |
| Versions.StripVersionSpec | classes/Kohana/Client.php:62 | `s` strips to `t` iff `s` is `t` plus '.' and one or more digits, or `s` is `t` and has no such suffix |
| Versions.KeepsIff | classes/Kohana/Client.php:61-63 | a build name is kept for a page iff it is the page plus '.' and digits, or it equals a page that has no version suffix of its own |
| Versions.BuildsMembership | classes/Kohana/Client.php:61-63 | the filter keeps exactly the listed names that strip to the page |
| Versions.BuildsEmpty | classes/Kohana/Client.php:66 | the filter keeps nothing iff no listed name strips to the page |
| Versions.BuildsLast | classes/Kohana/Client.php:66-68 | the value `array_pop` takes from the filtered list is the last listed name that strips to the page |
| Versions.LastKeptExists | classes/Kohana/Client.php:66-68 | when some name is kept, a last kept index exists |
| Versions.PickBuildSpec | classes/Kohana/Client.php:66-69 | the pick is the last kept name in listing order, or the page when none is kept; the result is always the page or a kept listed name |
| Versions.LexicographicPick | classes/Kohana/Client.php:67 | after an alphabetical scan `home.2` is picked over `home.10`, and `home.a.3` is never a build of `home` |
| Assets.Invoke | classes/Kohana/Client.php:37-39 | a callable is replaced by the string it returns, a non-callable value is unchanged, and no callable is left |
| Assets.Interpolate | classes/Kohana/Client.php:41-43 | a string interpolates as itself, true as "1", false and null as ""; a resolved value is truthy iff its string form is neither "" nor "0" |
| Assets.RelativeLocationSpec | classes/Kohana/Client.php:50-52 | the development location holds exactly the segments of `/development` that occur nowhere in `/loader`, so never an empty segment |
| Assets.BuildNameSpec | classes/Kohana/Client.php:61-69 | the substituted page is the last listed name whose stripped form is `===` the page, or the page itself; a non-string page matches nothing |
| Assets.StyleNameOfStylePath | classes/Kohana/Client.php:145-155 | reading a written style path back (cut before `/{ext}/{theme}.{ext}`, then the basename) gives the page directory it was written with, unless that prefix already occurs earlier in the path |
| Assets.ScriptEmitted | classes/Kohana/Client.php:27-43 | a script is emitted iff the entry is non-empty and its resolved page is truthy |
| Assets.StyleEmitted | classes/Kohana/Client.php:105-131 | a stylesheet is emitted iff the entry is non-empty and both the resolved theme and the resolved page are truthy |
| Assets.DevelopmentScript | classes/Kohana/Client.php:45-57 | development scripts load `{require}.js` with `data-main` = `/loader` and `data-page` = relative location + `/page`; the page text is truthy and the location has no empty segment |
| Assets.ProductionScript | classes/Kohana/Client.php:59-71 | production scripts have no attributes, and their path is `{location}/{name}.js`; `name` is the basename of the last listed path that passes the filter, or the page when none passes |
| Assets.DevelopmentStyle | classes/Kohana/Client.php:133-163 | development stylesheets are `/{development}/skins/{page}/less/{theme}.less` with rel `stylesheet/less` |
| Assets.ProductionStyle | classes/Kohana/Client.php:141-163 | production stylesheets have rel `stylesheet`; the page directory comes from the last listed path that passes the filter on its part before `/css/{theme}.css`, or is the page when none passes |
| Assets.DevelopmentUnlessBuildRequested | classes/Kohana/Client.php:193 | development mode iff `use_build` is absent or is `false`, "" or "0"; any other value, a callable included, selects the build |
| Assets.ScriptAndStyleShareMode | classes/Kohana/Client.php:190-194 | when both tags are emitted, the script carries loader attributes iff the stylesheet is LESS iff the entry is in development mode |
| Assets.ExampleListingNames | classes/Kohana/Client.php:68 | the third and fourth paths of the example listing have the build names `home.2` and `home.a.3` |
| Assets.ExampleKept | classes/Kohana/Client.php:62 | of those two names only `home.2` is kept for the page `home` |
| Assets.ProductionScriptExample | classes/Kohana/Client.php:61-71 | for the scan `home.1.js`, `home.10.js`, `home.2.js`, `home.a.3.js` (the example scan returns this listing whatever the pattern, here `/w/b/home.*.js`) the production script is `/b/home.2.js` |
| KohanaClient.PageDataLookup | classes/Kohana/Client.php:204-225 | non-legacy data is `pages[key][action]` when present and empty otherwise; legacy data is the `legacy` subtree, empty when missing |
| KohanaClient.NoEntryNoOutput | classes/Kohana/Client.php:222-224 | a route without a `pages` entry gets neither a script nor a stylesheet |
| KohanaClient.ControllerKeysCanCollide | classes/Kohana/Client.php:218-220 | directory `a` with controller `b_c` and directory `a_b` with controller `c` share the key `a_b_c` |
| KohanaClient.CacheKeysDistinct | classes/Kohana/Client.php:201 | the legacy and non-legacy cache keys differ |
| KohanaClient.Client.constructor | classes/Kohana/Client.php:11 | a request starts with an empty cache |
| KohanaClient.Client.GetClientPageData | classes/Kohana/Client.php:200-230 | the result is the lookup for the flag; the first call stores it under the flag's key, and later calls return the stored entry and leave the cache unchanged; the other flag's entry never changes |
| KohanaClient.Client.IsDevelopmentControllerScript | classes/Kohana/Client.php:190-194 | development iff the flag's entry lacks `use_build` or `use_build` is falsy |
| KohanaClient.Client.InjectControllerScript | classes/Kohana/Client.php:26-72 | the tag is `ControllerScript` of the flag's entry, and the only state change is caching that entry |
| KohanaClient.Client.InjectLegacySupportScript | classes/Kohana/Client.php:89-91 | the same result and cache effect as `InjectControllerScript(true)` |
| KohanaClient.Client.InjectThemeStyles | classes/Kohana/Client.php:104-164 | the tag is `ThemeStyle` of the flag's entry, and the only state change is caching that entry |
| KohanaClient.Client.InjectLegacySupportStyles | classes/Kohana/Client.php:180-182 | the same result and cache effect as `InjectThemeStyles(true)` |
| KohanaClient.Client.ResolveTwice | classes/Kohana/Client.php:201-229 | two resolutions of one flag within a request return the same entry |

## Left out

- `HTML::script` and `HTML::style` markup rendering: the model returns the path and the attributes.
- Loading the `client` configuration group. It is an immutable `Config`. A missing string key is
  the empty string. A `pages` value that is missing or not an array is `None`. Entries that are
  not arrays (a string where a page map is expected) are not modelled.
- `Request::$current`: the routing context is an immutable input.
- `glob` and `getcwd`: the scan is an input function from pattern to paths, used in the order it
  returns them. Glob's own wildcard matching and sort order are not modelled. The model only
  says which pattern is passed.
- Versions.StripVersion: does not model PCRE's `$` also matching before a final newline. A name
  ending in `.digits` plus a newline keeps its version here.
- Versions.IsDigit: only ASCII digits count, as with `\d` without the `u` modifier. Locale effects
  are not modelled.
- Assets.SkinPath: treats the theme as literal text. The source splices the theme into a
  `sprintf` format, so a `%` in a theme name would be read as a conversion there.
- PhpStrings.Basename: only '/' separates components. The Windows backslash and multibyte
  locale handling of PHP's `basename` are not modelled.
- Callables: a callable is modelled by the string it returns. A plain string that happens to
  name a PHP function (which `is_callable` accepts) is treated as a literal. A callable that
  throws, or that returns a non-string, is not modelled.
- Configuration values other than strings, booleans and callables (integers, arrays, null) are
  not modelled.
- `array_pop` on the filtered builds: modelled on a local sequence (take the last element, drop
  it), not on a PHP array with its keys.
- The cache lives for one `Client` object, that is, one request. Sharing it across requests or
  threads is not modelled.
