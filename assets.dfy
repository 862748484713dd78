/** Asset resolution of the client core: which script and which stylesheet a page gets, as pure
    functions of the page's configuration entry, the client configuration and the file listing. */
module Assets {
  import opened Wrappers
  import opened PhpStrings
  import Versions

  /** A value read from the configuration. A callable is modelled by the string it returns when
      the source calls it. */
  datatype Value = Str(s: string) | Bool(b: bool) | Deferred(result: string)

  /** The configuration entry of one page: `page`, `theme`, `use_build`, … */
  type PageData = map<string, Value>

  /** The `client` configuration group. A missing `development`, `production`, `loader` or
      `require` key interpolates as the empty string; `pages` is None when it is missing or not
      an array. */
  datatype Config = Config(
    development: string,
    production: string,
    loader: string,
    require: string,
    pages: Option<map<string, map<string, PageData>>>,
    legacy: Option<PageData>)

  /** The working directory and the `glob` scan, which returns its matches in its own order. */
  datatype FileSystem = FileSystem(cwd: string, glob: string -> seq<string>)

  /** A `<script>` tag: its source and its attributes, in order. */
  datatype Script = Script(src: string, attributes: seq<(string, string)>)

  /** A `<link>` tag for a stylesheet. */
  datatype Style = Style(href: string, rel: string)

  const DevelopmentStyleExtension := "less"
  const ProductionStyleExtension := "css"

  /** The value stored under `key`, or None (PHP's null) when there is none. */
  function Get(data: PageData, key: string): Option<Value> {
    if key in data then Some(data[key]) else None
  }

  /** No callable is left. */
  predicate Resolved(v: Option<Value>) {
    v.None? || !v.value.Deferred?
  }

  /** `is_callable($v)` followed by `call_user_func($v)`. */
  function Invoke(v: Option<Value>): (r: Option<Value>)
    ensures Resolved(r)
    ensures r.Some? <==> v.Some?
    ensures Resolved(v) ==> r == v
    ensures v.Some? && v.value.Deferred? ==> r == Some(Str(v.value.result))
  {
    if v.Some? && v.value.Deferred? then Some(Str(v.value.result)) else v
  }

  /** PHP's conversion to boolean. A closure object is true. */
  predicate Truthy(v: Option<Value>) {
    match v
    case None => false
    case Some(Str(s)) => s != "" && s != "0"
    case Some(Bool(b)) => b
    case Some(Deferred(_)) => true
  }

  /** The string interpolation `"{$v}"` of a resolved value. */
  function Interpolate(v: Option<Value>): (r: string)
    requires Resolved(v)
    ensures Truthy(v) <==> r != "" && r != "0"
    ensures v.Some? && v.value.Str? ==> r == v.value.s
    ensures v == Some(Bool(true)) ==> r == "1"
    ensures v == Some(Bool(false)) || v.None? ==> r == ""
  {
    match v
    case None => ""
    case Some(Str(s)) => s
    case Some(Bool(b)) => if b then "1" else ""
  }

  /** `is_development_controller_script`: development unless `use_build` is present and true. */
  predicate IsDevelopment(data: PageData) {
    !("use_build" in data && Truthy(Some(data["use_build"])))
  }

  /** Development mode holds exactly when `use_build` is absent or one of PHP's false values
      (`false`, "", "0"); any other value, a callable included, selects the build. */
  lemma DevelopmentUnlessBuildRequested(data: PageData)
    ensures IsDevelopment(data) <==>
      "use_build" !in data || data["use_build"] in {Bool(false), Str(""), Str("0")}
  {
  }

  /** The base directory configured for the mode. */
  function BaseDirectory(config: Config, development: bool): string {
    if development then config.development else config.production
  }

  /** Line 52: the location's segments that occur nowhere among the loader's, joined again. */
  function RelativeLocation(location: string, loader: string): string {
    Join(Diff(Split(location), Split(loader)))
  }

  /** The development location relative to the loader: exactly the segments of
      `/development` absent from `/loader`, in their order, so never an empty segment. */
  lemma RelativeLocationSpec(development: string, loader: string)
    ensures var segs := Diff(Split("/" + development), Split("/" + loader));
      && (forall x :: x in segs <==> x in Split("/" + development) && x !in Split("/" + loader))
      && "" !in segs
      && (segs != [] ==> Split(RelativeLocation("/" + development, "/" + loader)) == segs)
      && (segs == [] ==> RelativeLocation("/" + development, "/" + loader) == "")
  {
    var a, b := Split("/" + development), Split("/" + loader);
    var segs := Diff(a, b);
    forall x ensures x in segs <==> x in a && x !in b {
      DiffMembership(a, b, x);
    }
    assert ("/" + loader)[0] == '/';
    assert b[0] == "";
    if segs != [] {
      forall k | 0 <= k < |segs| ensures '/' !in segs[k] {
        assert segs[k] in segs;
      }
      SplitJoin(segs);
    }
  }

  /** The names of the script builds: `basename($path, '.js')`. */
  function ScriptNames(listing: seq<string>): seq<string> {
    seq(|listing|, i requires 0 <= i < |listing| => Basename(listing[i], ".js"))
  }

  /** The names of the style builds: `basename(strstr($path, $prefix, TRUE))`. */
  function StyleNames(listing: seq<string>, prefix: string): seq<string> {
    seq(|listing|, i requires 0 <= i < |listing| => StyleName(listing[i], prefix))
  }

  /** The page directory of one style build path. */
  function StyleName(path: string, prefix: string): string {
    Basename(StrBefore(path, prefix).GetOr(""), "")
  }

  /** The strict comparison `=== $page` of a stripped build name with the page value. */
  predicate KeptName(name: string, page: Option<Value>) {
    page == Some(Str(Versions.StripVersion(name)))
  }

  /** Index `i` holds the last name kept for `page`. */
  predicate LastKeptName(names: seq<string>, page: Option<Value>, i: int) {
    0 <= i < |names| && KeptName(names[i], page) && forall j :: i < j < |names| ==> !KeptName(names[j], page)
  }

  /** The builds kept for the page value; a page that is not a string matches no name. */
  function MatchingBuilds(names: seq<string>, page: Option<Value>): seq<string> {
    if page.Some? && page.value.Str? then Versions.Builds(names, page.value.s) else []
  }

  /** The page name after the production substitution. */
  function BuildName(names: seq<string>, page: Option<Value>): string
    requires Resolved(page)
  {
    var builds := MatchingBuilds(names, page);
    if builds == [] then Interpolate(page) else builds[|builds| - 1]
  }

  /** The substituted name is that of the last kept build, or the page itself. */
  lemma BuildNameSpec(names: seq<string>, page: Option<Value>)
    requires Resolved(page)
    ensures (forall i :: 0 <= i < |names| ==> !KeptName(names[i], page)) ==> BuildName(names, page) == Interpolate(page)
    ensures forall i :: LastKeptName(names, page, i) ==> BuildName(names, page) == names[i]
  {
    if page.Some? && page.value.Str? {
      var p := page.value.s;
      assert BuildName(names, page) == Versions.PickBuild(names, p);
      Versions.PickBuildSpec(names, p);
      forall i | 0 <= i < |names| ensures KeptName(names[i], page) <==> Versions.Keeps(names[i], p) {
      }
      forall i | LastKeptName(names, page, i) ensures Versions.LastKept(names, p, i) {
      }
    } else {
      assert MatchingBuilds(names, page) == [];
    }
  }

  /** The pattern the production script scan passes to `glob`. */
  function ScriptPattern(fs: FileSystem, location: string, page: string): string {
    fs.cwd + location + "/" + page + ".*.js"
  }

  /** `sprintf("skins/%s/%s/$theme", page, ext)`. */
  function SkinPath(page: string, ext: string, theme: string): string {
    "skins/" + page + "/" + ext + "/" + theme
  }

  /** Line 155: `$scripts . '/' . sprintf($themeMask, $page, $ext) . '.' . $ext`. */
  function StylePath(scripts: string, page: string, ext: string, theme: string): (r: string)
    ensures r == scripts + "/skins/" + page + "/" + ext + "/" + theme + "." + ext
  {
    scripts + "/" + SkinPath(page, ext, theme) + "." + ext
  }

  /** Reading back a written style path (line 145 cuts at the prefix, line 151 takes the
      basename) gives the page directory it was written with, provided the prefix does not
      already occur earlier in the path. */
  lemma StyleNameOfStylePath(scripts: string, name: string, ext: string, theme: string)
    requires name != [] && '/' !in name
    requires forall j :: 0 <= j < |scripts + "/skins/" + name| ==>
      !MatchAt(StylePath(scripts, name, ext, theme), "/" + ext + "/" + theme + "." + ext, j)
    ensures StyleName(StylePath(scripts, name, ext, theme), "/" + ext + "/" + theme + "." + ext) == name
  {
    var prefix := "/" + ext + "/" + theme + "." + ext;
    var dir := scripts + "/skins/" + name;
    assert StylePath(scripts, name, ext, theme) == dir + prefix;
    StrBeforeFirst(dir, prefix);
    assert dir == (scripts + "/skins") + "/" + name + "";
    BasenameOfChild(scripts + "/skins", name, "");
  }

  /** The pattern the production style scan passes to `glob`. */
  function StylePattern(fs: FileSystem, scripts: string, page: string, theme: string): string {
    fs.cwd + scripts + "/" + SkinPath(page + ".*", ProductionStyleExtension, theme) + "." + ProductionStyleExtension
  }

  /** `inject_controller_script` once the page's entry `data` is known. */
  function ControllerScript(config: Config, data: PageData, fs: FileSystem): Option<Script> {
    var page := Invoke(Get(data, "page"));
    if |data| == 0 || !Truthy(page) then None
    else
      var development := IsDevelopment(data);
      var location := "/" + BaseDirectory(config, development);
      if development then
        var loader := "/" + config.loader;
        Some(Script(config.require + ".js",
          [("data-main", loader), ("data-page", RelativeLocation(location, loader) + "/" + Interpolate(page))]))
      else
        var listing := fs.glob(ScriptPattern(fs, location, Interpolate(page)));
        Some(Script(location + "/" + BuildName(ScriptNames(listing), page) + ".js", []))
  }

  /** `inject_theme_styles` once the page's entry `data` is known. */
  function ThemeStyle(config: Config, data: PageData, fs: FileSystem): Option<Style> {
    var theme := Invoke(Get(data, "theme"));
    var page := Invoke(Get(data, "page"));
    if |data| == 0 || !Truthy(theme) || !Truthy(page) then None
    else
      var development := IsDevelopment(data);
      var scripts := "/" + BaseDirectory(config, development);
      var ext := if development then DevelopmentStyleExtension else ProductionStyleExtension;
      var prefix := "/" + ext + "/" + Interpolate(theme) + "." + ext;
      var name :=
        if development then Interpolate(page)
        else BuildName(StyleNames(fs.glob(StylePattern(fs, scripts, Interpolate(page), Interpolate(theme))), prefix), page);
      Some(Style(StylePath(scripts, name, ext, Interpolate(theme)),
        if development then "stylesheet/" + ext else "stylesheet"))
  }

  /** A script is emitted exactly when the entry is non-empty and its page is truthy. */
  lemma ScriptEmitted(config: Config, data: PageData, fs: FileSystem)
    ensures ControllerScript(config, data, fs).Some? <==> |data| > 0 && Truthy(Invoke(Get(data, "page")))
  {
  }

  /** A stylesheet is emitted exactly when the entry is non-empty and both its theme and its
      page are truthy: a theme without a page, or a page without a theme, gives nothing. */
  lemma StyleEmitted(config: Config, data: PageData, fs: FileSystem)
    ensures ThemeStyle(config, data, fs).Some? <==>
      |data| > 0 && Truthy(Invoke(Get(data, "theme"))) && Truthy(Invoke(Get(data, "page")))
  {
  }

  /** Development scripts load the module loader, point it at the loader path and at the page
      under the location relative to the loader. */
  lemma DevelopmentScript(config: Config, data: PageData, fs: FileSystem)
    requires |data| > 0 && Truthy(Invoke(Get(data, "page"))) && IsDevelopment(data)
    ensures var page := Interpolate(Invoke(Get(data, "page")));
      var loader := "/" + config.loader;
      var rel := RelativeLocation("/" + config.development, loader);
      ControllerScript(config, data, fs) == Some(Script(config.require + ".js",
        [("data-main", loader), ("data-page", rel + "/" + page)]))
      && page != "" && page != "0"
      && (rel == "" || "" !in Split(rel))
  {
    RelativeLocationSpec(config.development, config.loader);
  }

  /** Production scripts: `{location}/{name}.js` with no attributes, where `name` is the
      basename of the last listed path whose stripped name is the page, or the page itself. */
  lemma ProductionScript(config: Config, data: PageData, fs: FileSystem)
    requires |data| > 0 && Truthy(Invoke(Get(data, "page"))) && !IsDevelopment(data)
    ensures var page := Invoke(Get(data, "page"));
      var location := "/" + config.production;
      var listing := fs.glob(ScriptPattern(fs, location, Interpolate(page)));
      var r := ControllerScript(config, data, fs);
      && r.Some? && r.value.attributes == []
      && ((forall i :: 0 <= i < |listing| ==> !KeptName(Basename(listing[i], ".js"), page)) ==>
            r.value.src == location + "/" + Interpolate(page) + ".js")
      && (forall i :: LastKeptName(ScriptNames(listing), page, i) ==>
            r.value.src == location + "/" + Basename(listing[i], ".js") + ".js")
  {
    var page := Invoke(Get(data, "page"));
    var listing := fs.glob(ScriptPattern(fs, "/" + config.production, Interpolate(page)));
    BuildNameSpec(ScriptNames(listing), page);
  }

  /** Development styles: the LESS source of the theme under the page, compiled client side. */
  lemma DevelopmentStyle(config: Config, data: PageData, fs: FileSystem)
    requires |data| > 0 && Truthy(Invoke(Get(data, "theme"))) && Truthy(Invoke(Get(data, "page")))
    requires IsDevelopment(data)
    ensures var theme := Interpolate(Invoke(Get(data, "theme")));
      var page := Interpolate(Invoke(Get(data, "page")));
      ThemeStyle(config, data, fs).value ==
        Style(StylePath("/" + config.development, page, DevelopmentStyleExtension, theme), "stylesheet/less")
  {
  }

  /** Production styles: the CSS of the theme under the page directory of the last listed
      build whose stripped directory name is the page, or under the page itself. */
  lemma ProductionStyle(config: Config, data: PageData, fs: FileSystem)
    requires |data| > 0 && Truthy(Invoke(Get(data, "theme"))) && Truthy(Invoke(Get(data, "page")))
    requires !IsDevelopment(data)
    ensures var themeValue := Invoke(Get(data, "theme"));
      var theme := Interpolate(themeValue);
      var page := Invoke(Get(data, "page"));
      var scripts := "/" + config.production;
      var listing := fs.glob(StylePattern(fs, scripts, Interpolate(page), theme));
      var prefix := "/" + ProductionStyleExtension + "/" + theme + "." + ProductionStyleExtension;
      var r := ThemeStyle(config, data, fs).value;
      && r.rel == "stylesheet"
      && ((forall i :: 0 <= i < |listing| ==> !KeptName(StyleName(listing[i], prefix), page)) ==>
            r.href == StylePath(scripts, Interpolate(page), ProductionStyleExtension, theme))
      && (forall i :: LastKeptName(StyleNames(listing, prefix), page, i) ==>
            r.href == StylePath(scripts, StyleName(listing[i], prefix), ProductionStyleExtension, theme))
  {
    var theme := Interpolate(Invoke(Get(data, "theme")));
    var page := Invoke(Get(data, "page"));
    var listing := fs.glob(StylePattern(fs, "/" + config.production, Interpolate(page), theme));
    var prefix := "/" + ProductionStyleExtension + "/" + theme + "." + ProductionStyleExtension;
    BuildNameSpec(StyleNames(listing, prefix), page);
  }

  /** Both injectors decide the mode from the same entry: when both emit a tag, the script has
      loader attributes exactly when the stylesheet is LESS, exactly in development mode. */
  lemma ScriptAndStyleShareMode(config: Config, data: PageData, fs: FileSystem)
    requires ControllerScript(config, data, fs).Some? && ThemeStyle(config, data, fs).Some?
    ensures IsDevelopment(data) <==> ControllerScript(config, data, fs).value.attributes != []
    ensures IsDevelopment(data) <==> ThemeStyle(config, data, fs).value.rel == "stylesheet/less"
  {
  }

  /** The listing of the production example below: what an alphabetical `glob` returns for its
      pattern `/w/b/home.*.js`. The example's scan returns this listing for every pattern. */
  const ExampleListing := ["/w/b/home.1.js", "/w/b/home.10.js", "/w/b/" + "home.2" + ".js", "/w/b/" + "home.a.3" + ".js"]

  /** The build names of the example listing that the example relies on. */
  lemma ExampleListingNames()
    ensures ScriptNames(ExampleListing)[2] == "home.2"
    ensures ScriptNames(ExampleListing)[3] == "home.a.3"
  {
    ExampleBuildName("home.2");
    ExampleBuildName("home.a.3");
  }

  /** A build `name` listed in the example's build directory is named `name`. */
  lemma ExampleBuildName(name: string)
    requires name != [] && '/' !in name
    ensures Basename("/w/b/" + name + ".js", ".js") == name
  {
    assert "/w/b/" + name + ".js" == "/w/b" + "/" + name + ".js";
    BasenameOfChild("/w/b", name, ".js");
  }

  /** Of the example's build names, only `home.2` is kept for `home`: `home.a.3` matches the
      scan pattern but strips to `home.a`. */
  lemma ExampleKept()
    ensures KeptName("home.2", Some(Str("home"))) && !KeptName("home.a.3", Some(Str("home")))
  {
    assert "home.2" == "home" + "." + "2";
    Versions.StripVersionOfVersioned("home", "2");
    assert "home.a.3" == "home.a" + "." + "3";
    Versions.StripVersionOfVersioned("home.a", "3");
  }

  /** Literal concatenations used by the production example below; a step for the solver, not a
      property of the model. */
  lemma ExamplePaths()
    ensures "/" + "b" == "/b"
    ensures "/b" + "/" + "home.2" + ".js" == "/b/home.2.js"
  {
  }

  /** After an alphabetical scan of `home.1.js`, `home.10.js`, `home.2.js`, `home.a.3.js`,
      the production script of page `home` is `home.2.js`: the last listed build is taken, not
      the highest version number, and `home.a.3.js` is filtered out. */
  lemma ProductionScriptExample()
    ensures var fs := FileSystem("/w", pattern => ExampleListing);
      var config := Config("src", "b", "src/vendor/require", "require", None, None);
      ControllerScript(config, map["page" := Str("home"), "use_build" := Bool(true)], fs)
        == Some(Script("/b/home.2.js", []))
  {
    var fs := FileSystem("/w", pattern => ExampleListing);
    var config := Config("src", "b", "src/vendor/require", "require", None, None);
    var data := map["page" := Str("home"), "use_build" := Bool(true)];
    var page := Some(Str("home"));
    assert Invoke(Get(data, "page")) == page;
    assert !IsDevelopment(data);
    var names := ScriptNames(fs.glob(ScriptPattern(fs, "/b", "home")));
    ExampleListingNames();
    ExampleKept();
    assert LastKeptName(names, page, 2);
    ExamplePaths();
    ProductionScript(config, data, fs);
  }
}
