/** The client: page-data lookup for the current request, the per-request cache of that lookup
    and the four injectors templates call. */
module KohanaClient {
  import opened Wrappers
  import opened Assets

  /** The routing context of the request being served. */
  datatype Request = Request(directory: string, controller: string, action: string)

  /** The `pages` key of a request: `{directory}_{controller}` when the request has a
      directory, else `{controller}`. */
  function ControllerKey(request: Request): string {
    if |request.directory| != 0 then request.directory + "_" + request.controller else request.controller
  }

  /** The configuration entry that `get_client_page_data` reads for the request. */
  function PageDataFor(config: Config, request: Request, legacy: bool): PageData {
    if legacy then config.legacy.GetOr(map[])
    else if config.pages.None? || |config.pages.value| == 0 then map[]
    else
      var pages := config.pages.value;
      var key := ControllerKey(request);
      if key in pages && request.action in pages[key] then pages[key][request.action] else map[]
  }

  /** The request has an entry under `pages[key][action]`. */
  predicate HasPageEntry(config: Config, request: Request) {
    && config.pages.Some?
    && ControllerKey(request) in config.pages.value
    && request.action in config.pages.value[ControllerKey(request)]
  }

  /** Non-legacy data is the request's entry when it has one and empty otherwise; legacy data
      is the `legacy` subtree, empty when it is missing, whatever the request. */
  lemma PageDataLookup(config: Config, request: Request)
    ensures HasPageEntry(config, request) ==>
      PageDataFor(config, request, false) == config.pages.value[ControllerKey(request)][request.action]
    ensures !HasPageEntry(config, request) ==> PageDataFor(config, request, false) == map[]
    ensures config.legacy.None? ==> PageDataFor(config, request, true) == map[]
    ensures config.legacy.Some? ==> PageDataFor(config, request, true) == config.legacy.value
  {
    if HasPageEntry(config, request) {
      assert ControllerKey(request) in config.pages.value;
      assert |config.pages.value| != 0;
    }
  }

  /** Routes without a `pages` entry get neither a script nor a stylesheet. */
  lemma NoEntryNoOutput(config: Config, request: Request, fs: FileSystem)
    requires !HasPageEntry(config, request)
    ensures ControllerScript(config, PageDataFor(config, request, false), fs) == None
    ensures ThemeStyle(config, PageDataFor(config, request, false), fs) == None
  {
    PageDataLookup(config, request);
  }

  /** The directory prefix is not separated unambiguously: a directory `a` with controller
      `b_c` reads the same entry as a directory `a_b` with controller `c`. */
  lemma ControllerKeysCanCollide()
    ensures Request("a", "b_c", "index") != Request("a_b", "c", "index")
    ensures ControllerKey(Request("a", "b_c", "index")) == ControllerKey(Request("a_b", "c", "index"))
  {
    assert "a" + "_" + "b_c" == "a_b" + "_" + "c";
  }

  /** `__METHOD__` inside `get_client_page_data`. */
  const PageDataMethod := "Kohana_Client::get_client_page_data"

  /** The cache key `__METHOD__ . "$needLegacyConf"`: a true flag interpolates as "1", a false
      one as "". */
  function CacheKey(legacy: bool): string {
    PageDataMethod + (if legacy then "1" else "")
  }

  /** The two flags use different cache entries. */
  lemma CacheKeysDistinct(legacy: bool)
    ensures CacheKey(legacy) != CacheKey(!legacy)
  {
    assert |CacheKey(true)| == |CacheKey(false)| + 1;
  }

  /** The client's request-scoped state: the static `$request_cache` over the configuration,
      request and filesystem, none of which change while a request is served. */
  class Client {
    const config: Config
    const request: Request
    const fs: FileSystem
    var requestCache: map<string, PageData>

    /** An entry cached for the flag is the lookup of that flag. */
    ghost predicate CachedCorrectly(legacy: bool)
      reads this
    {
      CacheKey(legacy) in requestCache ==> requestCache[CacheKey(legacy)] == PageDataFor(config, request, legacy)
    }

    /** The cache holds at most the two page-data entries, each equal to its lookup. */
    ghost predicate Valid()
      reads this
    {
      && (forall k :: k in requestCache ==> k == CacheKey(false) || k == CacheKey(true))
      && CachedCorrectly(false)
      && CachedCorrectly(true)
    }

    /** A fresh request starts with an empty cache. */
    constructor (config: Config, request: Request, fs: FileSystem)
      ensures Valid()
      ensures this.config == config && this.request == request && this.fs == fs
      ensures requestCache == map[]
    {
      this.config := config;
      this.request := request;
      this.fs := fs;
      requestCache := map[];
    }

    /** `get_client_page_data`: the first call for a flag reads the configuration and stores
        the result; later calls return the stored entry and change nothing. The entry of the
        other flag is left as it was. */
    method GetClientPageData(legacy: bool) returns (data: PageData)
      requires Valid()
      modifies this
      ensures Valid()
      ensures data == PageDataFor(config, request, legacy)
      ensures requestCache == old(requestCache)[CacheKey(legacy) := data]
      ensures CacheKey(legacy) in old(requestCache) ==>
        requestCache == old(requestCache) && data == old(requestCache)[CacheKey(legacy)]
      ensures CacheKey(!legacy) in requestCache <==> CacheKey(!legacy) in old(requestCache)
      ensures CacheKey(!legacy) in old(requestCache) ==>
        requestCache[CacheKey(!legacy)] == old(requestCache)[CacheKey(!legacy)]
    {
      CacheKeysDistinct(legacy);
      var key := CacheKey(legacy);
      if key !in requestCache {
        var entry: PageData;
        if legacy {
          entry := config.legacy.GetOr(map[]);
        } else if config.pages.None? || |config.pages.value| == 0 {
          entry := map[];
        } else {
          var pages := config.pages.value;
          var controller := request.controller;
          if |request.directory| != 0 {
            controller := request.directory + "_" + controller;
          }
          entry := if controller in pages && request.action in pages[controller]
            then pages[controller][request.action] else map[];
        }
        requestCache := requestCache[key := entry];
      }
      data := requestCache[key];
    }

    /** `is_development_controller_script`. */
    method IsDevelopmentControllerScript(legacy: bool) returns (development: bool)
      requires Valid()
      modifies this
      ensures Valid()
      ensures development == IsDevelopment(PageDataFor(config, request, legacy))
      ensures requestCache == old(requestCache)[CacheKey(legacy) := PageDataFor(config, request, legacy)]
    {
      var pageData := GetClientPageData(legacy);
      development := !("use_build" in pageData && Truthy(Some(pageData["use_build"])));
    }

    /** `inject_controller_script`: None where the source returns ''. */
    method InjectControllerScript(legacy: bool) returns (tag: Option<Script>)
      requires Valid()
      modifies this
      ensures Valid()
      ensures tag == ControllerScript(config, PageDataFor(config, request, legacy), fs)
      ensures requestCache == old(requestCache)[CacheKey(legacy) := PageDataFor(config, request, legacy)]
    {
      var data := GetClientPageData(legacy);
      if |data| == 0 {
        return None;
      }
      var page := Invoke(Get(data, "page"));
      if !Truthy(page) {
        return None;
      }
      var development := IsDevelopmentControllerScript(legacy);
      var location := "/" + BaseDirectory(config, development);
      if development {
        var loader := "/" + config.loader;
        location := RelativeLocation(location, loader);
        return Some(Script(config.require + ".js",
          [("data-main", loader), ("data-page", location + "/" + Interpolate(page))]));
      }
      var builds := MatchingBuilds(ScriptNames(fs.glob(ScriptPattern(fs, location, Interpolate(page)))), page);
      var name := Interpolate(page);
      if builds != [] {
        // `array_pop`: take the last build and remove it from the list, which is not read again
        name, builds := builds[|builds| - 1], builds[..|builds| - 1];
      }
      return Some(Script(location + "/" + name + ".js", []));
    }

    /** `inject_legacy_support_script`: the script injector with the legacy flag set. */
    method InjectLegacySupportScript() returns (tag: Option<Script>)
      requires Valid()
      modifies this
      ensures Valid()
      ensures tag == ControllerScript(config, PageDataFor(config, request, true), fs)
      ensures requestCache == old(requestCache)[CacheKey(true) := PageDataFor(config, request, true)]
    {
      tag := InjectControllerScript(true);
    }

    /** `inject_theme_styles`: None where the source returns nothing. */
    method InjectThemeStyles(legacy: bool) returns (tag: Option<Style>)
      requires Valid()
      modifies this
      ensures Valid()
      ensures tag == ThemeStyle(config, PageDataFor(config, request, legacy), fs)
      ensures requestCache == old(requestCache)[CacheKey(legacy) := PageDataFor(config, request, legacy)]
    {
      var data := GetClientPageData(legacy);
      if |data| == 0 {
        return None;
      }
      var theme := Invoke(Get(data, "theme"));
      if !Truthy(theme) {
        return None;
      }
      var page := Invoke(Get(data, "page"));
      if !Truthy(page) {
        return None;
      }
      var development := IsDevelopmentControllerScript(legacy);
      var scripts := "/" + BaseDirectory(config, development);
      var ext := if development then DevelopmentStyleExtension else ProductionStyleExtension;
      var prefix := "/" + ext + "/" + Interpolate(theme) + "." + ext;
      var name := Interpolate(page);
      if !development {
        var listing := fs.glob(StylePattern(fs, scripts, Interpolate(page), Interpolate(theme)));
        var builds := MatchingBuilds(StyleNames(listing, prefix), page);
        if builds != [] {
          // `array_pop`: take the last build and remove it from the list, which is not read again
        name, builds := builds[|builds| - 1], builds[..|builds| - 1];
        }
      }
      var rel := "stylesheet";
      if development {
        rel := rel + "/" + ext;
        assert rel == "stylesheet/" + ext;
      }
      return Some(Style(StylePath(scripts, name, ext, Interpolate(theme)), rel));
    }

    /** `inject_legacy_support_styles`: the style injector with the legacy flag set. */
    method InjectLegacySupportStyles() returns (tag: Option<Style>)
      requires Valid()
      modifies this
      ensures Valid()
      ensures tag == ThemeStyle(config, PageDataFor(config, request, true), fs)
      ensures requestCache == old(requestCache)[CacheKey(true) := PageDataFor(config, request, true)]
    {
      tag := InjectThemeStyles(true);
    }

    /** Within one request, resolving the same flag twice gives the same entry, and the second
        call finds the cache already filled. */
    method ResolveTwice(legacy: bool) returns (first: PageData, second: PageData)
      requires Valid()
      modifies this
      ensures Valid()
      ensures first == second
      ensures requestCache == old(requestCache)[CacheKey(legacy) := first]
    {
      first := GetClientPageData(legacy);
      assert CacheKey(legacy) in requestCache;
      second := GetClientPageData(legacy);
    }
  }
}
