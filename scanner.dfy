/**
 * The scan pipeline of src/scanner.rs after the fetches: crawl the entry url,
 * fetch and parse each asset (skipping the ones that fail), parse the entry
 * page itself, run the plugin stage, and keep the urls holding the configured
 * filter pattern.
 */
module Scanner {
  import opened Wrappers
  import opened Strings
  import opened Seqs
  import opened Types
  import opened Errors
  import opened Config
  import opened Client
  import opened Crawler
  import opened Patterns
  import opened Parser
  import opened Plugins

  /** The rules hold on every content: every match of every regex is a non-empty slice of it. */
  ghost predicate RulesValid(rules: Rules) {
    forall c :: MatchesIn(rules.urlRegex(c), c) && PatternsIn(rules.apiPatterns, c)
  }

  /** The plugin stage of one endpoint: dropped, or transformed. */
  function StageFn(plugins: seq<Plugin>): Endpoint -> Option<Endpoint> {
    (e: Endpoint) => if Kept(plugins, e) then Some(Transformed(plugins, e)) else None
  }

  /** The plugin stage: the transform of each endpoint the filter keeps, in input order. */
  function PluginStage(plugins: seq<Plugin>, eps: seq<Endpoint>): seq<Endpoint> {
    FilterMap(eps, StageFn(plugins))
  }

  /**
   * An endpoint comes out of the plugin stage exactly when it is the transform
   * of an input the filter keeps; with no plugins the stage changes nothing.
   */
  lemma PluginStageSpec(plugins: seq<Plugin>, eps: seq<Endpoint>)
    ensures |PluginStage(plugins, eps)| <= |eps|
    ensures forall x :: x in PluginStage(plugins, eps) <==>
      exists i :: 0 <= i < |eps| && Kept(plugins, eps[i]) && Transformed(plugins, eps[i]) == x
    ensures PluginStage([], eps) == eps
  {
    forall x ensures x in PluginStage(plugins, eps) <==>
      exists i :: 0 <= i < |eps| && Kept(plugins, eps[i]) && Transformed(plugins, eps[i]) == x
    {
      FilterMapMembers(eps, StageFn(plugins), x);
    }
    forall i | 0 <= i < |eps| ensures StageFn([])(eps[i]) == Some(eps[i]) {
      KeptSpec([], eps[i]);
      TransformedSpec([], eps[i]);
    }
    FilterMapTotal(eps, StageFn([]));
  }

  /** `retain(|e| e.url.contains(filter))` */
  function UrlHas(pattern: string): Endpoint -> bool {
    (e: Endpoint) => Contains(e.url, pattern)
  }

  /** The `filter_pattern` step: with a pattern, the endpoints whose url holds it; without, all of them. */
  function Retained(pattern: Option<string>, eps: seq<Endpoint>): seq<Endpoint> {
    if pattern.Some? then Seqs.Filter(eps, UrlHas(pattern.value)) else eps
  }

  /**
   * With a pattern every endpoint kept holds it and every endpoint holding it
   * is kept, in order; without one nothing is removed.
   */
  lemma RetainedSpec(pattern: Option<string>, eps: seq<Endpoint>)
    ensures pattern.None? ==> Retained(pattern, eps) == eps
    ensures pattern.Some? ==> forall k :: 0 <= k < |Retained(pattern, eps)| ==> Contains(Retained(pattern, eps)[k].url, pattern.value)
    ensures pattern.Some? ==> forall k :: 0 <= k < |eps| && Contains(eps[k].url, pattern.value) ==> eps[k] in Retained(pattern, eps)
    ensures IsSubsequence(Retained(pattern, eps), eps)
  {
    if pattern.Some? {
      FilterSubsequence(eps, UrlHas(pattern.value));
      var r := Retained(pattern, eps);
      forall k | 0 <= k < |r| ensures Contains(r[k].url, pattern.value) {
        assert UrlHas(pattern.value)(r[k]);
      }
      forall k | 0 <= k < |eps| && Contains(eps[k].url, pattern.value) ensures eps[k] in r {
        assert UrlHas(pattern.value)(eps[k]);
      }
    } else {
      SubsequenceRefl(eps);
    }
  }

  function Ident(u: string): string {
    u
  }

  /** The urls of a list, as a set. */
  function Elems(s: seq<string>): set<string> {
    Keys(s, Ident)
  }

  /**
   * What one asset contributes: the endpoints of its content, or nothing when
   * the fetch fails; a fetch that panics ends the scan.
   */
  function AssetEndpoints(client: HttpClient, rules: Rules, visited: set<string>, url: string): Run<seq<Endpoint>>
    requires RulesValid(rules)
  {
    match Fetched(client, visited, url)
    case Panics => Panics
    case Returns(js) => Returns(if js.Ok? then Parsed(js.value, Some(url), rules) else [])
  }

  /** Two contributions one after the other: a panic in either is a panic of both. */
  function Append(a: Run<seq<Endpoint>>, b: Run<seq<Endpoint>>): (r: Run<seq<Endpoint>>)
    ensures r.Panics? <==> a.Panics? || b.Panics?
  {
    if a.Panics? || b.Panics? then Panics else Returns(a.value + b.value)
  }

  /** The endpoints of the assets in order, each fetched with the urls before it visited. */
  function AllAssetEndpoints(client: HttpClient, rules: Rules, visited: set<string>, assets: seq<string>): Run<seq<Endpoint>>
    requires RulesValid(rules)
  {
    if |assets| == 0 then Returns([])
    else
      var p := assets[..|assets| - 1];
      Append(AllAssetEndpoints(client, rules, visited, p), AssetEndpoints(client, rules, visited + Elems(p), assets[|assets| - 1]))
  }

  /** One turn of the asset loop: the next asset is fetched with the ones before it visited. */
  lemma AssetStep(client: HttpClient, rules: Rules, visited: set<string>, assets: seq<string>, i: nat)
    requires RulesValid(rules) && i < |assets|
    ensures Elems(assets[..i + 1]) == Elems(assets[..i]) + {assets[i]}
    ensures AllAssetEndpoints(client, rules, visited, assets[..i + 1])
      == Append(AllAssetEndpoints(client, rules, visited, assets[..i]), AssetEndpoints(client, rules, visited + Elems(assets[..i]), assets[i]))
  {
    var p := assets[..i];
    assert assets[..i + 1][..i] == p;
    assert assets[..i + 1] == p + [assets[i]];
    KeysAppend(p, assets[i], Ident);
  }

  /** Whether the fetch of the i-th asset, with the assets before it visited, panics. */
  predicate FetchPanicsAt(client: HttpClient, visited: set<string>, assets: seq<string>, i: nat)
    requires i < |assets|
  {
    Fetched(client, visited + Elems(assets[..i]), assets[i]).Panics?
  }

  /** The last turn of the loop panics exactly when the loop before it, or the fetch of the last asset, does. */
  lemma AssetsPanicLast(client: HttpClient, rules: Rules, visited: set<string>, assets: seq<string>)
    requires RulesValid(rules) && |assets| > 0
    ensures AllAssetEndpoints(client, rules, visited, assets).Panics? <==>
      AllAssetEndpoints(client, rules, visited, assets[..|assets| - 1]).Panics? || FetchPanicsAt(client, visited, assets, |assets| - 1)
  {
  }

  /** Some asset among the first n has a panicking fetch. */
  predicate SomeFetchPanics(client: HttpClient, visited: set<string>, assets: seq<string>, n: nat)
    requires n <= |assets|
  {
    exists i :: 0 <= i < n && FetchPanicsAt(client, visited, assets, i)
  }

  /** Some asset panics exactly when one before the last does, or the last one does. */
  lemma SomeFetchPanicsLast(client: HttpClient, visited: set<string>, assets: seq<string>)
    requires |assets| > 0
    ensures SomeFetchPanics(client, visited, assets, |assets|) <==>
      SomeFetchPanics(client, visited, assets[..|assets| - 1], |assets| - 1) || FetchPanicsAt(client, visited, assets, |assets| - 1)
  {
    var n := |assets| - 1;
    var p := assets[..n];
    forall i | 0 <= i < n ensures FetchPanicsAt(client, visited, p, i) == FetchPanicsAt(client, visited, assets, i) {
      assert p[..i] == assets[..i];
    }
  }

  /**
   * The asset loop panics exactly when the fetch of some asset panics, with
   * the assets before it visited.
   */
  lemma {:induction false} AssetsPanic(client: HttpClient, rules: Rules, visited: set<string>, assets: seq<string>)
    requires RulesValid(rules)
    ensures AllAssetEndpoints(client, rules, visited, assets).Panics? <==> SomeFetchPanics(client, visited, assets, |assets|)
  {
    if |assets| > 0 {
      AssetsPanic(client, rules, visited, assets[..|assets| - 1]);
      AssetsPanicLast(client, rules, visited, assets);
      SomeFetchPanicsLast(client, visited, assets);
    }
  }

  /** Once the loop has panicked on a prefix of the assets, it has panicked on all of them. */
  lemma {:induction false} PanicPersists(client: HttpClient, rules: Rules, visited: set<string>, assets: seq<string>, i: nat)
    requires RulesValid(rules) && i <= |assets|
    requires AllAssetEndpoints(client, rules, visited, assets[..i]).Panics?
    ensures AllAssetEndpoints(client, rules, visited, assets).Panics?
    decreases |assets| - i
  {
    if i < |assets| {
      AssetStep(client, rules, visited, assets, i);
      PanicPersists(client, rules, visited, assets, i + 1);
    } else {
      assert assets[..i] == assets;
    }
  }

  /** What `scan_url` returns from the crawler's visited set at the start. */
  function ScanResult(client: HttpClient, config: ScanConfig, web: Web, rules: Rules, plugins: seq<Plugin>,
                      visited: set<string>, url: string): Run<Result<seq<Endpoint>, Error>>
    requires RulesValid(rules)
  {
    match CrawlResult(client, config, web, visited, url)
    case Panics => Panics
    case Returns(Err(e)) => Returns(Err(e))
    case Returns(Ok(assets)) =>
      var v := CrawlVisited(client, config, web, visited, url);
      match Append(AllAssetEndpoints(client, rules, v, assets), AssetEndpoints(client, rules, v + Elems(assets), url))
      case Panics => Panics
      case Returns(found) => Returns(Ok(Retained(config.filterPattern, PluginStage(plugins, found))))
  }

  /**
   * The crawler's visited set after a `scan_url` that returns: what `crawl`
   * leaves, and on success every asset and the entry url as well.
   */
  function ScanVisited(client: HttpClient, config: ScanConfig, web: Web, visited: set<string>, url: string): (v: set<string>)
    ensures visited <= v
    ensures CrawlResult(client, config, web, visited, url).Returns? && CrawlResult(client, config, web, visited, url).value.Ok? ==> url in v
    ensures CrawlResult(client, config, web, visited, url).Returns? && CrawlResult(client, config, web, visited, url).value.Err? ==>
      v == CrawlVisited(client, config, web, visited, url)
  {
    match CrawlResult(client, config, web, visited, url)
    case Returns(Ok(assets)) => CrawlVisited(client, config, web, visited, url) + Elems(assets) + {url}
    case _ => CrawlVisited(client, config, web, visited, url)
  }

  /**
   * `scan_url` panics exactly when `crawl` does, or when `crawl` returns
   * assets and the fetch of one of them, or of the entry page after them,
   * panics.
   */
  lemma ScanPanics(client: HttpClient, config: ScanConfig, web: Web, rules: Rules, plugins: seq<Plugin>,
                   visited: set<string>, url: string)
    requires RulesValid(rules)
    ensures var c, v := CrawlResult(client, config, web, visited, url), CrawlVisited(client, config, web, visited, url);
      ScanResult(client, config, web, rules, plugins, visited, url).Panics? <==>
        c.Panics? || (c.value.Ok? && (SomeFetchPanics(client, v, c.value.value, |c.value.value|)
          || Fetched(client, v + Elems(c.value.value), url).Panics?))
  {
    var c := CrawlResult(client, config, web, visited, url);
    if c.Returns? && c.value.Ok? {
      AssetsPanic(client, rules, CrawlVisited(client, config, web, visited, url), c.value.value);
    }
  }

  /**
   * A robots.txt refusal makes `crawl` return no assets without visiting the
   * entry url, and `scan_url` then still fetches the entry page itself and
   * parses it: the refusal does not stop the page from being scanned.
   */
  lemma ScanAfterRefusal(client: HttpClient, config: ScanConfig, web: Web, rules: Rules, plugins: seq<Plugin>,
                         visited: set<string>, url: string)
    requires RulesValid(rules) && web.parse(url).Ok? && config.respectRobotsTxt
    requires CheckRobotsTxt(client, web.parse(url).value) == Returns(Ok(false))
    ensures CrawlResult(client, config, web, visited, url) == Returns(Ok([]))
    ensures var main := AssetEndpoints(client, rules, visited, url);
      main.Returns? ==> (ScanResult(client, config, web, rules, plugins, visited, url)
        == Returns(Ok(Retained(config.filterPattern, PluginStage(plugins, main.value)))))
    ensures ScanVisited(client, config, web, visited, url) == visited + {url}
    ensures var g := Get(client, url);
      url !in visited && g.Returns? && g.value.Ok? ==>
        AssetEndpoints(client, rules, visited, url) == Returns(Parsed(g.value.value, Some(url), rules))
  {
    assert CrawlGate(client, config, web, url) == Returns(Ok(None));
    assert CrawlVisited(client, config, web, visited, url) == visited;
    var none: seq<string> := [];
    assert Elems(none) == {};
    var main := AssetEndpoints(client, rules, visited, url);
    if main.Returns? {
      assert Append(AllAssetEndpoints(client, rules, visited, none), main) == Returns([] + main.value);
      assert [] + main.value == main.value;
    }
  }

  /** `scan_url` fails exactly when `crawl` does, with its error. */
  lemma ScanFailsOnlyInCrawl(client: HttpClient, config: ScanConfig, web: Web, rules: Rules, plugins: seq<Plugin>,
                             visited: set<string>, url: string)
    requires RulesValid(rules)
    ensures var s, c := ScanResult(client, config, web, rules, plugins, visited, url), CrawlResult(client, config, web, visited, url);
      (s.Returns? && s.value.Err?) <==> (c.Returns? && c.value.Err?)
    ensures var s, c := ScanResult(client, config, web, rules, plugins, visited, url), CrawlResult(client, config, web, visited, url);
      s.Returns? && s.value.Err? ==> s.value.error == c.value.error
  {
  }

  /** With a filter pattern, every endpoint `scan_url` returns holds it in its url. */
  lemma ScanHonoursPattern(client: HttpClient, config: ScanConfig, web: Web, rules: Rules, plugins: seq<Plugin>,
                           visited: set<string>, url: string)
    requires RulesValid(rules) && config.filterPattern.Some?
    requires ScanResult(client, config, web, rules, plugins, visited, url).Returns?
    requires ScanResult(client, config, web, rules, plugins, visited, url).value.Ok?
    ensures var r := ScanResult(client, config, web, rules, plugins, visited, url).value.value;
      forall k :: 0 <= k < |r| ==> Contains(r[k].url, config.filterPattern.value)
  {
    var assets := CrawlResult(client, config, web, visited, url).value.value;
    var v := CrawlVisited(client, config, web, visited, url);
    var found := Append(AllAssetEndpoints(client, rules, v, assets), AssetEndpoints(client, rules, v + Elems(assets), url));
    RetainedSpec(config.filterPattern, PluginStage(plugins, found.value));
  }

  /** When the crawl fetched the entry page, fetching it again at the end gives nothing to parse. */
  lemma MainPageAddsNothing(client: HttpClient, config: ScanConfig, web: Web, rules: Rules, visited: set<string>,
                            url: string, assets: seq<string>)
    requires RulesValid(rules) && CrawlFetches(client, config, web, url)
    ensures AssetEndpoints(client, rules, CrawlVisited(client, config, web, visited, url) + Elems(assets), url) == Returns([])
  {
    assert url in CrawlVisited(client, config, web, visited, url);
    assert MatchesIn(rules.urlRegex(""), "") && PatternsIn(rules.apiPatterns, "");
    ParsedEmpty(Some(url), rules);
  }

  /**
   * An asset whose fetch fails contributes nothing; one that is fetched
   * contributes its endpoints after the earlier ones; one whose fetch panics
   * makes the loop panic.
   */
  lemma {:induction false} AssetFailureSkipped(client: HttpClient, rules: Rules, visited: set<string>, assets: seq<string>, u: string)
    requires RulesValid(rules)
    ensures var f := Fetched(client, visited + Elems(assets), u);
      f.Returns? && f.value.Err? ==>
        AllAssetEndpoints(client, rules, visited, assets + [u]) == AllAssetEndpoints(client, rules, visited, assets)
    ensures var f := Fetched(client, visited + Elems(assets), u);
      f.Returns? && f.value.Ok? ==>
        AllAssetEndpoints(client, rules, visited, assets + [u])
          == Append(AllAssetEndpoints(client, rules, visited, assets), Returns(Parsed(f.value.value, Some(u), rules)))
    ensures Fetched(client, visited + Elems(assets), u).Panics? ==> AllAssetEndpoints(client, rules, visited, assets + [u]) == Panics
  {
    assert (assets + [u])[..|assets|] == assets;
    var a := AllAssetEndpoints(client, rules, visited, assets);
    if a.Returns? {
      assert a.value + [] == a.value;
    }
  }

  /** Every endpoint one asset contributes carries that asset's url as its source. */
  lemma AssetEndpointSources(client: HttpClient, rules: Rules, visited: set<string>, u: string)
    requires RulesValid(rules)
    ensures var b := AssetEndpoints(client, rules, visited, u);
      b.Returns? ==> forall k :: 0 <= k < |b.value| ==> b.value[k].source == Some(u)
  {
    var f := Fetched(client, visited, u);
    if f.Returns? && f.value.Ok? {
      ParsedFields(f.value.value, Some(u), rules);
      var c := f.value.value;
      var b := Parsed(c, Some(u), rules);
      forall k | 0 <= k < |b| ensures b[k].source == Some(u) {
        assert CandidateFields(b[k], Some(u), UrlEndpoints(FoundUrls(rules.urlRegex(c)), c, Some(u), rules.detectType));
      }
    }
  }

  /** A loop that returns returned on the assets before the last and on the last one, and joins the two. */
  lemma AssetsReturnLast(client: HttpClient, rules: Rules, visited: set<string>, assets: seq<string>)
    requires RulesValid(rules) && |assets| > 0 && AllAssetEndpoints(client, rules, visited, assets).Returns?
    ensures var p := assets[..|assets| - 1];
      var a, b := AllAssetEndpoints(client, rules, visited, p), AssetEndpoints(client, rules, visited + Elems(p), assets[|assets| - 1]);
      a.Returns? && b.Returns? && AllAssetEndpoints(client, rules, visited, assets).value == a.value + b.value
  {
  }

  /** Every endpoint found in the assets carries the url of the asset it came from. */
  lemma {:induction false} AssetSources(client: HttpClient, rules: Rules, visited: set<string>, assets: seq<string>)
    requires RulesValid(rules)
    ensures var all := AllAssetEndpoints(client, rules, visited, assets);
      all.Returns? ==> forall k :: 0 <= k < |all.value| ==> all.value[k].source.Some? && all.value[k].source.value in assets
  {
    if |assets| > 0 && AllAssetEndpoints(client, rules, visited, assets).Returns? {
      var p := assets[..|assets| - 1];
      var u := assets[|assets| - 1];
      AssetSources(client, rules, visited, p);
      AssetEndpointSources(client, rules, visited + Elems(p), u);
      AssetsReturnLast(client, rules, visited, assets);
      var a: seq<Endpoint> := AllAssetEndpoints(client, rules, visited, p).value;
      var b: seq<Endpoint> := AssetEndpoints(client, rules, visited + Elems(p), u).value;
      forall k | 0 <= k < |a + b| ensures (a + b)[k].source.Some? && (a + b)[k].source.value in assets {
        if k < |a| {
          assert (a + b)[k] == a[k];
          var s := a[k].source.value;
          assert s in p;
          var j :| 0 <= j < |p| && p[j] == s;
          assert assets[j] == s;
        } else {
          assert (a + b)[k] == b[k - |a|];
        }
      }
    }
  }

  class Scanner {
    const crawler: Crawler
    const rules: Rules
    const config: ScanConfig
    const pluginManager: PluginManager

    ghost predicate Valid()
      reads this, crawler, pluginManager
    {
      crawler.Valid() && pluginManager.Valid() && crawler.config == config && RulesValid(rules)
    }

    /**
     * `Scanner::new`: a crawler on the same configuration, and the plugin at
     * the given path loaded if there is one; a load error is ignored.
     */
    constructor(config: ScanConfig, pluginPath: Option<string>, client: HttpClient, web: Web, rules: Rules,
                pluginsEnabled: bool, pluginCode: Result<string, string>, compile: string -> Result<Plugin, string>)
      requires RulesValid(rules)
      ensures Valid() && fresh(crawler) && fresh(pluginManager)
      ensures this.config == config && this.rules == rules && crawler.visited == {}
      ensures crawler.client == client && crawler.web == web && pluginManager.enabled == pluginsEnabled
      ensures pluginManager.plugins ==
        if pluginsEnabled && pluginPath.Some? && pluginCode.Ok? && compile(pluginCode.value).Ok?
        then [compile(pluginCode.value).value] else []
    {
      var c := new Crawler(config, client, web);
      var pm := new PluginManager(pluginsEnabled);
      if pluginPath.Some? {
        var _ := pm.LoadPlugin(pluginCode, compile);
      }
      crawler := c;
      pluginManager := pm;
      this.config := config;
      this.rules := rules;
    }

    /** The plugin loop: filter, then transform each endpoint kept, pushing in order. */
    method ApplyPlugins(eps: seq<Endpoint>) returns (out: seq<Endpoint>)
      requires Valid()
      ensures out == PluginStage(pluginManager.plugins, eps)
    {
      ghost var f := StageFn(pluginManager.plugins);
      out := [];
      var i := 0;
      while i < |eps|
        invariant 0 <= i <= |eps|
        invariant out == FilterMap(eps[..i], f)
      {
        FilterMapSnoc(eps, f, i);
        var keep := pluginManager.FilterEndpoint(eps[i]);
        if keep {
          var transformed := pluginManager.TransformEndpoint(eps[i]);
          assert f(eps[i]) == Some(transformed);
          out := out + [transformed];
        } else {
          assert f(eps[i]).None?;
        }
        i := i + 1;
      }
      assert eps[..i] == eps;
    }

    /** One asset: fetch it and parse it, or contribute nothing when the fetch fails; a panicking fetch is passed on. */
    method ParseAsset(url: string) returns (eps: Run<seq<Endpoint>>)
      requires Valid()
      modifies crawler
      ensures Valid()
      ensures eps == AssetEndpoints(crawler.client, rules, old(crawler.visited), url)
      ensures crawler.visited == old(crawler.visited) + {url}
    {
      var js := crawler.Fetch(url);
      if js.Panics? {
        return Panics;
      }
      eps := Returns([]);
      if js.value.Ok? {
        assert PatternsIn(rules.apiPatterns, js.value.value);
        var parsed := ParseJs(js.value.value, Some(url), rules);
        if parsed.Ok? {
          eps := Returns(parsed.value);
        }
      }
    }

    /** The asset loop of `scan_url`: each asset in order, a failed one skipped, a panic ending the loop. */
    method ParseAssets(assets: seq<string>) returns (all: Run<seq<Endpoint>>)
      requires Valid()
      modifies crawler
      ensures Valid()
      ensures all == AllAssetEndpoints(crawler.client, rules, old(crawler.visited), assets)
      ensures all.Returns? ==> crawler.visited == old(crawler.visited) + Elems(assets)
    {
      ghost var v := crawler.visited;
      var found: seq<Endpoint> := [];
      var i := 0;
      while i < |assets|
        invariant 0 <= i <= |assets|
        invariant Valid()
        invariant crawler.visited == v + Elems(assets[..i])
        invariant Returns(found) == AllAssetEndpoints(crawler.client, rules, v, assets[..i])
      {
        AssetStep(crawler.client, rules, v, assets, i);
        var eps := ParseAsset(assets[i]);
        if eps.Panics? {
          PanicPersists(crawler.client, rules, v, assets, i + 1);
          return Panics;
        }
        found := found + eps.value;
        i := i + 1;
      }
      assert assets[..i] == assets;
      return Returns(found);
    }

    /** `Scanner::scan_url` */
    method ScanUrl(url: string) returns (r: Run<Result<seq<Endpoint>, Error>>)
      requires Valid()
      modifies crawler
      ensures Valid()
      ensures r == ScanResult(crawler.client, config, crawler.web, rules, pluginManager.plugins, old(crawler.visited), url)
      ensures r.Returns? ==> crawler.visited == ScanVisited(crawler.client, config, crawler.web, old(crawler.visited), url)
    {
      var crawled := crawler.Crawl(url);
      if crawled.Panics? {
        return Panics;
      }
      if crawled.value.Err? {
        return Returns(Err(crawled.value.error));
      }
      var all := ParseAssets(crawled.value.value);
      if all.Panics? {
        return Panics;
      }
      var main := ParseAsset(url);
      if main.Panics? {
        return Panics;
      }
      var processed := ApplyPlugins(all.value + main.value);
      if config.filterPattern.Some? {
        processed := Seqs.Filter(processed, UrlHas(config.filterPattern.value));
      }
      return Returns(Ok(processed));
    }

    /** `Scanner::parse_file`, with the file read given: an unreadable file is an I/O error. */
    method ParseFile(path: string, contents: Result<string, string>) returns (r: Result<seq<Endpoint>, Error>)
      requires Valid()
      ensures contents.Err? ==> r == Err(IoError(contents.error))
      ensures contents.Ok? ==> r == Ok(PluginStage(pluginManager.plugins, Parsed(contents.value, Some(path), rules)))
    {
      if contents.Err? {
        return Err(IoError(contents.error));
      }
      assert PatternsIn(rules.apiPatterns, contents.value);
      // parse_js never fails, so its `?` never returns early.
      var parsed := ParseJs(contents.value, Some(path), rules);
      var processed := ApplyPlugins(parsed.value);
      return Ok(processed);
    }
  }
}
