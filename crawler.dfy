/**
 * The crawler of src/crawler/mod.rs: a set of visited urls that every fetch
 * grows before it asks the client, the entry-page crawl with its robots.txt
 * gate, and the extraction of script urls from the page.
 */
module Crawler {
  import opened Wrappers
  import opened Seqs
  import opened Errors
  import opened Config
  import opened Client

  /**
   * What the crawler takes as given: `Url::parse` (with its error text), the
   * `src` captures of the script-tag regex in document order, and `Url::join`
   * followed by `to_string`, which may fail.
   */
  datatype Web = Web(
    parse: string -> Result<Url, string>,
    scriptSrcs: string -> seq<string>,
    join: (Url, string) -> Option<string>)

  /** Resolving a src against the page url. */
  function Joiner(web: Web, base: Url): string -> Option<string> {
    (src: string) => web.join(base, src)
  }

  /** The script urls of a page: each src that joins with the base, resolved, in document order. */
  function Scripts(web: Web, html: string, base: Url): seq<string> {
    FilterMap(web.scriptSrcs(html), Joiner(web, base))
  }

  /**
   * One url per src whose join succeeds and none for the others: a url is in
   * the result exactly when some src joins to it, and when every src joins the
   * result is the joined srcs, one for one, in order.
   */
  lemma ScriptsSpec(web: Web, html: string, base: Url)
    ensures |Scripts(web, html, base)| <= |web.scriptSrcs(html)|
    ensures forall u :: u in Scripts(web, html, base) <==>
      exists i :: 0 <= i < |web.scriptSrcs(html)| && web.join(base, web.scriptSrcs(html)[i]) == Some(u)
    ensures (forall i :: 0 <= i < |web.scriptSrcs(html)| ==> web.join(base, web.scriptSrcs(html)[i]).Some?) ==>
      |Scripts(web, html, base)| == |web.scriptSrcs(html)|
      && forall i :: 0 <= i < |web.scriptSrcs(html)| ==>
        Scripts(web, html, base)[i] == web.join(base, web.scriptSrcs(html)[i]).value
  {
    var srcs := web.scriptSrcs(html);
    var f := Joiner(web, base);
    forall u ensures u in Scripts(web, html, base) <==> exists i :: 0 <= i < |srcs| && web.join(base, srcs[i]) == Some(u) {
      FilterMapMembers(srcs, f, u);
    }
    if forall i :: 0 <= i < |srcs| ==> web.join(base, srcs[i]).Some? {
      FilterMapTotal(srcs, f);
    }
  }

  /** What a fetch returns: nothing for a visited url, else what the client gets (a panic included). */
  function Fetched(client: HttpClient, visited: set<string>, url: string): Run<Result<string, Error>> {
    if url in visited then Returns(Ok("")) else Get(client, url)
  }

  /**
   * How `crawl` gets past its checks: a url that does not parse is an error, a
   * robots.txt error is passed on, a refusal is Ok(None), and otherwise the
   * parsed url is the base to fetch from; a panic of the robots.txt check
   * ends the crawl.
   */
  function CrawlGate(client: HttpClient, config: ScanConfig, web: Web, url: string): Run<Result<Option<Url>, Error>> {
    match web.parse(url)
    case Err(msg) => Returns(Err(UrlParseError(msg)))
    case Ok(base) =>
      if !config.respectRobotsTxt then Returns(Ok(Some(base)))
      else match CheckRobotsTxt(client, base)
        case Panics => Panics
        case Returns(Err(e)) => Returns(Err(e))
        case Returns(Ok(allowed)) => if allowed then Returns(Ok(Some(base))) else Returns(Ok(None))
  }

  /** Whether `crawl` reaches the fetch of the entry page. */
  predicate CrawlFetches(client: HttpClient, config: ScanConfig, web: Web, url: string) {
    var g := CrawlGate(client, config, web, url);
    g.Returns? && g.value.Ok? && g.value.value.Some?
  }

  /** What `crawl` returns, from the visited set it starts with; it panics when the robots.txt check or the page fetch does. */
  function CrawlResult(client: HttpClient, config: ScanConfig, web: Web, visited: set<string>, url: string): Run<Result<seq<string>, Error>> {
    match CrawlGate(client, config, web, url)
    case Panics => Panics
    case Returns(Err(e)) => Returns(Err(e))
    case Returns(Ok(gate)) =>
      if gate.None? then Returns(Ok([]))
      else match Fetched(client, visited, url)
        case Panics => Panics
        case Returns(html) => Returns(Ok(if html.Ok? then Scripts(web, html.value, gate.value) else []))
  }

  /** The visited set after `crawl`: the entry url is added exactly when the page fetch is reached. */
  function CrawlVisited(client: HttpClient, config: ScanConfig, web: Web, visited: set<string>, url: string): set<string> {
    if CrawlFetches(client, config, web, url) then visited + {url} else visited
  }

  /** The urls `crawl` asks the client for through a fetch: the entry url when it reaches an unvisited fetch. */
  function CrawlRequests(client: HttpClient, config: ScanConfig, web: Web, visited: set<string>, url: string): seq<string> {
    if CrawlFetches(client, config, web, url) && url !in visited then [url] else []
  }

  /** An entry url that does not parse makes `crawl` fail with a url parse error. */
  lemma CrawlBadUrl(client: HttpClient, config: ScanConfig, web: Web, visited: set<string>, url: string)
    requires web.parse(url).Err?
    ensures CrawlResult(client, config, web, visited, url) == Returns(Err(UrlParseError(web.parse(url).error)))
    ensures CrawlVisited(client, config, web, visited, url) == visited
  {
  }

  /** A robots.txt refusal, when robots.txt is respected, gives an empty list and visits nothing. */
  lemma CrawlRefused(client: HttpClient, config: ScanConfig, web: Web, visited: set<string>, url: string)
    requires web.parse(url).Ok? && config.respectRobotsTxt
    requires CheckRobotsTxt(client, web.parse(url).value) == Returns(Ok(false))
    ensures CrawlResult(client, config, web, visited, url) == Returns(Ok([]))
    ensures CrawlVisited(client, config, web, visited, url) == visited
  {
  }

  /** A failed entry-page fetch is not an error: the crawl finds no assets. */
  lemma CrawlFetchFails(client: HttpClient, config: ScanConfig, web: Web, visited: set<string>, url: string)
    requires CrawlFetches(client, config, web, url)
    requires Fetched(client, visited, url).Returns? && Fetched(client, visited, url).value.Err?
    ensures CrawlResult(client, config, web, visited, url) == Returns(Ok([]))
  {
  }

  /**
   * `crawl` panics exactly when the robots.txt check it makes panics, or when
   * it reaches the fetch of the entry page and that fetch panics.
   */
  lemma CrawlPanics(client: HttpClient, config: ScanConfig, web: Web, visited: set<string>, url: string)
    ensures CrawlResult(client, config, web, visited, url).Panics? <==>
      (web.parse(url).Ok? && config.respectRobotsTxt && CheckRobotsTxt(client, web.parse(url).value).Panics?)
      || (CrawlFetches(client, config, web, url) && Fetched(client, visited, url).Panics?)
  {
  }

  /**
   * The only ways `crawl` fails: the url does not parse, or robots.txt is
   * respected and fetching it timed out or could not connect.
   */
  lemma CrawlErrors(client: HttpClient, config: ScanConfig, web: Web, visited: set<string>, url: string)
    requires CrawlResult(client, config, web, visited, url).Returns?
    requires CrawlResult(client, config, web, visited, url).value.Err?
    ensures var e := CrawlResult(client, config, web, visited, url).value.error;
      (web.parse(url).Err? && e == UrlParseError(web.parse(url).error))
      || (web.parse(url).Ok? && config.respectRobotsTxt && (e.TimeoutError? || e.TlsError?))
  {
    if web.parse(url).Ok? {
      CheckRobotsSpec(client, web.parse(url).value);
    }
  }

  /** Once a crawl has fetched the entry page, a later fetch of it returns the empty page. */
  lemma CrawlMarksEntry(client: HttpClient, config: ScanConfig, web: Web, visited: set<string>, url: string)
    requires CrawlFetches(client, config, web, url)
    ensures url in CrawlVisited(client, config, web, visited, url)
    ensures Fetched(client, CrawlVisited(client, config, web, visited, url), url) == Returns(Ok(""))
  {
  }

  class Crawler {
    const client: HttpClient
    const config: ScanConfig
    const web: Web
    /** The urls fetched so far, successful or not. */
    var visited: set<string>
    /**
     * The urls handed to the client by a page or script fetch, in order. The
     * robots.txt GET of `crawl` is not a fetch and is not recorded here.
     */
    ghost var requested: seq<string>

    /** No url is requested twice, and every requested url is visited. */
    ghost predicate Valid()
      reads this
    {
      (forall i, j :: 0 <= i < j < |requested| ==> requested[i] != requested[j])
      && (forall i :: 0 <= i < |requested| ==> requested[i] in visited)
    }

    /** `Crawler::new`, with client construction not modelled: nothing visited yet. */
    constructor(config: ScanConfig, client: HttpClient, web: Web)
      ensures this.config == config && this.client == client && this.web == web
      ensures visited == {} && requested == []
      ensures Valid()
    {
      this.config := config;
      this.client := client;
      this.web := web;
      visited := {};
      requested := [];
    }

    /**
     * `fetch_html` and `fetch_js`, which differ only in their log line: a
     * visited url gives the empty page without a request; otherwise the url
     * is marked visited before the client is asked, so it stays visited when
     * the request fails.
     */
    method Fetch(url: string) returns (r: Run<Result<string, Error>>)
      requires Valid()
      modifies this
      ensures Valid()
      ensures r == Fetched(client, old(visited), url)
      ensures visited == old(visited) + {url}
      ensures url in old(visited) ==> r == Returns(Ok("")) && requested == old(requested)
      ensures url !in old(visited) ==> r == Get(client, url) && requested == old(requested) + [url]
    {
      if url in visited {
        return Returns(Ok(""));
      }
      visited := visited + {url};
      requested := requested + [url];
      r := Get(client, url);
    }

    /** `extract_scripts`: push the joined url of each src capture whose join succeeds. */
    method ExtractScripts(html: string, base: Url) returns (scripts: seq<string>)
      ensures scripts == Scripts(web, html, base)
    {
      var srcs := web.scriptSrcs(html);
      scripts := [];
      var i := 0;
      while i < |srcs|
        invariant 0 <= i <= |srcs|
        invariant scripts == FilterMap(srcs[..i], Joiner(web, base))
      {
        FilterMapSnoc(srcs, Joiner(web, base), i);
        var joined := web.join(base, srcs[i]);
        if joined.Some? {
          scripts := scripts + [joined.value];
        }
        i := i + 1;
      }
      assert srcs[..i] == srcs;
    }

    /** `Crawler::crawl` */
    method Crawl(url: string) returns (r: Run<Result<seq<string>, Error>>)
      requires Valid()
      modifies this
      ensures Valid()
      ensures r == CrawlResult(client, config, web, old(visited), url)
      ensures visited == CrawlVisited(client, config, web, old(visited), url)
      ensures requested == old(requested) + CrawlRequests(client, config, web, old(visited), url)
    {
      var parsed := web.parse(url);
      if parsed.Err? {
        return Returns(Err(UrlParseError(parsed.error)));
      }
      var base := parsed.value;
      if config.respectRobotsTxt {
        var allowed := CheckRobotsTxt(client, base);
        if allowed.Panics? {
          return Panics;
        }
        if allowed.value.Err? {
          return Returns(Err(allowed.value.error));
        }
        if !allowed.value.value {
          return Returns(Ok([]));
        }
      }
      assert CrawlGate(client, config, web, url) == Returns(Ok(Some(base)));
      var assets: seq<string> := [];
      var html := Fetch(url);
      if html.Panics? {
        return Panics;
      }
      if html.value.Ok? {
        var scripts := ExtractScripts(html.value.value, base);
        assets := assets + scripts;
        assert assets == Scripts(web, html.value.value, base);
      }
      return Returns(Ok(assets));
    }
  }
}
