/**
 * The HTTP client of src/crawler/client.rs with the network taken as given:
 * how request failures and statuses become errors, and the robots.txt
 * decision built on top of `get`.
 */
module Client {
  import opened Wrappers
  import opened Strings
  import opened Errors

  /** What the HTTP library reports about a request that got no response. */
  datatype RequestFailure = RequestFailure(timeout: bool, connect: bool, description: string)

  /**
   * The outcome of sending one GET: no response, or a status with the body as
   * decoded text (None when reading the body failed). Lossy decoding only logs,
   * so a decoded body is always text.
   */
  datatype Reply = NoResponse(failure: RequestFailure) | Response(status: nat, body: Option<string>)

  /** The network as seen through the client: the reply each url gets. */
  datatype HttpClient = HttpClient(send: string -> Reply)

  /** The error a request without response maps to: timeout first, then connect, else a plain HTTP error. */
  function RequestError(f: RequestFailure): Error {
    if f.timeout then TimeoutError
    else if f.connect then TlsError("Connection error: " + f.description)
    else HttpError(f.description)
  }

  /** `StatusCode::is_success`: the 2xx range. */
  predicate IsSuccess(status: nat) {
    200 <= status < 300
  }

  /** `StatusCode::is_client_error` or `is_server_error`: the 4xx and 5xx ranges. */
  predicate IsErrorStatus(status: nat) {
    400 <= status < 600
  }

  /**
   * `HttpClient::get`, after the rate limiter: the body of a 2xx response, or
   * an error for a failed request, a 4xx or 5xx status, or an unreadable body.
   * On any other status (1xx, 3xx, 6xx and up) `error_for_status` returns Ok,
   * and the `unwrap_err` applied to it panics.
   */
  function Get(client: HttpClient, url: string): Run<Result<string, Error>> {
    match client.send(url)
    case NoResponse(f) => Returns(Err(RequestError(f)))
    case Response(status, body) =>
      if IsSuccess(status) then
        if body.None? then Returns(Err(HttpError("error reading response body"))) else Returns(Ok(body.value))
      else if IsErrorStatus(status) then Returns(Err(HttpError("HTTP status client or server error")))
      else Panics
  }

  /**
   * `get` panics exactly on a response whose status is neither 2xx nor 4xx or
   * 5xx (a redirect that was not followed, say); it succeeds exactly on a 2xx
   * response whose body could be read; a 4xx or 5xx status is an HTTP error;
   * every error it returns is a network error, and it is recoverable unless it
   * is a connect failure that did not time out.
   */
  lemma GetSpec(client: HttpClient, url: string)
    ensures var g, rep := Get(client, url), client.send(url);
      g.Panics? <==> rep.Response? && !IsSuccess(rep.status) && !IsErrorStatus(rep.status)
    ensures var g, rep := Get(client, url), client.send(url);
      (g.Returns? && g.value.Ok?) <==> rep.Response? && IsSuccess(rep.status) && rep.body.Some?
    ensures var g, rep := Get(client, url), client.send(url);
      g.Returns? && g.value.Ok? ==> g.value.value == rep.body.value
    ensures var g := Get(client, url);
      g.Returns? && g.value.Err? ==> IsNetworkError(g.value.error)
    ensures var g, rep := Get(client, url), client.send(url);
      g.Returns? && g.value.Err? ==> (IsRecoverable(g.value.error) <==>
        !(rep.NoResponse? && !rep.failure.timeout && rep.failure.connect))
    ensures var g, rep := Get(client, url), client.send(url);
      rep.Response? && IsErrorStatus(rep.status) ==> g.Returns? && g.value.Err? && g.value.error.HttpError?
  {
  }

  /** A redirect that reaches `get`, a 301 for example, makes it panic rather than fail. */
  lemma RedirectPanics(client: HttpClient, url: string)
    requires client.send(url).Response? && 300 <= client.send(url).status < 400
    ensures Get(client, url) == Panics
  {
  }

  /** The parts of a parsed url the client and the crawler use. */
  datatype Url = Url(scheme: string, host: Option<string>, path: string)

  /** `format!("{}://{}/robots.txt", scheme, host_str().unwrap_or(""))` */
  function RobotsUrl(u: Url): string {
    u.scheme + "://" + (if u.host.Some? then u.host.value else "") + "/robots.txt"
  }

  /** The robots url starts with the scheme and `://`, holds the host, and ends in `/robots.txt`. */
  lemma RobotsUrlShape(u: Url)
    ensures StartsWith(RobotsUrl(u), u.scheme + "://")
    ensures EndsWith(RobotsUrl(u), "/robots.txt")
    ensures u.host.Some? ==> RobotsUrl(u)[|u.scheme| + 3..|RobotsUrl(u)| - 11] == u.host.value
    ensures u.host.None? ==> RobotsUrl(u) == u.scheme + ":///robots.txt"
  {
    var h := if u.host.Some? then u.host.value else "";
    var r := RobotsUrl(u);
    assert r == (u.scheme + "://") + h + "/robots.txt";
    assert r[..|u.scheme| + 3] == u.scheme + "://";
    assert r[|r| - 11..] == "/robots.txt";
    assert r[|u.scheme| + 3..|r| - 11] == h;
  }

  /** The line whose presence makes robots.txt refuse a path. */
  function DisallowLine(path: string): string {
    "Disallow: " + path
  }

  /** What `check_robots_txt` makes of the robots.txt fetch. */
  function RobotsDecision(fetched: Result<string, Error>, path: string): Result<bool, Error> {
    match fetched
    case Ok(content) => Ok(!Contains(content, DisallowLine(path)))
    case Err(e) => if e.HttpError? then Ok(true) else Err(e)
  }

  /** `HttpClient::check_robots_txt`: it panics when its `get` does. */
  function CheckRobotsTxt(client: HttpClient, u: Url): Run<Result<bool, Error>> {
    match Get(client, RobotsUrl(u))
    case Panics => Panics
    case Returns(g) => Returns(RobotsDecision(g, u.path))
  }

  /**
   * Robots allows a url exactly when robots.txt could be fetched and holds no
   * `Disallow: <path>` anywhere, or when fetching it gave an HTTP error (a
   * 4xx or 5xx status included); a timeout or connect failure is passed on,
   * and those are the only errors it returns; it panics exactly when the
   * robots.txt reply has a status `get` panics on.
   */
  lemma CheckRobotsSpec(client: HttpClient, u: Url)
    ensures CheckRobotsTxt(client, u).Panics? <==> Get(client, RobotsUrl(u)).Panics?
    ensures var g := Get(client, RobotsUrl(u));
      g.Returns? && g.value.Ok? ==>
        CheckRobotsTxt(client, u) == Returns(Ok(!exists i :: OccursAt(g.value.value, DisallowLine(u.path), i)))
    ensures var g := Get(client, RobotsUrl(u));
      g.Returns? && g.value.Err? && g.value.error.HttpError? ==> CheckRobotsTxt(client, u) == Returns(Ok(true))
    ensures var g := Get(client, RobotsUrl(u));
      g.Returns? && g.value.Err? && !g.value.error.HttpError? ==> CheckRobotsTxt(client, u) == Returns(Err(g.value.error))
    ensures var c := CheckRobotsTxt(client, u);
      c.Returns? && c.value.Err? ==> c.value.error.TimeoutError? || c.value.error.TlsError?
  {
    var g := Get(client, RobotsUrl(u));
    GetSpec(client, RobotsUrl(u));
    if g.Returns? && g.value.Ok? {
      ContainsIff(g.value.value, DisallowLine(u.path));
    }
  }
}
