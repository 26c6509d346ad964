/**
 * The JavaScript extractor (src/parser/mod.rs): the endpoints of the URL
 * rule, then those of the API rules, de-duplicated on (url, method) with the
 * first occurrence kept; and the query-parameter keys of a url.
 */
module Parser {
  import opened Wrappers
  import opened Strings
  import opened Seqs
  import opened Types
  import opened Errors
  import opened Patterns

  /**
   * The regexes the extractor runs, as functions from the content to their
   * matches, and the type detection of the URL rule, which is not part of
   * this model and is taken as given.
   */
  datatype Rules = Rules(
    urlRegex: string -> seq<Match>,
    apiPatterns: seq<string -> seq<Match>>,
    detectType: (string, string) -> EndpointType)

  predicate NonEmpty(p: string) {
    p != ""
  }

  /** The text after the first `?`, if there is one. */
  function Query(url: string): (q: Option<string>)
    ensures q.None? <==> '?' !in url
    ensures q.Some? ==> EndsWith(url, q.value) && |q.value| < |url|
  {
    match FindChar(url, '?')
    case None => None
    case Some(i) => Some(url[i + 1..])
  }

  /** The non-empty `&`-separated components of a query, in order. */
  function Components(query: string): seq<string> {
    Filter(Split(query, '&'), NonEmpty)
  }

  /** The text before the first `=` of each component. */
  function KeysOf(ps: seq<string>): (r: seq<string>)
    ensures |r| == |ps|
    ensures forall k :: 0 <= k < |ps| ==> r[k] == TakeUntil(ps[k], '=')
  {
    if |ps| == 0 then [] else KeysOf(ps[..|ps| - 1]) + [TakeUntil(ps[|ps| - 1], '=')]
  }

  /** `extract_params`: the keys of the query, or None when there are none. */
  function ExtractParams(url: string): Option<seq<string>> {
    match Query(url)
    case None => None
    case Some(q) =>
      var keys := KeysOf(Components(q));
      if |keys| > 0 then Some(keys) else None
  }

  /** None exactly when there is no `?` or every component after it is empty. */
  lemma ExtractParamsNone(url: string)
    ensures ExtractParams(url).None? <==>
      (Query(url).None? || forall k :: 0 <= k < |Split(Query(url).value, '&')| ==> Split(Query(url).value, '&')[k] == "")
  {
    if Query(url).Some? {
      var pieces := Split(Query(url).value, '&');
      if forall k :: 0 <= k < |pieces| ==> pieces[k] == "" {
        AllEmptyNone(url);
      } else {
        var k :| 0 <= k < |pieces| && pieces[k] != "";
        NonEmptySome(url, k);
      }
    }
  }

  lemma AllEmptyNone(url: string)
    requires Query(url).Some?
    requires forall k :: 0 <= k < |Split(Query(url).value, '&')| ==> Split(Query(url).value, '&')[k] == ""
    ensures ExtractParams(url).None?
  {
    var pieces := Split(Query(url).value, '&');
    forall k | 0 <= k < |pieces| ensures !NonEmpty(pieces[k]) {
    }
    FilterNone(pieces, NonEmpty);
  }

  lemma NonEmptySome(url: string, k: nat)
    requires Query(url).Some?
    requires k < |Split(Query(url).value, '&')| && Split(Query(url).value, '&')[k] != ""
    ensures ExtractParams(url).Some?
  {
    var pieces := Split(Query(url).value, '&');
    assert NonEmpty(pieces[k]);
    assert pieces[k] in Components(Query(url).value);
  }

  /** When Some: one key per non-empty component, in order, each the text before its first `=`. */
  lemma ExtractParamsKeys(url: string)
    requires ExtractParams(url).Some?
    ensures var keys := ExtractParams(url).value;
      var c := Components(Query(url).value);
      |keys| > 0 && |keys| == |c|
      && forall k :: 0 <= k < |keys| ==>
        StartsWith(c[k], keys[k]) && '=' !in keys[k] && '&' !in keys[k]
        && (|keys[k]| < |c[k]| ==> c[k][|keys[k]|] == '=')
  {
    var q := Query(url).value;
    var pieces := Split(q, '&');
    var c := Components(q);
    var keys := ExtractParams(url).value;
    forall k | 0 <= k < |keys|
      ensures StartsWith(c[k], keys[k]) && '=' !in keys[k] && '&' !in keys[k]
        && (|keys[k]| < |c[k]| ==> c[k][|keys[k]|] == '=')
    {
      assert c[k] in pieces;
      var j :| 0 <= j < |pieces| && pieces[j] == c[k];
      assert '&' !in c[k];
      assert keys[k] == c[k][..|keys[k]|];
      forall n | 0 <= n < |keys[k]| ensures keys[k][n] != '&' {
        assert keys[k][n] == c[k][n];
      }
    }
  }

  /** The endpoint the URL rule yields for one url, written as one record; UrlEndpointBuilders shows it is the builder chain. */
  function UrlEndpoint(url: string, content: string, source: Option<string>, detect: (string, string) -> EndpointType): Endpoint {
    Endpoint(url, None, detect(url, content), source, None, ExtractParams(url), None)
  }

  /** `new(url, detected)`, then `with_source` if a source is given, then `with_params` if there are params. */
  lemma UrlEndpointBuilders(url: string, content: string, source: Option<string>, detect: (string, string) -> EndpointType)
    ensures var e := New(url, detect(url, content));
      var e := match source case Some(src) => WithSource(e, src) case None => e;
      UrlEndpoint(url, content, source, detect) == match ExtractParams(url)
        case Some(ps) => WithParams(e, ps)
        case None => e
  {
  }

  /** The URL-rule endpoints, one per url, in order. */
  function UrlEndpoints(urls: seq<string>, content: string, source: Option<string>, detect: (string, string) -> EndpointType): (r: seq<Endpoint>)
    ensures |r| == |urls|
  {
    if |urls| == 0 then []
    else UrlEndpoints(urls[..|urls| - 1], content, source, detect) + [UrlEndpoint(urls[|urls| - 1], content, source, detect)]
  }

  lemma {:induction false} UrlEndpointsAt(urls: seq<string>, content: string, source: Option<string>, detect: (string, string) -> EndpointType, k: nat)
    requires k < |urls|
    ensures UrlEndpoints(urls, content, source, detect)[k] == UrlEndpoint(urls[k], content, source, detect)
  {
    if k < |urls| - 1 {
      UrlEndpointsAt(urls[..|urls| - 1], content, source, detect, k);
    }
  }

  /** The key `parse_js` de-duplicates on. */
  function EpKey(e: Endpoint): (string, Option<string>) {
    (e.url, e.httpMethod)
  }

  /** All endpoints before de-duplication: the URL rule's, then the API rules'. */
  function Candidates(content: string, source: Option<string>, rules: Rules): seq<Endpoint>
    requires PatternsIn(rules.apiPatterns, content)
  {
    UrlEndpoints(FoundUrls(rules.urlRegex(content)), content, source, rules.detectType)
    + ApiEndpoints(content, source, rules.apiPatterns)
  }

  /** What `parse_js` returns: the candidates, first one per (url, method) kept. */
  function Parsed(content: string, source: Option<string>, rules: Rules): seq<Endpoint>
    requires PatternsIn(rules.apiPatterns, content)
  {
    DedupBy(Candidates(content, source, rules), EpKey)
  }

  lemma UrlStep(urls: seq<string>, content: string, source: Option<string>, detect: (string, string) -> EndpointType, i: nat)
    requires i < |urls|
    ensures UrlEndpoints(urls[..i + 1], content, source, detect)
      == UrlEndpoints(urls[..i], content, source, detect) + [UrlEndpoint(urls[i], content, source, detect)]
  {
    assert urls[..i + 1][..i] == urls[..i];
  }

  /** Step 1 of `parse_js`: one endpoint per url, in order. */
  method BuildUrlEndpoints(urls: seq<string>, content: string, source: Option<string>, detect: (string, string) -> EndpointType)
    returns (endpoints: seq<Endpoint>)
    ensures endpoints == UrlEndpoints(urls, content, source, detect)
  {
    endpoints := [];
    var i := 0;
    while i < |urls|
      invariant 0 <= i <= |urls|
      invariant endpoints == UrlEndpoints(urls[..i], content, source, detect)
    {
      UrlStep(urls, content, source, detect, i);
      endpoints := endpoints + [UrlEndpoint(urls[i], content, source, detect)];
      i := i + 1;
    }
    assert urls[..i] == urls;
  }

  /** Step 3 of `parse_js`: keep an endpoint unless an earlier kept one has its url and method. */
  method DedupEndpoints(endpoints: seq<Endpoint>) returns (final: seq<Endpoint>)
    ensures final == DedupBy(endpoints, EpKey)
  {
    final := [];
    var j := 0;
    while j < |endpoints|
      invariant 0 <= j <= |endpoints|
      invariant final == DedupBy(endpoints[..j], EpKey)
    {
      DedupSnoc(endpoints, EpKey, j);
      if EpKey(endpoints[j]) !in Keys(final, EpKey) {
        final := final + [endpoints[j]];
      }
      j := j + 1;
    }
    assert endpoints[..j] == endpoints;
  }

  /** `Parser::parse_js`: always Ok, with the de-duplicated candidates. */
  method ParseJs(content: string, source: Option<string>, rules: Rules) returns (r: Result<seq<Endpoint>, Error>)
    requires PatternsIn(rules.apiPatterns, content)
    ensures r.Ok?
    ensures r.value == Parsed(content, source, rules)
  {
    var urls := FindUrls(content, rules.urlRegex);
    var endpoints := BuildUrlEndpoints(urls, content, source, rules.detectType);
    var api := FindApiEndpoints(content, source, rules.apiPatterns);
    endpoints := endpoints + api;
    var final := DedupEndpoints(endpoints);
    return Ok(final);
  }

  /** The empty page yields no endpoints. */
  lemma ParsedEmpty(source: Option<string>, rules: Rules)
    requires MatchesIn(rules.urlRegex(""), "") && PatternsIn(rules.apiPatterns, "")
    ensures Parsed("", source, rules) == []
  {
    EmptyContentFindsNothing(rules.urlRegex(""), source, rules.apiPatterns);
    assert Candidates("", source, rules) == [];
  }

  /** No two endpoints `parse_js` returns share (url, method); each is the first candidate with its pair, in candidate order. */
  lemma ParsedUnique(content: string, source: Option<string>, rules: Rules)
    requires PatternsIn(rules.apiPatterns, content)
    ensures var r := Parsed(content, source, rules);
      forall i, j :: 0 <= i < j < |r| ==> r[i].url != r[j].url || r[i].httpMethod != r[j].httpMethod
    ensures IsSubsequence(Parsed(content, source, rules), Candidates(content, source, rules))
    ensures Keys(Parsed(content, source, rules), EpKey) == Keys(Candidates(content, source, rules), EpKey)
    ensures var r := Parsed(content, source, rules);
      forall i :: 0 <= i < |r| ==> (EpKey(r[i]) in Keys(Candidates(content, source, rules), EpKey)
        && r[i] == FirstWithKey(Candidates(content, source, rules), EpKey, EpKey(r[i])))
  {
    var c := Candidates(content, source, rules);
    DedupKeepsFirst(c, EpKey);
    DedupDistinct(c, EpKey);
    var r := Parsed(content, source, rules);
    forall i, j | 0 <= i < j < |r| ensures r[i].url != r[j].url || r[i].httpMethod != r[j].httpMethod {
      assert EpKey(r[i]) != EpKey(r[j]);
    }
    DedupSubsequence(c, EpKey);
    DedupKeys(c, EpKey);
  }

  /** Every candidate carries the given source (or none when none is given). */
  lemma CandidatesSource(content: string, source: Option<string>, rules: Rules)
    requires PatternsIn(rules.apiPatterns, content)
    ensures forall k :: 0 <= k < |Candidates(content, source, rules)| ==> Candidates(content, source, rules)[k].source == source
  {
    var urls := FoundUrls(rules.urlRegex(content));
    var u := UrlEndpoints(urls, content, source, rules.detectType);
    var a := ApiEndpoints(content, source, rules.apiPatterns);
    ApiEndpointsShaped(content, source, rules.apiPatterns);
    forall k | 0 <= k < |u| ensures u[k].source == source {
      UrlEndpointsAt(urls, content, source, rules.detectType, k);
    }
    assert Candidates(content, source, rules) == u + a;
  }

  /** The fields of a candidate: the given source; params only on URL-rule endpoints, and then the url's query keys. */
  predicate CandidateFields(e: Endpoint, source: Option<string>, u: seq<Endpoint>) {
    e.source == source && (e.params.Some? ==> e in u && e.params == ExtractParams(e.url))
  }

  lemma CandidatesFields(content: string, source: Option<string>, rules: Rules)
    requires PatternsIn(rules.apiPatterns, content)
    ensures var u := UrlEndpoints(FoundUrls(rules.urlRegex(content)), content, source, rules.detectType);
      var c := Candidates(content, source, rules);
      forall i :: 0 <= i < |c| ==> CandidateFields(c[i], source, u)
  {
    var c := Candidates(content, source, rules);
    var urls := FoundUrls(rules.urlRegex(content));
    var u := UrlEndpoints(urls, content, source, rules.detectType);
    var a := ApiEndpoints(content, source, rules.apiPatterns);
    assert c == u + a;
    ApiEndpointsShaped(content, source, rules.apiPatterns);
    forall i | 0 <= i < |c| ensures CandidateFields(c[i], source, u) {
      if i < |u| {
        UrlEndpointsAt(urls, content, source, rules.detectType, i);
      } else {
        assert c[i] == a[i - |u|];
      }
    }
  }

  /**
   * Every endpoint returned carries the given source; only URL-rule endpoints
   * carry params, and those are the url's query keys.
   */
  lemma ParsedFields(content: string, source: Option<string>, rules: Rules)
    requires PatternsIn(rules.apiPatterns, content)
    ensures var u := UrlEndpoints(FoundUrls(rules.urlRegex(content)), content, source, rules.detectType);
      var r := Parsed(content, source, rules);
      forall k :: 0 <= k < |r| ==> CandidateFields(r[k], source, u)
  {
    var c := Candidates(content, source, rules);
    var r := Parsed(content, source, rules);
    var u := UrlEndpoints(FoundUrls(rules.urlRegex(content)), content, source, rules.detectType);
    CandidatesFields(content, source, rules);
    DedupSubsequence(c, EpKey);
    SubsequenceMembers(r, c);
    forall k | 0 <= k < |r| ensures CandidateFields(r[k], source, u) {
      var i :| 0 <= i < |c| && c[i] == r[k];
    }
  }
}
