/**
 * The pattern matcher of the JavaScript extractor (src/parser/patterns.rs).
 * The URL regex and the six API regexes are given as functions from the
 * content to their matches; the HTTP-method regex, which the matcher runs on a
 * window around each API match, is written out by hand.
 */
module Patterns {
  import opened Wrappers
  import opened Strings
  import opened Sorting
  import opened Seqs
  import opened Types

  /** One regex match: where it starts in the content and the text it covers. */
  datatype Match = Match(start: nat, text: string)

  /**
   * What the regex engine guarantees of a match: it is a slice of the content,
   * and not empty (every pattern of the matcher consumes at least one character).
   */
  predicate MatchIn(m: Match, content: string) {
    0 < |m.text| && m.start + |m.text| <= |content| && content[m.start..m.start + |m.text|] == m.text
  }

  predicate MatchesIn(ms: seq<Match>, content: string) {
    forall k :: 0 <= k < |ms| ==> MatchIn(ms[k], content)
  }

  /** The characters `trim_matches` removes from both ends of a match. */
  predicate IsQuote(c: char) {
    c == '"' || c == '\'' || c == '`'
  }

  /** `trim_matches` on the quotes; TrimQuotesExact says which characters go. */
  function TrimQuotes(s: string): (r: string)
    ensures |r| > 0 ==> !IsQuote(r[0]) && !IsQuote(r[|r| - 1])
  {
    TrimBy(s, IsQuote)
  }

  /** TrimQuotes removes the leading and the trailing run of quotes, and no other character. */
  lemma TrimQuotesExact(s: string)
    ensures var a, r := Lead(s, IsQuote), TrimQuotes(s);
      a + |r| <= |s| && r == s[a..a + |r|]
      && (forall k :: 0 <= k < a ==> IsQuote(s[k])) && (forall k :: a + |r| <= k < |s| ==> IsQuote(s[k]))
  {
    TrimByExact(s, IsQuote);
  }

  /** The file extensions that mark a match as a static asset rather than an endpoint. */
  const Extensions: seq<string> := [".jpg", ".png", ".gif", ".css", ".woff", ".ttf", ".ico"]

  /** The false-positive filter: at least four bytes long and no asset extension. */
  predicate ValidUrl(url: string) {
    ByteLen(url) >= 4 && forall k :: 0 <= k < |Extensions| ==> !EndsWith(url, Extensions[k])
  }

  /** `is_valid_url`: the length test, then one early return per extension. */
  method IsValidUrl(url: string) returns (ok: bool)
    ensures ok <==> ValidUrl(url)
  {
    if ByteLen(url) < 4 {
      return false;
    }
    var i := 0;
    while i < |Extensions|
      invariant 0 <= i <= |Extensions|
      invariant forall k :: 0 <= k < i ==> !EndsWith(url, Extensions[k])
    {
      if EndsWith(url, Extensions[i]) {
        return false;
      }
      i := i + 1;
    }
    assert forall k :: 0 <= k < 7 ==> !EndsWith(url, Extensions[k]);
    return true;
  }

  /** ValidUrl spelled out: the explicit length test and the seven extensions. */
  lemma ValidUrlExplicit(url: string)
    ensures ValidUrl(url) <==> (ByteLen(url) >= 4 && !EndsWith(url, ".jpg") && !EndsWith(url, ".png")
      && !EndsWith(url, ".gif") && !EndsWith(url, ".css") && !EndsWith(url, ".woff")
      && !EndsWith(url, ".ttf") && !EndsWith(url, ".ico"))
  {
    assert |Extensions| == 7 && Extensions[0] == ".jpg" && Extensions[1] == ".png" && Extensions[2] == ".gif";
    assert Extensions[3] == ".css" && Extensions[4] == ".woff" && Extensions[5] == ".ttf" && Extensions[6] == ".ico";
  }

  /** A url `find_urls` may return: non-empty, no quote at either end, and valid. */
  predicate UrlShaped(u: string) {
    u != "" && !IsQuote(u[0]) && !IsQuote(u[|u| - 1]) && ValidUrl(u)
  }

  /** The url a match of the URL regex contributes, if any. */
  function UrlCandidate(m: Match): (r: Option<string>)
    ensures r.Some? ==> UrlShaped(r.value)
  {
    var u := TrimQuotes(m.text);
    if u != "" && ValidUrl(u) then Some(u) else None
  }

  /** The urls `find_urls` returns for the given matches: the candidates, sorted, adjacent duplicates removed. */
  function FoundUrls(ms: seq<Match>): seq<string> {
    DedupAdjacent(Sort(FilterMap(ms, UrlCandidate)))
  }

  /** `find_urls`: push every valid candidate, then sort and dedup. */
  method FindUrls(content: string, urlRegex: string -> seq<Match>) returns (urls: seq<string>)
    ensures urls == FoundUrls(urlRegex(content))
  {
    var ms := urlRegex(content);
    urls := [];
    var i := 0;
    while i < |ms|
      invariant 0 <= i <= |ms|
      invariant urls == FilterMap(ms[..i], UrlCandidate)
    {
      var u := TrimQuotes(ms[i].text);
      var ok := false;
      if u != "" {
        ok := IsValidUrl(u);
      }
      CandidateStep(ms, i, u, ok);
      if ok {
        urls := urls + [u];
      }
      i := i + 1;
    }
    assert ms[..i] == ms;
    urls := DedupAdjacent(Sort(urls));
  }

  /** One step of the loop of `find_urls`: the url is pushed exactly when it is the match's candidate. */
  lemma CandidateStep(ms: seq<Match>, i: nat, u: string, ok: bool)
    requires i < |ms| && u == TrimQuotes(ms[i].text) && (ok <==> u != "" && ValidUrl(u))
    ensures FilterMap(ms[..i + 1], UrlCandidate) == FilterMap(ms[..i], UrlCandidate) + (if ok then [u] else [])
  {
    FilterMapSnoc(ms, UrlCandidate, i);
  }

  /** A url is found exactly when some match yields it as a candidate. */
  lemma FoundUrlsMembers(ms: seq<Match>, u: string)
    ensures u in FoundUrls(ms) <==> exists i :: 0 <= i < |ms| && UrlCandidate(ms[i]) == Some(u)
  {
    SortDedupSpec(FilterMap(ms, UrlCandidate));
    FilterMapMembers(ms, UrlCandidate, u);
  }

  /** The urls found are strictly increasing, hence distinct, and each passed the filter. */
  lemma FoundUrlsProperties(ms: seq<Match>)
    ensures StrictlySorted(FoundUrls(ms))
    ensures forall k :: 0 <= k < |FoundUrls(ms)| ==> UrlShaped(FoundUrls(ms)[k])
  {
    SortDedupSpec(FilterMap(ms, UrlCandidate));
    var r := FoundUrls(ms);
    forall k | 0 <= k < |r| ensures UrlShaped(r[k]) {
      FoundUrlsMembers(ms, r[k]);
    }
  }

  /** The kind of an API match: GraphQL before WebSocket before REST; never Unknown. */
  function ClassifyApi(url: string): EndpointType {
    if Contains(url, "graphql") then GraphQL
    else if StartsWith(url, "ws") then WebSocket
    else Rest
  }

  /** The classification in both directions, and Unknown is never produced. */
  lemma ClassifyApiSpec(url: string)
    ensures ClassifyApi(url) != Unknown
    ensures ClassifyApi(url) == GraphQL <==> Contains(url, "graphql")
    ensures ClassifyApi(url) == WebSocket <==> !Contains(url, "graphql") && StartsWith(url, "ws")
    ensures ClassifyApi(url) == Rest <==> !Contains(url, "graphql") && !StartsWith(url, "ws")
  {
  }

  /** The alternatives of the HTTP-method regex, in its order. */
  const HttpMethods: seq<string> := ["GET", "POST", "PUT", "DELETE", "PATCH", "HEAD", "OPTIONS"]

  /** What may follow a method word: `\s*[,\(\s]` matches exactly when the next character is one of these. */
  predicate IsMethodEnd(c: char) {
    c == ',' || c == '(' || IsWhitespace(c)
  }

  /**
   * The upper case of a character as `(?i)` compares it with a method word and
   * `to_uppercase` writes it. Simple case folding, which `(?i)` uses, puts
   * `ſ` (U+017F) with `s` and `S`; the other letters of the seven words have
   * only their ASCII pair.
   */
  function FoldUpper(c: char): char {
    if c == '\U{17F}' then 'S' else UpperAscii(c)
  }

  /** `(?i)` equality of a text with a method word. */
  predicate EqualsFolded(t: string, w: string) {
    |t| == |w| && forall k :: 0 <= k < |t| ==> FoldUpper(t[k]) == FoldUpper(w[k])
  }

  /** `to_uppercase` of a matched method word. */
  function UpperMatched(t: string): (r: string)
    ensures |r| == |t| && forall k :: 0 <= k < |t| ==> r[k] == FoldUpper(t[k])
  {
    if |t| == 0 then "" else [FoldUpper(t[0])] + UpperMatched(t[1..])
  }

  /** The method word w, in any case, starts at i and is followed by a delimiter. */
  predicate WordAt(s: string, i: nat, w: string) {
    i + |w| < |s| && EqualsFolded(s[i..i + |w|], w) && IsMethodEnd(s[i + |w|])
  }

  predicate IsUpperWord(w: string) {
    forall k :: 0 <= k < |w| ==> 'A' <= w[k] <= 'Z'
  }

  lemma UppercaseOfMatch(t: string, w: string)
    requires IsUpperWord(w) && EqualsFolded(t, w)
    ensures UpperMatched(t) == w
  {
    assert forall k :: 0 <= k < |w| ==> FoldUpper(w[k]) == w[k];
  }

  lemma HttpMethodsUpper()
    ensures forall k :: 0 <= k < |HttpMethods| ==> IsUpperWord(HttpMethods[k])
  {
    assert IsUpperWord("GET") && IsUpperWord("POST") && IsUpperWord("PUT") && IsUpperWord("DELETE");
    assert IsUpperWord("PATCH") && IsUpperWord("HEAD") && IsUpperWord("OPTIONS");
  }

  /**
   * The upper-cased method word matched at position i, trying the
   * alternatives from k on in order: the first alternative that matches there.
   */
  function MethodAtFrom(s: string, i: nat, k: nat): (r: Option<string>)
    ensures r.Some? ==> r.value in HttpMethods && WordAt(s, i, r.value)
    decreases |HttpMethods| - k
  {
    if k >= |HttpMethods| then None
    else if WordAt(s, i, HttpMethods[k]) then
      HttpMethodsUpper();
      UppercaseOfMatch(s[i..i + |HttpMethods[k]|], HttpMethods[k]);
      Some(UpperMatched(s[i..i + |HttpMethods[k]|]))
    else MethodAtFrom(s, i, k + 1)
  }

  /** The alternative chosen is the first one, from k on, that matches at i. */
  lemma {:induction false} MethodAtFromFirst(s: string, i: nat, k: nat, j: nat)
    requires k <= j < |HttpMethods| && WordAt(s, i, HttpMethods[j])
    requires forall j' :: k <= j' < j ==> !WordAt(s, i, HttpMethods[j'])
    ensures MethodAtFrom(s, i, k) == Some(HttpMethods[j])
    decreases j - k
  {
    if k < j {
      MethodAtFromFirst(s, i, k + 1, j);
    } else {
      HttpMethodsUpper();
      UppercaseOfMatch(s[i..i + |HttpMethods[j]|], HttpMethods[j]);
    }
  }

  /** `(?i)` lets the long s stand for `s`: `poſt(` is a POST call. */
  lemma LongSMatchesPost()
    ensures MethodAt("po\U{17F}t(", 0) == Some("POST")
  {
    var s := "po\U{17F}t(";
    assert !WordAt(s, 0, HttpMethods[0]) by { assert FoldUpper(s[0]) != FoldUpper('G'); }
    assert WordAt(s, 0, HttpMethods[1]) by { assert s[0..4] == "po\U{17F}t"; }
    MethodAtFromFirst(s, 0, 0, 1);
  }

  function MethodAt(s: string, i: nat): Option<string> {
    MethodAtFrom(s, i, 0)
  }

  /** The leftmost match of the method regex at or after position i. */
  function MethodFrom(s: string, i: nat): (r: Option<string>)
    ensures r.Some? ==> r.value in HttpMethods
    decreases |s| - i
  {
    if i >= |s| then None
    else if MethodAt(s, i).Some? then MethodAt(s, i)
    else MethodFrom(s, i + 1)
  }

  /** A method word is recognised at i exactly when one of the alternatives matches there. */
  lemma {:induction false} MethodAtFromIff(s: string, i: nat, k: nat)
    ensures MethodAtFrom(s, i, k).None? <==> forall j :: k <= j < |HttpMethods| ==> !WordAt(s, i, HttpMethods[j])
    decreases |HttpMethods| - k
  {
    if k < |HttpMethods| {
      MethodAtFromIff(s, i, k + 1);
    }
  }

  /** The method regex finds nothing exactly when no position holds a method word. */
  lemma {:induction false} MethodFromNone(s: string, i: nat)
    ensures MethodFrom(s, i).None? <==> forall j :: i <= j < |s| ==> MethodAt(s, j).None?
    decreases |s| - i
  {
    if i < |s| {
      MethodFromNone(s, i + 1);
      if MethodFrom(s, i).None? {
        forall j | i <= j < |s| ensures MethodAt(s, j).None? {
          if j > i {
            assert i + 1 <= j < |s|;
          }
        }
      }
    }
  }

  /** When it finds one, it is the upper-cased word at the leftmost position holding one. */
  lemma {:induction false} MethodFromLeftmost(s: string, i: nat)
    requires MethodFrom(s, i).Some?
    ensures exists j :: (i <= j < |s| && MethodAt(s, j) == MethodFrom(s, i)
      && forall j' :: i <= j' < j ==> MethodAt(s, j').None?)
    decreases |s| - i
  {
    if MethodAt(s, i).None? {
      MethodFromLeftmost(s, i + 1);
      var j :| i + 1 <= j < |s| && MethodAt(s, j) == MethodFrom(s, i + 1)
        && forall j' :: i + 1 <= j' < j ==> MethodAt(s, j').None?;
      assert forall j' :: i <= j' < j ==> MethodAt(s, j').None?;
    } else {
      assert MethodAt(s, i) == MethodFrom(s, i);
    }
  }

  /** The window of `find_http_method_near`: 100 positions either side, clamped to the content. */
  function Window(len: nat, pos: nat): (w: (nat, nat))
    requires pos <= len
    ensures w.0 <= pos <= w.1 <= len
    ensures w.1 - w.0 <= 200
    ensures pos >= 100 ==> pos - w.0 == 100
    ensures pos + 100 <= len ==> w.1 - pos == 100
  {
    (if pos >= 100 then pos - 100 else 0, if pos + 100 <= len then pos + 100 else len)
  }

  /** `find_http_method_near`: the first method word in the window, upper-cased. */
  function FindHttpMethodNear(content: string, pos: nat): (r: Option<string>)
    requires pos <= |content|
    ensures r.Some? ==> r.value in HttpMethods
  {
    var w := Window(|content|, pos);
    MethodFrom(content[w.0..w.1], 0)
  }

  /** The endpoint one API match yields, written as one record; ApiEndpointBuilders shows it is the builder chain. */
  function ApiEndpoint(content: string, source: Option<string>, m: Match): Endpoint
    requires m.start <= |content|
  {
    var url := TrimQuotes(m.text);
    Endpoint(url, FindHttpMethodNear(content, m.start), ClassifyApi(url), source, None, None, None)
  }

  /** Each API endpoint carries the trimmed match, its classification and the given source, and nothing else. */
  lemma ApiEndpointShaped(content: string, source: Option<string>, m: Match)
    requires m.start <= |content|
    ensures ApiEndpoint(content, source, m).url == TrimQuotes(m.text)
    ensures ApiEndpoint(content, source, m).endpointType == ClassifyApi(TrimQuotes(m.text))
    ensures ApiShaped(ApiEndpoint(content, source, m), source)
  {
    ClassifyApiSpec(TrimQuotes(m.text));
  }

  /** `new(url, kind)`, then `with_method` if a method is near, then `with_source` if a source is given. */
  lemma ApiEndpointBuilders(content: string, source: Option<string>, m: Match)
    requires m.start <= |content|
    ensures var url := TrimQuotes(m.text);
      var e := New(url, ClassifyApi(url));
      var e := match FindHttpMethodNear(content, m.start)
        case Some(meth) => WithMethod(e, meth)
        case None => e;
      ApiEndpoint(content, source, m) == match source
        case Some(src) => WithSource(e, src)
        case None => e
  {
  }

  /** What every API endpoint looks like: a known kind, the given source, no params or line. */
  predicate ApiShaped(e: Endpoint, source: Option<string>) {
    e.endpointType != Unknown && e.source == source && e.params.None? && e.line.None?
    && e.metadata.None? && (e.httpMethod.Some? ==> e.httpMethod.value in HttpMethods)
  }

  /** One endpoint per match of one pattern, in match order. */
  function PatternEndpoints(content: string, source: Option<string>, ms: seq<Match>): (r: seq<Endpoint>)
    requires MatchesIn(ms, content)
    ensures |r| == |ms|
    ensures forall k :: 0 <= k < |ms| ==> r[k] == ApiEndpoint(content, source, ms[k])
  {
    if |ms| == 0 then []
    else
      PatternEndpoints(content, source, ms[..|ms| - 1]) + [ApiEndpoint(content, source, ms[|ms| - 1])]
  }

  /** The regexes are valid on this content: every match of every pattern lies in it. */
  predicate PatternsIn(patterns: seq<string -> seq<Match>>, content: string) {
    forall i :: 0 <= i < |patterns| ==> MatchesIn(patterns[i](content), content)
  }

  /** The endpoints of all patterns: those of each pattern in turn, in pattern-list order. */
  function ApiEndpoints(content: string, source: Option<string>, patterns: seq<string -> seq<Match>>): seq<Endpoint>
    requires PatternsIn(patterns, content)
  {
    if |patterns| == 0 then []
    else
      var p := patterns[..|patterns| - 1];
      assert forall i :: 0 <= i < |p| ==> p[i] == patterns[i];
      ApiEndpoints(content, source, p) + PatternEndpoints(content, source, patterns[|patterns| - 1](content))
  }

  lemma PatternStep(content: string, source: Option<string>, ms: seq<Match>, j: nat)
    requires MatchesIn(ms, content) && j < |ms|
    ensures MatchesIn(ms[..j], content) && MatchesIn(ms[..j + 1], content) && MatchIn(ms[j], content)
    ensures PatternEndpoints(content, source, ms[..j + 1])
      == PatternEndpoints(content, source, ms[..j]) + [ApiEndpoint(content, source, ms[j])]
  {
    assert ms[..j + 1][..j] == ms[..j];
  }

  lemma PatternsStep(content: string, source: Option<string>, patterns: seq<string -> seq<Match>>, i: nat)
    requires PatternsIn(patterns, content) && i < |patterns|
    ensures PatternsIn(patterns[..i], content) && PatternsIn(patterns[..i + 1], content)
    ensures MatchesIn(patterns[i](content), content)
    ensures ApiEndpoints(content, source, patterns[..i + 1])
      == ApiEndpoints(content, source, patterns[..i]) + PatternEndpoints(content, source, patterns[i](content))
  {
    assert patterns[..i + 1][..i] == patterns[..i];
  }

  /** The inner loop of `find_api_endpoints`: one endpoint per match of one pattern. */
  method MatchEndpoints(content: string, source: Option<string>, ms: seq<Match>)
    returns (endpoints: seq<Endpoint>)
    requires MatchesIn(ms, content)
    ensures endpoints == PatternEndpoints(content, source, ms)
  {
    endpoints := [];
    var j := 0;
    while j < |ms|
      invariant 0 <= j <= |ms|
      invariant MatchesIn(ms[..j], content)
      invariant endpoints == PatternEndpoints(content, source, ms[..j])
    {
      PatternStep(content, source, ms, j);
      endpoints := endpoints + [ApiEndpoint(content, source, ms[j])];
      j := j + 1;
    }
    assert ms[..j] == ms;
  }

  /** `find_api_endpoints`: for each pattern, for each match, push its endpoint. */
  method FindApiEndpoints(content: string, source: Option<string>, patterns: seq<string -> seq<Match>>)
    returns (endpoints: seq<Endpoint>)
    requires PatternsIn(patterns, content)
    ensures endpoints == ApiEndpoints(content, source, patterns)
  {
    endpoints := [];
    var i := 0;
    while i < |patterns|
      invariant 0 <= i <= |patterns|
      invariant PatternsIn(patterns[..i], content)
      invariant endpoints == ApiEndpoints(content, source, patterns[..i])
    {
      PatternsStep(content, source, patterns, i);
      var found := MatchEndpoints(content, source, patterns[i](content));
      endpoints := endpoints + found;
      i := i + 1;
    }
    assert patterns[..i] == patterns;
  }

  /** Empty content has no matches, so neither rule finds anything in it. */
  lemma {:induction false} EmptyContentFindsNothing(ms: seq<Match>, source: Option<string>, patterns: seq<string -> seq<Match>>)
    requires MatchesIn(ms, "") && PatternsIn(patterns, "")
    ensures FoundUrls(ms) == []
    ensures ApiEndpoints("", source, patterns) == []
    decreases |patterns|
  {
    if |patterns| > 0 {
      var p := patterns[..|patterns| - 1];
      assert forall i :: 0 <= i < |p| ==> p[i] == patterns[i];
      EmptyContentFindsNothing([], source, p);
      var last := patterns[|patterns| - 1]("");
      if |last| > 0 {
        assert MatchIn(last[0], "");
      }
    }
  }

  /** Every API endpoint has the shape the matcher gives it. */
  lemma {:induction false} ApiEndpointsShaped(content: string, source: Option<string>, patterns: seq<string -> seq<Match>>)
    requires PatternsIn(patterns, content)
    ensures forall k :: 0 <= k < |ApiEndpoints(content, source, patterns)| ==>
      ApiShaped(ApiEndpoints(content, source, patterns)[k], source)
  {
    if |patterns| > 0 {
      var p := patterns[..|patterns| - 1];
      assert forall i :: 0 <= i < |p| ==> p[i] == patterns[i];
      ApiEndpointsShaped(content, source, p);
      var ms := patterns[|patterns| - 1](content);
      var a := ApiEndpoints(content, source, p);
      var b := PatternEndpoints(content, source, ms);
      forall k | 0 <= k < |b| ensures ApiShaped(b[k], source) {
        assert MatchIn(ms[k], content);
        ApiEndpointShaped(content, source, ms[k]);
      }
      assert ApiEndpoints(content, source, patterns) == a + b;
    }
  }
}
