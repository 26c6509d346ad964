/**
 * The regex filter plugin of plugins/regex_filter.py: an endpoint is kept
 * when its url matches one of three fixed patterns, and the transform records
 * the first pattern that matches in the endpoint's metadata.
 */
module RegexFilterPlugin {
  import opened Wrappers
  import opened Strings
  import opened Types
  import opened Py
  import opened Plugins

  /** `API_PATTERNS`, as written in the module. */
  const ApiPatterns: seq<string> := ["/api/v\\d+/", "/graphql", "/rest/"]

  predicate IsDigit(c: char) {
    '0' <= c <= '9'
  }

  /** `\d+/` from position j: one or more digits, then a slash. */
  predicate DigitsSlash(s: string, j: nat)
    decreases |s| - j
  {
    j < |s| && IsDigit(s[j]) && ((j + 1 < |s| && s[j + 1] == '/') || DigitsSlash(s, j + 1))
  }

  /** Pattern k of `API_PATTERNS` matches s at position i. */
  predicate MatchAt(k: nat, s: string, i: nat)
    requires i <= |s|
  {
    if k == 0 then StartsWith(s[i..], "/api/v") && DigitsSlash(s, i + 6)
    else if k == 1 then StartsWith(s[i..], "/graphql")
    else StartsWith(s[i..], "/rest/")
  }

  /** A match of pattern k at position i or later. */
  predicate SearchFrom(k: nat, s: string, i: nat)
    decreases |s| - i
  {
    i <= |s| && (MatchAt(k, s, i) || SearchFrom(k, s, i + 1))
  }

  /** `COMPILED_PATTERNS[k].search(s)` succeeds. */
  predicate Search(k: nat, s: string) {
    SearchFrom(k, s, 0)
  }

  /** A search succeeds exactly when the pattern matches at some position. */
  lemma {:induction false} SearchFromIff(k: nat, s: string, i: nat)
    ensures SearchFrom(k, s, i) <==> exists j :: i <= j <= |s| && MatchAt(k, s, j)
    decreases |s| - i
  {
    if i <= |s| {
      SearchFromIff(k, s, i + 1);
    }
  }

  /** `/graphql` and `/rest/` are plain substring searches. */
  lemma SearchLiteral(k: nat, s: string)
    requires k == 1 || k == 2
    ensures Search(k, s) <==> Contains(s, ApiPatterns[k])
  {
    SearchFromIff(k, s, 0);
    ContainsIff(s, ApiPatterns[k]);
    if Search(k, s) {
      var j :| 0 <= j <= |s| && MatchAt(k, s, j);
      assert OccursAt(s, ApiPatterns[k], j) by {
        assert s[j..][..|ApiPatterns[k]|] == s[j..j + |ApiPatterns[k]|];
      }
    }
    if Contains(s, ApiPatterns[k]) {
      var j :| OccursAt(s, ApiPatterns[k], j);
      assert s[j..][..|ApiPatterns[k]|] == s[j..j + |ApiPatterns[k]|];
      assert MatchAt(k, s, j);
    }
  }

  /** The first pattern, from k on, that the url matches. */
  function FirstMatch(s: string, k: nat): (r: Option<nat>)
    ensures r.Some? ==> (k <= r.value < |ApiPatterns| && Search(r.value, s)
      && forall j :: k <= j < r.value ==> !Search(j, s))
    ensures r.None? ==> forall j :: k <= j < |ApiPatterns| ==> !Search(j, s)
    decreases |ApiPatterns| - k
  {
    if k >= |ApiPatterns| then None
    else if Search(k, s) then Some(k)
    else FirstMatch(s, k + 1)
  }

  /** `endpoint.get('url', '')` */
  function UrlOf(d: seq<(string, PyValue)>): PyValue {
    GetOr(d, "url", PyStr(""))
  }

  /** `filter_endpoint`: whether some pattern matches; searching a url that is not a str raises. */
  function Filter(d: seq<(string, PyValue)>): Result<bool, string> {
    var url := UrlOf(d);
    if !url.PyStr? then Err("TypeError") else Ok(FirstMatch(url.s, 0).Some?)
  }

  /**
   * The filter keeps exactly the urls that one of the patterns matches; a
   * missing url counts as the empty string, which none matches.
   */
  lemma FilterSpec(d: seq<(string, PyValue)>)
    ensures Filter(d).Err? <==> !UrlOf(d).PyStr?
    ensures Filter(d) == Ok(true) <==> UrlOf(d).PyStr? && exists k :: 0 <= k < |ApiPatterns| && Search(k, UrlOf(d).s)
    ensures Lookup(d, "url").None? ==> Filter(d) == Ok(false)
  {
    if UrlOf(d).PyStr? && exists k :: 0 <= k < |ApiPatterns| && Search(k, UrlOf(d).s) {
      var k :| 0 <= k < |ApiPatterns| && Search(k, UrlOf(d).s);
      assert FirstMatch(UrlOf(d).s, 0).Some?;
    }
    if Lookup(d, "url").None? {
      assert UrlOf(d) == PyStr("");
      NothingMatchesEmpty();
    }
  }

  lemma NothingMatchesEmpty()
    ensures forall k :: 0 <= k < |ApiPatterns| ==> !Search(k, "")
  {
    forall k | 0 <= k < |ApiPatterns| ensures !Search(k, "") {
      assert !SearchFrom(k, "", 1);
    }
  }

  /** What `transform_endpoint` returns or raises. */
  function Tagged(d: seq<(string, PyValue)>): Result<seq<(string, PyValue)>, string> {
    var url := UrlOf(d);
    if !url.PyStr? then Err("TypeError")
    else match FirstMatch(url.s, 0)
      case Some(k) => SetMetadata(d, "matched_pattern", PyStr(ApiPatterns[k]))
      case None => Ok(d)
  }

  /** `transform_endpoint`: the loop over the patterns that stops at the first match. */
  method TransformEndpoint(d: seq<(string, PyValue)>) returns (r: Result<seq<(string, PyValue)>, string>)
    ensures r == Tagged(d)
  {
    var url := UrlOf(d);
    if !url.PyStr? {
      return Err("TypeError");
    }
    var i := 0;
    while i < |ApiPatterns|
      invariant 0 <= i <= |ApiPatterns|
      invariant FirstMatch(url.s, 0) == FirstMatch(url.s, i)
    {
      if Search(i, url.s) {
        return SetMetadata(d, "matched_pattern", PyStr(ApiPatterns[i]));
      }
      i := i + 1;
    }
    return Ok(d);
  }

  /**
   * The transform sets `matched_pattern` to the text of the first pattern
   * that matches exactly when the filter keeps the endpoint, touches no other
   * key, and returns the endpoint as it was when no pattern matches.
   */
  lemma TaggedSpec(d: seq<(string, PyValue)>, other: string)
    ensures Filter(d) == Ok(false) ==> Tagged(d) == Ok(d)
    ensures Filter(d).Err? ==> Tagged(d).Err?
    ensures Filter(d) == Ok(true) && Tagged(d).Ok? ==>
      exists k :: 0 <= k < |ApiPatterns| && Search(k, UrlOf(d).s) && (forall j :: 0 <= j < k ==> !Search(j, UrlOf(d).s))
        && Lookup(Meta(Tagged(d).value), "matched_pattern") == Some(PyStr(ApiPatterns[k]))
    ensures Filter(d) == Ok(true) && other != "metadata" && Tagged(d).Ok? ==> Lookup(Tagged(d).value, other) == Lookup(d, other)
    ensures Filter(d) == Ok(true) ==> (Tagged(d).Err? <==> !GetOr(d, "metadata", PyDict([])).PyDict?)
  {
    if Filter(d) == Ok(true) {
      var k := FirstMatch(UrlOf(d).s, 0).value;
      var v := PyStr(ApiPatterns[k]);
      SetMetadataSpec(d, "matched_pattern", v, other);
      LookupSpec(d, "metadata");
      if Tagged(d).Ok? {
        var r := Tagged(d).value;
        assert Lookup(r, "metadata") == Some(PyDict(Py.Insert(Meta(d), "matched_pattern", v)));
        assert Meta(r) == Py.Insert(Meta(d), "matched_pattern", v);
      }
    }
  }

  /** `/api/v1/users` is kept, under the versioned pattern. */
  lemma ExampleVersioned()
    ensures Filter([("url", PyStr("/api/v1/users"))]) == Ok(true)
  {
    var s := "/api/v1/users";
    assert s[0..][..6] == "/api/v";
    assert DigitsSlash(s, 6);
    assert MatchAt(0, s, 0);
    assert Search(0, s);
  }

  /** `/graphql` is kept. */
  lemma ExampleGraphql()
    ensures Filter([("url", PyStr("/graphql"))]) == Ok(true)
  {
    var s := "/graphql";
    assert s[0..][..8] == "/graphql";
    assert MatchAt(1, s, 0);
    assert Search(1, s);
  }

  /**
   * Text with no `/` followed by one of the first letters of the patterns
   * (`a`, `g`, `r`) matches none of them.
   */
  lemma NoLead(s: string)
    requires forall i :: 0 <= i < |s| - 1 ==> s[i] == '/' ==> s[i + 1] != 'a' && s[i + 1] != 'g' && s[i + 1] != 'r'
    ensures forall k :: 0 <= k < |ApiPatterns| ==> !Search(k, s)
  {
    forall k | 0 <= k < |ApiPatterns| ensures !Search(k, s) {
      forall j | 0 <= j <= |s| ensures !MatchAt(k, s, j) {
        NoMatchAt(k, s, j);
      }
      SearchFromIff(k, s, 0);
    }
  }

  lemma NoMatchAt(k: nat, s: string, j: nat)
    requires j <= |s|
    requires j + 1 < |s| && s[j] == '/' ==> s[j + 1] != 'a' && s[j + 1] != 'g' && s[j + 1] != 'r'
    ensures !MatchAt(k, s, j)
  {
    if j + 1 < |s| {
      assert s[j..][0] == s[j] && s[j..][1] == s[j + 1];
    }
  }

  /** `/static/main.js` is dropped. */
  lemma ExampleStatic()
    ensures Filter([("url", PyStr("/static/main.js"))]) == Ok(false)
  {
    var s := "/static/main.js";
    assert forall i :: 0 <= i < |s| - 1 ==> s[i] == '/' ==> i == 0 || i == 7;
    NoLead(s);
    assert FirstMatch(s, 0).None?;
  }

  /** `/home` is dropped. */
  lemma ExampleHome()
    ensures Filter([("url", PyStr("/home"))]) == Ok(false)
  {
    var s := "/home";
    assert forall i :: 0 <= i < |s| - 1 ==> s[i] == '/' ==> i == 0;
    NoLead(s);
    assert FirstMatch(s, 0).None?;
  }

  /** `filter_endpoint` called on a value: `.get` on a non-dict raises. */
  function FilterCall(v: PyValue): Result<PyValue, string> {
    if !v.PyDict? then Err("AttributeError")
    else match Filter(v.entries)
      case Ok(b) => Ok(PyBool(b))
      case Err(e) => Err(e)
  }

  /** `transform_endpoint` called on a value. */
  function TransformCall(v: PyValue): Result<PyValue, string> {
    if !v.PyDict? then Err("AttributeError")
    else match Tagged(v.entries)
      case Ok(d) => Ok(PyDict(d))
      case Err(e) => Err(e)
  }

  /** The plugin as the host loads it. */
  function AsPlugin(): Plugin {
    Plugin(Some((v: PyValue) => FilterCall(v)), Some((v: PyValue) => TransformCall(v)))
  }

  /**
   * Run by the host, the plugin keeps exactly the endpoints whose url one of
   * the patterns matches, and its transform only drops the metadata.
   */
  lemma HostEffect(e: Endpoint)
    ensures Kept([AsPlugin()], e) <==> exists k :: 0 <= k < |ApiPatterns| && Search(k, e.url)
    ensures Step(AsPlugin(), e) == e.(metadata := None)
  {
    var d := EndpointToDict(e);
    EndpointDictLookups(e);
    FilterSpec(d);
    assert UrlOf(d) == PyStr(e.url);
    var p := AsPlugin();
    assert [p][0] == p;
    assert Kept([p], e) <==> Vote(p, e);
    assert Vote(p, e) <==> Filter(d) != Ok(false);
    assert KeysOf(d) == ["url", "method", "endpoint_type", "source", "line", "params"];
    LookupSpec(d, "metadata");
    TaggedSpec(d, "url");
    var r := Tagged(d);
    assert r.Ok?;
    forall k | k != "metadata" ensures Lookup(r.value, k) == Lookup(d, k) {
      TaggedSpec(d, k);
    }
    StepDropsMetadata(AsPlugin(), e, r.value);
  }
}
