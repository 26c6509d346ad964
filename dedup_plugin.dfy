/**
 * The url de-duplication plugin of plugins/dedup.py: a url normalised to
 * scheme, host, path without trailing slashes and the sorted query keys, its
 * fingerprint, first-wins de-duplication of endpoint dicts by fingerprint, and
 * the transform that records both in the endpoint's metadata.
 */
module DedupPlugin {
  import opened Wrappers
  import opened Strings
  import opened Sorting
  import opened Seqs
  import opened Types
  import opened Py
  import opened Plugins

  /** The fields of `urlparse` the plugin reads. */
  datatype ParsedUrl = ParsedUrl(scheme: string, netloc: string, path: string, query: string)

  /**
   * The library calls the plugin makes: `urlparse`, the keys of `parse_qs` in
   * the order the dict holds them, and the hex digest of `hashlib.md5` over
   * the UTF-8 encoding. A raised exception is an `Err` with its text.
   */
  datatype Lib = Lib(
    urlparse: string -> Result<ParsedUrl, string>,
    parseQsKeys: string -> Result<seq<string>, string>,
    md5Hex: string -> string)

  /** `[f"{key}=" for key in keys]` */
  function KeyParams(keys: seq<string>): (r: seq<string>)
    ensures |r| == |keys|
    ensures forall i :: 0 <= i < |keys| ==> r[i] == keys[i] + "="
  {
    if |keys| == 0 then [] else KeyParams(keys[..|keys| - 1]) + [keys[|keys| - 1] + "="]
  }

  /** The normalised query: the sorted keys, each followed by `=`, joined by `&`. */
  function NormalQuery(keys: seq<string>): string {
    Join(KeyParams(Sort(keys)), "&")
  }

  /** `normalize_url`; any exception on the way gives back the original url. */
  function NormalizeUrl(lib: Lib, url: string): string {
    match lib.urlparse(url)
    case Err(_) => url
    case Ok(p) =>
      var path := RStrip(p.path, '/');
      var query := if p.query != "" then (match lib.parseQsKeys(p.query) case Ok(keys) => Ok(NormalQuery(keys)) case Err(e) => Err(e)) else Ok("");
      match query
      case Err(_) => url
      case Ok(q) =>
        var base := if p.scheme != "" && p.netloc != "" then p.scheme + "://" + p.netloc + path else path;
        if q != "" then base + "?" + q else base
  }

  /** `url_fingerprint` */
  function UrlFingerprint(lib: Lib, url: string): string {
    lib.md5Hex(NormalizeUrl(lib, url))
  }

  /** Stripping a run of slashes after the path strips them all. */
  lemma {:induction false} RStripSlashes(s: string, t: string)
    requires forall i :: 0 <= i < |t| ==> t[i] == '/'
    ensures RStrip(s + t, '/') == RStrip(s, '/')
    decreases |t|
  {
    if |t| == 0 {
      assert s + t == s;
    } else {
      var u := t[..|t| - 1];
      assert (s + t)[..|s + t| - 1] == s + u;
      assert (s + t)[|s + t| - 1] == '/';
      assert RStrip(s + t, '/') == RStrip(s + u, '/');
      RStripSlashes(s, u);
    }
  }

  /**
   * Urls that parse alike but for slashes at the end of the path normalise
   * alike (unless `parse_qs` raises, when each gives back itself).
   */
  lemma TrailingSlashes(lib: Lib, a: string, b: string, t: string)
    requires forall i :: 0 <= i < |t| ==> t[i] == '/'
    requires lib.urlparse(a).Ok? && lib.urlparse(b) == Ok(lib.urlparse(a).value.(path := lib.urlparse(a).value.path + t))
    requires lib.urlparse(a).value.query == "" || lib.parseQsKeys(lib.urlparse(a).value.query).Ok?
    ensures NormalizeUrl(lib, a) == NormalizeUrl(lib, b)
  {
    var p := lib.urlparse(a).value;
    RStripSlashes(p.path, t);
    assert RStrip(lib.urlparse(b).value.path, '/') == RStrip(p.path, '/');
  }

  /**
   * Urls that parse alike but for a non-empty query whose keys are the same
   * multiset normalise alike: parameter values and order do not matter.
   */
  lemma QueryKeysOnly(lib: Lib, a: string, b: string, q: string, ka: seq<string>, kb: seq<string>)
    requires lib.urlparse(a).Ok? && lib.urlparse(a).value.query != "" && q != ""
    requires lib.urlparse(b) == Ok(lib.urlparse(a).value.(query := q))
    requires lib.parseQsKeys(lib.urlparse(a).value.query) == Ok(ka) && lib.parseQsKeys(q) == Ok(kb)
    requires multiset(ka) == multiset(kb)
    ensures NormalizeUrl(lib, a) == NormalizeUrl(lib, b)
  {
    SortPermutationInvariant(ka, kb);
  }

  /** The normalised query lists the keys in sorted order, each followed by `=`. */
  lemma NormalQuerySorted(keys: seq<string>)
    ensures var ps := KeyParams(Sort(keys));
      Sorted(Sort(keys)) && multiset(Sort(keys)) == multiset(keys)
      && |ps| == |keys| && (forall i :: 0 <= i < |ps| ==> ps[i] == Sort(keys)[i] + "=")
      && NormalQuery(keys) == Join(ps, "&")
  {
    SortSorted(keys);
  }

  /**
   * Scheme and host survive only together: when both are there the result
   * starts with `scheme://host`, and when one is missing the result is the
   * stripped path with the query, if any, after it.
   */
  lemma NormalizeShape(lib: Lib, url: string)
    requires lib.urlparse(url).Ok?
    requires var p := lib.urlparse(url).value; p.query == "" || lib.parseQsKeys(p.query).Ok?
    ensures var p := lib.urlparse(url).value;
      var q := if p.query == "" then "" else NormalQuery(lib.parseQsKeys(p.query).value);
      var tail := RStrip(p.path, '/') + (if q != "" then "?" + q else "");
      (p.scheme != "" && p.netloc != "" ==> NormalizeUrl(lib, url) == p.scheme + "://" + p.netloc + tail)
      && (p.scheme == "" || p.netloc == "" ==> NormalizeUrl(lib, url) == tail)
  {
    var p := lib.urlparse(url).value;
    var path := RStrip(p.path, '/');
    var q := if p.query == "" then "" else NormalQuery(lib.parseQsKeys(p.query).value);
    if q != "" {
      assert p.scheme + "://" + p.netloc + path + "?" + q == p.scheme + "://" + p.netloc + (path + ("?" + q));
      assert path + "?" + q == path + ("?" + q);
    }
  }

  /** An exception in `urlparse` or `parse_qs` gives back the input. */
  lemma NormalizeFails(lib: Lib, url: string)
    requires lib.urlparse(url).Err?
      || (lib.urlparse(url).value.query != "" && lib.parseQsKeys(lib.urlparse(url).value.query).Err?)
    ensures NormalizeUrl(lib, url) == url
  {
  }

  /** `endpoint.get('url', '')` when it is a str; a non-dict or a non-str url makes `url_fingerprint` raise. */
  function UrlText(ep: PyValue): Option<string> {
    if ep.PyDict? && GetOr(ep.entries, "url", PyStr("")).PyStr? then Some(GetOr(ep.entries, "url", PyStr("")).s) else None
  }

  /** The fingerprint of an endpoint dict, the key `deduplicate_endpoints` remembers. */
  function Fingerprint(lib: Lib): PyValue -> string {
    ep => UrlFingerprint(lib, match UrlText(ep) case Some(u) => u case None => "")
  }

  /** Every endpoint has a str url, so nothing raises. */
  predicate AllUrls(endpoints: seq<PyValue>) {
    forall i :: 0 <= i < |endpoints| ==> UrlText(endpoints[i]).Some?
  }

  /** What `deduplicate_endpoints` returns or raises. */
  function Deduplicated(lib: Lib, endpoints: seq<PyValue>): Result<seq<PyValue>, string> {
    if AllUrls(endpoints) then Ok(DedupBy(endpoints, Fingerprint(lib))) else Err("AttributeError")
  }

  /** `deduplicate_endpoints` */
  method DeduplicateEndpoints(lib: Lib, endpoints: seq<PyValue>) returns (r: Result<seq<PyValue>, string>)
    ensures r == Deduplicated(lib, endpoints)
  {
    var seen: set<string> := {};
    var unique: seq<PyValue> := [];
    var i := 0;
    while i < |endpoints|
      invariant 0 <= i <= |endpoints|
      invariant AllUrls(endpoints[..i])
      invariant seen == Keys(endpoints[..i], Fingerprint(lib))
      invariant unique == DedupBy(endpoints[..i], Fingerprint(lib))
    {
      var url := UrlText(endpoints[i]);
      if url.None? {
        assert !AllUrls(endpoints) by {
          assert UrlText(endpoints[i]).None?;
        }
        return Err("AttributeError");
      }
      var fingerprint := UrlFingerprint(lib, url.value);
      DedupStep(lib, endpoints, i);
      if fingerprint !in seen {
        seen := seen + {fingerprint};
        unique := unique + [endpoints[i]];
      }
      i := i + 1;
    }
    assert endpoints[..i] == endpoints;
    return Ok(unique);
  }

  /** One turn of the loop of `deduplicate_endpoints`. */
  lemma DedupStep(lib: Lib, endpoints: seq<PyValue>, i: nat)
    requires i < |endpoints| && AllUrls(endpoints[..i]) && UrlText(endpoints[i]).Some?
    ensures AllUrls(endpoints[..i + 1])
    ensures var f := UrlFingerprint(lib, UrlText(endpoints[i]).value);
      var seen := Keys(endpoints[..i], Fingerprint(lib));
      Keys(endpoints[..i + 1], Fingerprint(lib)) == seen + {f}
      && DedupBy(endpoints[..i + 1], Fingerprint(lib))
        == DedupBy(endpoints[..i], Fingerprint(lib)) + (if f in seen then [] else [endpoints[i]])
  {
    var key := Fingerprint(lib);
    var p, x := endpoints[..i], endpoints[i];
    assert endpoints[..i + 1] == p + [x];
    assert key(x) == UrlFingerprint(lib, UrlText(x).value);
    DedupSnoc(endpoints, key, i);
    KeysAppend(p, x, key);
    AllUrlsSnoc(p, x);
  }

  lemma AllUrlsSnoc(s: seq<PyValue>, x: PyValue)
    requires AllUrls(s) && UrlText(x).Some?
    ensures AllUrls(s + [x])
  {
    assert forall k :: 0 <= k < |s| ==> (s + [x])[k] == s[k];
  }

  /**
   * Without exceptions the endpoints kept are in input order, no two share a
   * fingerprint, every fingerprint of the input survives, and each is carried
   * by the first endpoint that had it; a non-str url raises.
   */
  lemma DeduplicatedSpec(lib: Lib, endpoints: seq<PyValue>)
    ensures Deduplicated(lib, endpoints).Err? <==> exists i :: 0 <= i < |endpoints| && UrlText(endpoints[i]).None?
    ensures Deduplicated(lib, endpoints).Ok? ==> var r := Deduplicated(lib, endpoints).value;
      IsSubsequence(r, endpoints)
      && DistinctKeys(r, Fingerprint(lib))
      && Keys(r, Fingerprint(lib)) == Keys(endpoints, Fingerprint(lib))
      && (forall i :: 0 <= i < |r| ==> r[i] == FirstWithKey(endpoints, Fingerprint(lib), Fingerprint(lib)(r[i])))
  {
    DedupSubsequence(endpoints, Fingerprint(lib));
    DedupDistinct(endpoints, Fingerprint(lib));
    DedupKeys(endpoints, Fingerprint(lib));
    DedupKeepsFirst(endpoints, Fingerprint(lib));
  }

  /** How Python splits the three urls of the example, and the two normalised urls hashing apart. */
  ghost predicate ExampleLib(lib: Lib) {
    lib.urlparse("/api/users?id=1") == Ok(ParsedUrl("", "", "/api/users", "id=1"))
    && lib.urlparse("/api/users?id=2") == Ok(ParsedUrl("", "", "/api/users", "id=2"))
    && lib.urlparse("/api/posts") == Ok(ParsedUrl("", "", "/api/posts", ""))
    && lib.parseQsKeys("id=1") == Ok(["id"]) && lib.parseQsKeys("id=2") == Ok(["id"])
    && lib.md5Hex("/api/users?id=") != lib.md5Hex("/api/posts")
  }

  /** The query of one key. */
  lemma NormalQueryOne(k: string)
    ensures NormalQuery([k]) == k + "="
  {
    assert [k][..0] == [];
    assert Sort([k]) == Sorting.Insert([], k) == [k];
    assert KeyParams([k]) == [k + "="];
  }

  lemma ExampleNormalUsers(lib: Lib)
    requires ExampleLib(lib)
    ensures NormalizeUrl(lib, "/api/users?id=1") == "/api/users?id="
  {
    NormalQueryOne("id");
    assert RStrip("/api/users", '/') == "/api/users";
    assert "/api/users" + "?" + ("id" + "=") == "/api/users?id=";
  }

  lemma ExampleNormalPosts(lib: Lib)
    requires ExampleLib(lib)
    ensures NormalizeUrl(lib, "/api/posts") == "/api/posts"
  {
    assert RStrip("/api/posts", '/') == "/api/posts";
  }

  /** The fingerprints of the example: the two user urls share one, the posts url has another. */
  lemma ExampleFingerprints(lib: Lib, eps: seq<PyValue>)
    requires ExampleLib(lib)
    requires eps == [PyDict([("url", PyStr("/api/users?id=1"))]), PyDict([("url", PyStr("/api/users?id=2"))]),
      PyDict([("url", PyStr("/api/posts"))])]
    ensures AllUrls(eps)
    ensures Fingerprint(lib)(eps[1]) == Fingerprint(lib)(eps[0]) && Fingerprint(lib)(eps[2]) != Fingerprint(lib)(eps[0])
  {
    QueryKeysOnly(lib, "/api/users?id=1", "/api/users?id=2", "id=2", ["id"], ["id"]);
    ExampleNormalUsers(lib);
    ExampleNormalPosts(lib);
    assert UrlText(eps[0]) == Some("/api/users?id=1");
    assert UrlText(eps[1]) == Some("/api/users?id=2");
    assert UrlText(eps[2]) == Some("/api/posts");
  }

  /** First-wins de-duplication of three elements whose first two share a key. */
  lemma DedupThree<T>(s: seq<T>, key: T -> string)
    requires |s| == 3 && key(s[1]) == key(s[0]) && key(s[2]) != key(s[0])
    ensures DedupBy(s, key) == [s[0], s[2]]
  {
    DedupSnoc(s, key, 0);
    assert s[..0] == [];
    assert DedupBy(s[..1], key) == [s[0]];
    DedupSnoc(s, key, 1);
    assert key(s[1]) in Keys([s[0]], key);
    assert DedupBy(s[..2], key) == [s[0]];
    DedupSnoc(s, key, 2);
    assert Keys([s[0]], key) == {key(s[0])};
    assert s[..3] == s;
  }

  /**
   * The example at the end of the module: `/api/users?id=1`, `/api/users?id=2`
   * and `/api/posts` give two endpoints, the first and the third.
   */
  lemma DedupExample(lib: Lib, eps: seq<PyValue>)
    requires ExampleLib(lib)
    requires eps == [PyDict([("url", PyStr("/api/users?id=1"))]), PyDict([("url", PyStr("/api/users?id=2"))]),
      PyDict([("url", PyStr("/api/posts"))])]
    ensures Deduplicated(lib, eps) == Ok([eps[0], eps[2]])
  {
    ExampleFingerprints(lib, eps);
    DedupThree(eps, Fingerprint(lib));
  }

  /** `transform_endpoint`: the normalised url, then the fingerprint, into metadata. */
  function Transform(lib: Lib, d: seq<(string, PyValue)>): Result<seq<(string, PyValue)>, string> {
    var url := GetOr(d, "url", PyStr(""));
    if !url.PyStr? then Err("AttributeError")
    else match SetMetadata(d, "normalized_url", PyStr(NormalizeUrl(lib, url.s)))
      case Err(e) => Err(e)
      case Ok(d1) => SetMetadata(d1, "url_fingerprint", PyStr(UrlFingerprint(lib, url.s)))
  }

  /**
   * The transform adds `normalized_url` and `url_fingerprint` to metadata and
   * changes no other key and no other metadata entry; it raises only for a url
   * that is not a str or a metadata value that is not a dict.
   */
  lemma TransformSpec(lib: Lib, d: seq<(string, PyValue)>, other: string)
    ensures Transform(lib, d).Err? <==> !GetOr(d, "url", PyStr("")).PyStr? || !GetOr(d, "metadata", PyDict([])).PyDict?
    ensures Transform(lib, d).Ok? ==> var u := GetOr(d, "url", PyStr("")).s; var r := Transform(lib, d).value;
      Lookup(Meta(r), "normalized_url") == Some(PyStr(NormalizeUrl(lib, u)))
      && Lookup(Meta(r), "url_fingerprint") == Some(PyStr(UrlFingerprint(lib, u)))
      && (other != "normalized_url" && other != "url_fingerprint" ==> Lookup(Meta(r), other) == Lookup(Meta(d), other))
      && (other != "metadata" ==> Lookup(r, other) == Lookup(d, other))
  {
    var url := GetOr(d, "url", PyStr(""));
    LookupSpec(d, "metadata");
    if url.PyStr? {
      var v1 := PyStr(NormalizeUrl(lib, url.s));
      var v2 := PyStr(UrlFingerprint(lib, url.s));
      SetMetadataSpec(d, "normalized_url", v1, other);
      if SetMetadata(d, "normalized_url", v1).Ok? {
        var d1 := SetMetadata(d, "normalized_url", v1).value;
        SetMetadataSpec(d1, "url_fingerprint", v2, other);
        SetMetadataSpec(d1, "url_fingerprint", v2, "normalized_url");
        KeysDiffer();
        var r := SetMetadata(d1, "url_fingerprint", v2).value;
        assert Meta(d1) == Py.Insert(Meta(d), "normalized_url", v1);
        assert Meta(r) == Py.Insert(Meta(d1), "url_fingerprint", v2);
      }
    }
  }

  lemma KeysDiffer()
    ensures "normalized_url" != "url_fingerprint"
  {
    assert "normalized_url"[0] != "url_fingerprint"[0];
  }

  /** The plugin as the host loads it: no filter, and the transform on dicts. */
  function AsPlugin(lib: Lib): Plugin {
    Plugin(None, Some((v: PyValue) => OnDict(lib, v)))
  }

  /** The transform called on a value: `.get` on a non-dict raises. */
  function OnDict(lib: Lib, v: PyValue): Result<PyValue, string> {
    if !v.PyDict? then Err("AttributeError")
    else match Transform(lib, v.entries)
      case Ok(d) => Ok(PyDict(d))
      case Err(e) => Err(e)
  }

  /** Run by the host, the plugin keeps every endpoint, and its metadata is dropped on the way back. */
  lemma HostEffect(lib: Lib, e: Endpoint)
    ensures Kept([AsPlugin(lib)], e)
    ensures Step(AsPlugin(lib), e) == e.(metadata := None)
  {
    var d := EndpointToDict(e);
    EndpointDictLookups(e);
    assert KeysOf(d) == ["url", "method", "endpoint_type", "source", "line", "params"];
    assert !HasKey(d, "metadata");
    LookupSpec(d, "metadata");
    assert Lookup(d, "metadata").None?;
    assert Vote(AsPlugin(lib), e);
    var r := Transform(lib, d);
    TransformSpec(lib, d, "url");
    forall k | k != "metadata" ensures Lookup(r.value, k) == Lookup(d, k) {
      TransformSpec(lib, d, k);
    }
    StepDropsMetadata(AsPlugin(lib), e, r.value);
  }
}
