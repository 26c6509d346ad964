/**
 * The sourcemap extractor plugin of plugins/sourcemap_extractor.py: the url
 * of a `sourceMappingURL` comment, the JSON parse of a sourcemap, the
 * transform that marks endpoints found in minified or bundled scripts, and
 * `parse_custom`, which turns the `sources` of a `.map` file into endpoints.
 */
module SourcemapPlugin {
  import opened Wrappers
  import opened Strings
  import opened Types
  import opened Py
  import opened Plugins

  /** The two comment forms, in the order they are tried. */
  const SourcemapPatterns: seq<string> := ["//# sourceMappingURL=(.+)$", "/\\*# sourceMappingURL=(.+)\\*/"]

  /** `re.search(pattern, content, re.MULTILINE)`: group 1 of the first match, if there is one. */
  type Search = (string, string) -> Option<string>

  /** The stripped capture of the first pattern, from k on, that matches. */
  function FirstCapture(search: Search, content: string, k: nat): Option<string>
    decreases |SourcemapPatterns| - k
  {
    if k >= |SourcemapPatterns| then None
    else match search(SourcemapPatterns[k], content)
      case Some(g) => Some(PyStrip(g))
      case None => FirstCapture(search, content, k + 1)
  }

  /** `extract_sourcemap_url` */
  function ExtractSourcemapUrl(search: Search, content: string): Option<string> {
    FirstCapture(search, content, 0)
  }

  /**
   * The `//#` form wins over the `/*# */` form; the url is the capture without
   * surrounding whitespace, and there is none exactly when neither form matches.
   */
  lemma ExtractSourcemapUrlSpec(search: Search, content: string)
    ensures var r := ExtractSourcemapUrl(search, content);
      && (r.None? <==> search(SourcemapPatterns[0], content).None? && search(SourcemapPatterns[1], content).None?)
      && (search(SourcemapPatterns[0], content).Some? ==> r == Some(PyStrip(search(SourcemapPatterns[0], content).value)))
      && (search(SourcemapPatterns[0], content).None? && search(SourcemapPatterns[1], content).Some? ==>
            r == Some(PyStrip(search(SourcemapPatterns[1], content).value)))
      && (r.Some? && |r.value| > 0 ==> !IsPySpace(r.value[0]) && !IsPySpace(r.value[|r.value| - 1]))
  {
    var r := ExtractSourcemapUrl(search, content);
    if r.Some? {
      if search(SourcemapPatterns[0], content).Some? {
        assert r.value == TrimBy(search(SourcemapPatterns[0], content).value, IsPySpace);
      } else {
        assert r.value == TrimBy(search(SourcemapPatterns[1], content).value, IsPySpace);
      }
    }
  }

  /** How `json.loads` can fail: a `JSONDecodeError`, or any other exception. */
  datatype JsonFailure = DecodeError | OtherError(message: string)

  /** `json.loads` */
  type Loads = string -> Result<PyValue, JsonFailure>

  /** `parse_sourcemap`: the parsed value, None on malformed JSON; other exceptions propagate. */
  function ParseSourcemap(loads: Loads, content: string): Result<PyValue, string> {
    match loads(content)
    case Ok(v) => Ok(v)
    case Err(DecodeError) => Ok(PyNone)
    case Err(OtherError(m)) => Err(m)
  }

  /**
   * Malformed JSON reads as None, as does the document `null`; a parse that
   * succeeds is returned as it is, and only a failure other than a decode
   * error escapes.
   */
  lemma ParseSourcemapSpec(loads: Loads, content: string)
    ensures ParseSourcemap(loads, content) == Ok(PyNone) <==> loads(content) in {Err(DecodeError), Ok(PyNone)}
    ensures ParseSourcemap(loads, content).Err? <==> loads(content).Err? && loads(content).error.OtherError?
    ensures loads(content).Ok? ==> ParseSourcemap(loads, content) == Ok(loads(content).value)
  {
  }

  /** The marking of an endpoint whose script is `source`, when the script is minified or bundled. */
  function TagSource(d: seq<(string, PyValue)>, source: string): Result<seq<(string, PyValue)>, string> {
    if EndsWith(source, ".min.js") || EndsWith(source, ".bundle.js") then
      match SetMetadata(d, "likely_has_sourcemap", PyBool(true))
      case Err(e) => Err(e)
      case Ok(d1) => SetMetadata(d1, "original_source", PyStr(source))
    else Ok(d)
  }

  /**
   * A minified or bundled source gets `likely_has_sourcemap` True and
   * `original_source` in its metadata, with every other metadata entry and
   * every other key kept, unless metadata is there and is not a dict; any
   * other source leaves the endpoint as it was.
   */
  lemma TagSourceSpec(d: seq<(string, PyValue)>, source: string, other: string)
    ensures !(EndsWith(source, ".min.js") || EndsWith(source, ".bundle.js")) ==> TagSource(d, source) == Ok(d)
    ensures EndsWith(source, ".min.js") || EndsWith(source, ".bundle.js") ==>
      (TagSource(d, source).Err? <==> Lookup(d, "metadata").Some? && !Lookup(d, "metadata").value.PyDict?)
    ensures (EndsWith(source, ".min.js") || EndsWith(source, ".bundle.js")) && TagSource(d, source).Ok? ==>
      var m := Meta(TagSource(d, source).value);
      && Lookup(m, "likely_has_sourcemap") == Some(PyBool(true))
      && Lookup(m, "original_source") == Some(PyStr(source))
      && (other != "likely_has_sourcemap" && other != "original_source" ==> Lookup(m, other) == Lookup(Meta(d), other))
    ensures other != "metadata" && TagSource(d, source).Ok? ==> Lookup(TagSource(d, source).value, other) == Lookup(d, other)
  {
    if EndsWith(source, ".min.js") || EndsWith(source, ".bundle.js") {
      SetMetadataSpec(d, "likely_has_sourcemap", PyBool(true), other);
      var r1 := SetMetadata(d, "likely_has_sourcemap", PyBool(true));
      if r1.Ok? {
        var d1 := r1.value;
        var m1 := Py.Insert(Meta(d), "likely_has_sourcemap", PyBool(true));
        assert Meta(d1) == m1;
        SetMetadataSpec(d1, "original_source", PyStr(source), other);
        SetMetadataSpec(d1, "original_source", PyStr(source), "likely_has_sourcemap");
        SetMetadataSpec(d, "likely_has_sourcemap", PyBool(true), "original_source");
        var r2 := SetMetadata(d1, "original_source", PyStr(source));
        assert r2.Ok?;
        assert Meta(r2.value) == Py.Insert(m1, "original_source", PyStr(source));
      }
    }
  }

  /** `transform_endpoint` as written: `endpoint.get('source', '')`, then `.endswith` on what it gives. */
  function TransformAsWritten(d: seq<(string, PyValue)>): Result<seq<(string, PyValue)>, string> {
    var source := GetOr(d, "source", PyStr(""));
    if !source.PyStr? then Err("AttributeError") else TagSource(d, source.s)
  }

  /**
   * The host passes `source` as None for every endpoint without one, and
   * `None.endswith` raises: as written, the transform fails on all of them.
   */
  lemma SourceMissingRaises(e: Endpoint)
    requires e.source.None?
    ensures TransformAsWritten(EndpointToDict(e)) == Err("AttributeError")
  {
    EndpointDictLookups(e);
  }

  /** `transform_endpoint` with a missing or None source read as the empty string (`endpoint.get('source') or ''`). */
  function Transform(d: seq<(string, PyValue)>): Result<seq<(string, PyValue)>, string> {
    var source := GetOr(d, "source", PyNone);
    if !Truthy(source) then Ok(d)
    else if !source.PyStr? then Err("AttributeError")
    else TagSource(d, source.s)
  }

  /**
   * The corrected transform leaves an endpoint with no source, or a None one,
   * as it was, agrees with the one as written wherever that one succeeds, and
   * marks a str source like it.
   */
  lemma TransformSpec(d: seq<(string, PyValue)>)
    ensures Lookup(d, "source") in {None, Some(PyNone)} ==> Transform(d) == Ok(d)
    ensures TransformAsWritten(d).Ok? ==> Transform(d) == TransformAsWritten(d)
    ensures Lookup(d, "source").Some? && Lookup(d, "source").value.PyStr? ==>
      Transform(d) == TagSource(d, Lookup(d, "source").value.s)
  {
    var source := GetOr(d, "source", PyNone);
    if Lookup(d, "source") == Some(PyStr("")) {
      assert !EndsWith("", ".min.js") && !EndsWith("", ".bundle.js");
    }
    if Lookup(d, "source").None? {
      assert !EndsWith("", ".min.js") && !EndsWith("", ".bundle.js");
    }
  }

  /** The example of the module: `app.min.js` is marked. */
  lemma ExampleMinified()
    ensures var d := [("url", PyStr("/api/users")), ("source", PyStr("app.min.js"))];
      Transform(d) == Ok(d + [("metadata", PyDict([("likely_has_sourcemap", PyBool(true)), ("original_source", PyStr("app.min.js"))]))])
  {
    var s := "app.min.js";
    var d := [("url", PyStr("/api/users")), ("source", PyStr(s))];
    assert s[|s| - |".min.js"|..] == ".min.js";
    assert EndsWith(s, ".min.js");
    assert Lookup(d, "source") == Some(PyStr(s));
    LookupSpec(d, "metadata");
    assert KeysOf(d) == ["url", "source"];
    assert Meta(d) == [];
    var m1 := [("likely_has_sourcemap", PyBool(true))];
    var m2 := m1 + [("original_source", PyStr(s))];
    InsertLast(d, "metadata", PyDict(m1), PyDict(m2));
    var d1 := d + [("metadata", PyDict(m1))];
    LookupInsert(d, "metadata", PyDict(m1), "metadata");
    assert Meta(d1) == m1;
    assert KeysOf(m1) == ["likely_has_sourcemap"];
    InsertLast(m1, "original_source", PyStr(s), PyStr(s));
    assert SetMetadata(d, "likely_has_sourcemap", PyBool(true)) == Ok(d1);
    assert SetMetadata(d1, "original_source", PyStr(s)) == Ok(d + [("metadata", PyDict(m2))]);
    assert TagSource(d, s) == SetMetadata(d1, "original_source", PyStr(s));
    assert Transform(d) == TagSource(d, s);
    assert m2 == [("likely_has_sourcemap", PyBool(true)), ("original_source", PyStr(s))];
  }

  /** `transform_endpoint` called on a value: `.get` on a non-dict raises. */
  function TransformCall(v: PyValue): Result<PyValue, string> {
    if !v.PyDict? then Err("AttributeError")
    else match Transform(v.entries)
      case Ok(d) => Ok(PyDict(d))
      case Err(e) => Err(e)
  }

  function TransformAsWrittenCall(v: PyValue): Result<PyValue, string> {
    if !v.PyDict? then Err("AttributeError")
    else match TransformAsWritten(v.entries)
      case Ok(d) => Ok(PyDict(d))
      case Err(e) => Err(e)
  }

  /** The plugin as the host loads it: it has no `filter_endpoint`. */
  function AsPlugin(): Plugin {
    Plugin(None, Some((v: PyValue) => TransformCall(v)))
  }

  function AsWrittenPlugin(): Plugin {
    Plugin(None, Some((v: PyValue) => TransformAsWrittenCall(v)))
  }

  /** As written, the host logs the exception and keeps endpoints without a source as they were. */
  lemma HostAsWritten(e: Endpoint)
    requires e.source.None?
    ensures Step(AsWrittenPlugin(), e) == e
  {
    SourceMissingRaises(e);
  }

  /**
   * Run by the host, the corrected plugin keeps every endpoint, and its
   * transform only drops the metadata, which `dict_to_endpoint` does not read.
   */
  lemma HostEffect(e: Endpoint)
    ensures Kept([AsPlugin()], e)
    ensures Step(AsPlugin(), e) == e.(metadata := None)
  {
    var d := EndpointToDict(e);
    EndpointDictLookups(e);
    assert KeysOf(d) == ["url", "method", "endpoint_type", "source", "line", "params"];
    LookupSpec(d, "metadata");
    var p := AsPlugin();
    assert [p][0] == p;
    assert Vote(p, e);
    TransformSpec(d);
    var r := Transform(d);
    if e.source.Some? {
      TagSourceSpec(d, e.source.value, "url");
    }
    assert r.Ok?;
    forall k | k != "metadata" ensures Lookup(r.value, k) == Lookup(d, k) {
      if e.source.Some? {
        TagSourceSpec(d, e.source.value, k);
      }
    }
    StepDropsMetadata(p, e, r.value);
  }

  /** The values `for original_source in sourcemap['sources']` walks, or none when the guard fails. */
  function Sources(loads: Loads, content: string): Result<seq<PyValue>, string> {
    match ParseSourcemap(loads, content)
    case Err(m) => Err(m)
    case Ok(sm) =>
      if !Truthy(sm) then Ok([])
      else match StrIn("sources", sm)
        case Err(m) => Err(m)
        case Ok(false) => Ok([])
        case Ok(true) =>
          match StrItem(sm, "sources")
          case Err(m) => Err(m)
          case Ok(v) => Iterate(v)
  }

  /** The endpoint dict built for one entry of `sources`. */
  function EntryEndpoint(x: PyValue, source: string): PyValue {
    PyDict([("url", x), ("endpoint_type", PyStr("unknown")), ("source", PyStr(source)),
            ("metadata", PyDict([("from_sourcemap", PyBool(true)), ("original_file", x)]))])
  }

  /** The endpoints of the entries, in order. */
  function Entries(xs: seq<PyValue>, source: string): (r: seq<PyValue>)
    ensures |r| == |xs|
    ensures forall i :: 0 <= i < |xs| ==> r[i] == EntryEndpoint(xs[i], source)
  {
    if |xs| == 0 then [] else Entries(xs[..|xs| - 1], source) + [EntryEndpoint(xs[|xs| - 1], source)]
  }

  /** What `parse_custom` returns or raises. */
  function CustomEndpoints(loads: Loads, content: string, source: string): Result<seq<PyValue>, string> {
    if !EndsWith(source, ".map") then Ok([])
    else match Sources(loads, content)
      case Err(m) => Err(m)
      case Ok(xs) => Ok(Entries(xs, source))
  }

  /** `parse_custom`: the loop appending one endpoint per entry of `sources`. */
  method ParseCustom(loads: Loads, content: string, source: string) returns (r: Result<seq<PyValue>, string>)
    ensures r == CustomEndpoints(loads, content, source)
  {
    var endpoints: seq<PyValue> := [];
    if EndsWith(source, ".map") {
      var sources := Sources(loads, content);
      if sources.Err? {
        return Err(sources.error);
      }
      var xs := sources.value;
      var i := 0;
      while i < |xs|
        invariant 0 <= i <= |xs|
        invariant endpoints == Entries(xs[..i], source)
      {
        assert xs[..i + 1][..i] == xs[..i];
        endpoints := endpoints + [EntryEndpoint(xs[i], source)];
        i := i + 1;
      }
      assert xs[..i] == xs;
    }
    return Ok(endpoints);
  }

  /**
   * Nothing comes out of a file that is not a `.map`, of malformed JSON or of
   * a map without `sources`; a map whose `sources` is a list gives one
   * endpoint per entry, in order, with the entry as url, type `unknown`, the
   * map's path as source and the entry as `original_file` with
   * `from_sourcemap` True.
   */
  lemma CustomEndpointsSpec(loads: Loads, content: string, source: string)
    ensures !EndsWith(source, ".map") ==> CustomEndpoints(loads, content, source) == Ok([])
    ensures loads(content) == Err(DecodeError) ==> CustomEndpoints(loads, content, source) == Ok([])
    ensures loads(content).Ok? && loads(content).value.PyDict? && !HasKey(loads(content).value.entries, "sources") ==>
      CustomEndpoints(loads, content, source) == Ok([])
    ensures (EndsWith(source, ".map") && loads(content).Ok? && loads(content).value.PyDict?
      && Lookup(loads(content).value.entries, "sources").Some? && Lookup(loads(content).value.entries, "sources").value.PyList?) ==>
      var xs := Lookup(loads(content).value.entries, "sources").value.items;
      && CustomEndpoints(loads, content, source).Ok?
      && |CustomEndpoints(loads, content, source).value| == |xs|
      && forall i :: 0 <= i < |xs| ==> EntryShape(CustomEndpoints(loads, content, source).value[i], xs[i], source)
  {
    if loads(content).Ok? && loads(content).value.PyDict? {
      var entries := loads(content).value.entries;
      LookupSpec(entries, "sources");
      if Lookup(entries, "sources").Some? && Lookup(entries, "sources").value.PyList? {
        assert |entries| > 0;
        var xs := Lookup(entries, "sources").value.items;
        forall i | 0 <= i < |xs| ensures EntryShape(EntryEndpoint(xs[i], source), xs[i], source) {
          EntryEndpointShape(xs[i], source);
        }
      }
    }
  }

  /** What each emitted endpoint reads as, key by key. */
  ghost predicate EntryShape(ep: PyValue, x: PyValue, source: string) {
    && ep.PyDict?
    && Lookup(ep.entries, "url") == Some(x)
    && Lookup(ep.entries, "endpoint_type") == Some(PyStr("unknown"))
    && Lookup(ep.entries, "source") == Some(PyStr(source))
    && Lookup(Meta(ep.entries), "from_sourcemap") == Some(PyBool(true))
    && Lookup(Meta(ep.entries), "original_file") == Some(x)
  }

  lemma EntryEndpointShape(x: PyValue, source: string)
    ensures EntryShape(EntryEndpoint(x, source), x, source)
  {
    var d := EntryEndpoint(x, source).entries;
    assert "url"[0] == 'u' && "endpoint_type"[0] == 'e' && "source"[0] == 's' && "metadata"[0] == 'm';
    assert forall a, b :: 0 <= a < b < |d| ==> d[a].0 != d[b].0 by {
      forall a, b | 0 <= a < b < |d| ensures d[a].0 != d[b].0 {
        assert d[a].0[0] != d[b].0[0];
      }
    }
    LookupDistinct(d, 0);
    LookupDistinct(d, 1);
    LookupDistinct(d, 2);
    LookupDistinct(d, 3);
    var m := [("from_sourcemap", PyBool(true)), ("original_file", x)];
    assert Meta(d) == m;
    assert "from_sourcemap"[0] != "original_file"[0];
    LookupDistinct(m, 1);
  }

  /**
   * Handed to `dict_to_endpoint`, an entry that is a str becomes an Unknown
   * endpoint at that url whose source is the map, with nothing else set.
   */
  lemma EntryConverts(u: string, source: string)
    ensures DictToEndpoint(EntryEndpoint(PyStr(u), source).entries) == Ok(Endpoint(u, None, Unknown, Some(source), None, None, None))
  {
    var d := EntryEndpoint(PyStr(u), source).entries;
    EntryEndpointShape(PyStr(u), source);
    assert KeysOf(d) == ["url", "endpoint_type", "source", "metadata"];
    assert "method"[3] != "metadata"[3];
    LookupSpec(d, "method");
    LookupSpec(d, "line");
    LookupSpec(d, "params");
  }
}
