/**
 * The plugin boundary of src/plugins/mod.rs: plugins as Python callbacks, the
 * any-false filter, the transform fold that keeps the previous endpoint when a
 * plugin gives nothing usable, and the conversions between an endpoint and
 * the dict a plugin sees.
 */
module Plugins {
  import opened Wrappers
  import opened Types
  import opened Errors
  import opened Py

  /** A call into Python: a returned value, or the text of the exception it raised. */
  type Callback = PyValue -> Result<PyValue, string>

  /** A loaded plugin module: its `filter_endpoint` and `transform_endpoint`, each possibly missing. */
  datatype Plugin = Plugin(filter: Option<Callback>, transform: Option<Callback>)

  /** `format!("{:?}", t).to_lowercase()` */
  function TypeName(t: EndpointType): string {
    match t
    case Rest => "rest"
    case GraphQL => "graphql"
    case WebSocket => "websocket"
    case Unknown => "unknown"
  }

  /** The type-string `match` of `dict_to_endpoint`. */
  function TypeFromName(s: string): EndpointType {
    if s == "rest" then Rest
    else if s == "graphql" then GraphQL
    else if s == "websocket" then WebSocket
    else Unknown
  }

  /** The two agree on every type, and any text other than the three names means Unknown. */
  lemma TypeNames(t: EndpointType, s: string)
    ensures TypeFromName(TypeName(t)) == t
    ensures TypeFromName(s) == Unknown <==> s != "rest" && s != "graphql" && s != "websocket"
    ensures TypeFromName(s) != Unknown ==> TypeName(TypeFromName(s)) == s
  {
  }

  /** A Rust `Option` on the Python side: the value, or None. */
  function OptStr(o: Option<string>): PyValue {
    if o.Some? then PyStr(o.value) else PyNone
  }

  function OptInt(o: Option<usize>): PyValue {
    if o.Some? then PyInt(o.value) else PyNone
  }

  function OptStrs(o: Option<seq<string>>): PyValue {
    if o.Some? then PyList(StrList(o.value)) else PyNone
  }

  /** `endpoint_to_dict`: six keys; metadata is not passed. */
  function EndpointToDict(e: Endpoint): seq<(string, PyValue)> {
    [("url", PyStr(e.url)), ("method", OptStr(e.httpMethod)), ("endpoint_type", PyStr(TypeName(e.endpointType))),
     ("source", OptStr(e.source)), ("line", OptInt(e.line)), ("params", OptStrs(e.params))]
  }

  /** A present value that converts, for the optional fields. */
  function StrField(d: seq<(string, PyValue)>, k: string): Option<string> {
    match Lookup(d, k)
    case Some(v) => ExtractString(v)
    case None => None
  }

  function LineField(d: seq<(string, PyValue)>): Option<usize> {
    match Lookup(d, "line")
    case Some(v) => (match ExtractUsize(v) case Some(n) => Some(n as usize) case None => None)
    case None => None
  }

  function ParamsField(d: seq<(string, PyValue)>): Option<seq<string>> {
    match Lookup(d, "params")
    case Some(v) => ExtractStrings(v)
    case None => None
  }

  const MissingUrl: string := "Missing url in transformed endpoint"

  /**
   * `dict_to_endpoint`, written as one record; DictToEndpointBuilders shows it
   * is `new` followed by the `with_*` calls for the fields that convert.
   */
  function DictToEndpoint(d: seq<(string, PyValue)>): Result<Endpoint, Error> {
    match StrField(d, "url")
    case None => Err(PluginError(MissingUrl))
    case Some(url) =>
      var t := TypeFromName(match StrField(d, "endpoint_type") case Some(s) => s case None => "unknown");
      Ok(Endpoint(url, StrField(d, "method"), t, StrField(d, "source"), LineField(d), ParamsField(d), None))
  }

  lemma DictToEndpointBuilders(d: seq<(string, PyValue)>)
    requires StrField(d, "url").Some?
    ensures var t := TypeFromName(match StrField(d, "endpoint_type") case Some(s) => s case None => "unknown");
      var e := New(StrField(d, "url").value, t);
      var e := match StrField(d, "method") case Some(m) => WithMethod(e, m) case None => e;
      var e := match StrField(d, "source") case Some(s) => WithSource(e, s) case None => e;
      var e := match LineField(d) case Some(n) => WithLine(e, n) case None => e;
      var e := match ParamsField(d) case Some(ps) => WithParams(e, ps) case None => e;
      DictToEndpoint(d) == Ok(e)
  {
  }

  /**
   * `dict_to_endpoint` fails exactly when `url` is missing or not a str, and
   * what it builds never carries metadata.
   */
  lemma DictToEndpointSpec(d: seq<(string, PyValue)>)
    ensures DictToEndpoint(d).Err? <==> !HasKey(d, "url") || (Lookup(d, "url").Some? && !Lookup(d, "url").value.PyStr?)
    ensures DictToEndpoint(d).Err? ==> DictToEndpoint(d).error == PluginError(MissingUrl)
    ensures DictToEndpoint(d).Ok? ==> DictToEndpoint(d).value.url == Lookup(d, "url").value.s
    ensures DictToEndpoint(d).Ok? ==> DictToEndpoint(d).value.metadata.None?
  {
    LookupSpec(d, "url");
  }

  /** The dict of an endpoint has six distinct keys, each holding its field. */
  lemma EndpointDictLookups(e: Endpoint)
    ensures var d := EndpointToDict(e);
      Lookup(d, "url") == Some(PyStr(e.url))
      && Lookup(d, "method") == Some(OptStr(e.httpMethod))
      && Lookup(d, "endpoint_type") == Some(PyStr(TypeName(e.endpointType)))
      && Lookup(d, "source") == Some(OptStr(e.source))
      && Lookup(d, "line") == Some(OptInt(e.line))
      && Lookup(d, "params") == Some(OptStrs(e.params))
  {
    var d := EndpointToDict(e);
    assert "url"[0] == 'u' && "method"[0] == 'm' && "endpoint_type"[0] == 'e';
    assert "source"[0] == 's' && "line"[0] == 'l' && "params"[0] == 'p';
    assert forall a, b :: 0 <= a < b < |d| ==> d[a].0 != d[b].0 by {
      forall a, b | 0 <= a < b < |d| ensures d[a].0 != d[b].0 {
        assert d[a].0[0] != d[b].0[0];
      }
    }
    LookupDistinct(d, 0);
    LookupDistinct(d, 1);
    LookupDistinct(d, 2);
    LookupDistinct(d, 3);
    LookupDistinct(d, 4);
    LookupDistinct(d, 5);
  }

  /** The round trip through a plugin that changes nothing: every field but metadata survives. */
  lemma DictRoundTrip(e: Endpoint)
    ensures DictToEndpoint(EndpointToDict(e)) == Ok(e.(metadata := None))
  {
    var d := EndpointToDict(e);
    EndpointDictLookups(e);
    assert StrField(d, "url") == Some(e.url);
    assert StrField(d, "endpoint_type") == Some(TypeName(e.endpointType));
    assert StrField(d, "method") == e.httpMethod;
    assert StrField(d, "source") == e.source;
    assert LineField(d) == e.line;
    if e.params.Some? {
      StrListRoundTrip(e.params.value);
    }
    assert ParamsField(d) == e.params;
  }

  /** One plugin's filter vote: only a call that returns a bool False says drop. */
  predicate Vote(p: Plugin, e: Endpoint) {
    match p.filter
    case None => true
    case Some(f) =>
      var r := f(PyDict(EndpointToDict(e)));
      !(r.Ok? && ExtractBool(r.value) == Some(false))
  }

  /** The filter verdict of a plugin list: keep unless some plugin votes to drop. */
  predicate Kept(plugins: seq<Plugin>, e: Endpoint) {
    forall i :: 0 <= i < |plugins| ==> Vote(plugins[i], e)
  }

  /** An endpoint is dropped exactly when some plugin has a filter that returns False for it. */
  lemma KeptSpec(plugins: seq<Plugin>, e: Endpoint)
    ensures Kept([], e)
    ensures !Kept(plugins, e) <==>
      exists i :: 0 <= i < |plugins| && plugins[i].filter.Some? && plugins[i].filter.value(PyDict(EndpointToDict(e))) == Ok(PyBool(false))
  {
    if !Kept(plugins, e) {
      var i :| 0 <= i < |plugins| && !Vote(plugins[i], e);
      assert plugins[i].filter.Some?;
    }
  }

  /** One plugin's transform step: take its result only if it is a dict that converts. */
  function Step(p: Plugin, e: Endpoint): Endpoint {
    match p.transform
    case None => e
    case Some(f) =>
      var r := f(PyDict(EndpointToDict(e)));
      if r.Ok? && r.value.PyDict? && DictToEndpoint(r.value.entries).Ok? then DictToEndpoint(r.value.entries).value
      else e
  }

  /** The transform of a plugin list: a left fold of the steps in load order. */
  function Transformed(plugins: seq<Plugin>, e: Endpoint): Endpoint {
    if |plugins| == 0 then e else Step(plugins[|plugins| - 1], Transformed(plugins[..|plugins| - 1], e))
  }

  /**
   * A step replaces the endpoint only with the conversion of a dict the plugin
   * returned whose `url` is a str; then metadata is gone. Otherwise (missing
   * function, exception, non-dict, no str url) the endpoint is kept.
   */
  lemma StepSpec(p: Plugin, e: Endpoint)
    ensures Step(p, e) == e || (p.transform.Some?
      && var r := p.transform.value(PyDict(EndpointToDict(e)));
      r.Ok? && r.value.PyDict? && StrField(r.value.entries, "url").Some?
      && Step(p, e) == DictToEndpoint(r.value.entries).value
      && Step(p, e).metadata.None?)
  {
    if p.transform.Some? {
      var r := p.transform.value(PyDict(EndpointToDict(e)));
      if r.Ok? && r.value.PyDict? {
        DictToEndpointSpec(r.value.entries);
      }
    }
  }

  /** `dict_to_endpoint` reads the endpoint keys only: two dicts that differ at most in metadata convert alike. */
  lemma DictToEndpointReads(d1: seq<(string, PyValue)>, d2: seq<(string, PyValue)>)
    requires forall k :: k != "metadata" ==> Lookup(d1, k) == Lookup(d2, k)
    ensures DictToEndpoint(d1) == DictToEndpoint(d2)
  {
    assert "url"[0] != "metadata"[0] && "method"[3] != "metadata"[3] && "endpoint_type"[0] != "metadata"[0];
    assert "source"[0] != "metadata"[0] && "line"[0] != "metadata"[0] && "params"[0] != "metadata"[0];
    assert Lookup(d1, "url") == Lookup(d2, "url");
    assert Lookup(d1, "method") == Lookup(d2, "method");
    assert Lookup(d1, "endpoint_type") == Lookup(d2, "endpoint_type");
    assert Lookup(d1, "source") == Lookup(d2, "source");
    assert Lookup(d1, "line") == Lookup(d2, "line");
    assert Lookup(d1, "params") == Lookup(d2, "params");
  }

  /**
   * A transform that returns the endpoint's dict with only metadata changed
   * gives back the endpoint with its metadata dropped: what a plugin writes
   * under metadata does not reach the host.
   */
  lemma StepDropsMetadata(p: Plugin, e: Endpoint, d: seq<(string, PyValue)>)
    requires p.transform.Some? && p.transform.value(PyDict(EndpointToDict(e))) == Ok(PyDict(d))
    requires forall k :: k != "metadata" ==> Lookup(d, k) == Lookup(EndpointToDict(e), k)
    ensures Step(p, e) == e.(metadata := None)
  {
    DictToEndpointReads(d, EndpointToDict(e));
    DictRoundTrip(e);
  }

  /** The fold is the identity on no plugins, and its result is the input or carries no metadata. */
  lemma {:induction false} TransformedSpec(plugins: seq<Plugin>, e: Endpoint)
    ensures Transformed([], e) == e
    ensures Transformed(plugins, e) == e || Transformed(plugins, e).metadata.None?
  {
    if |plugins| > 0 {
      var p := plugins[..|plugins| - 1];
      TransformedSpec(p, e);
      StepSpec(plugins[|plugins| - 1], Transformed(p, e));
    }
  }

  class PluginManager {
    /** Whether the `python-plugins` feature is compiled in. */
    const enabled: bool
    /** The loaded plugins, in load order. */
    var plugins: seq<Plugin>

    /** Without the feature there is nothing to hold. */
    ghost predicate Valid()
      reads this
    {
      !enabled ==> plugins == []
    }

    /** `PluginManager::new` */
    constructor(enabled: bool)
      ensures this.enabled == enabled && plugins == [] && Valid()
    {
      this.enabled := enabled;
      plugins := [];
    }

    /**
     * `load_plugin`, with the file read and the module compilation given: a
     * read error is an I/O error, a compile error a plugin error, and only a
     * compiled module is appended. Without the feature it does nothing.
     */
    method LoadPlugin(code: Result<string, string>, compile: string -> Result<Plugin, string>) returns (r: Result<(), Error>)
      requires Valid()
      modifies this
      ensures Valid()
      ensures !enabled ==> r == Ok(()) && plugins == old(plugins)
      ensures enabled && code.Err? ==> r == Err(IoError(code.error)) && plugins == old(plugins)
      ensures enabled && code.Ok? && compile(code.value).Err? ==>
        r == Err(PluginError("Failed to parse plugin: " + compile(code.value).error)) && plugins == old(plugins)
      ensures enabled && code.Ok? && compile(code.value).Ok? ==>
        r == Ok(()) && plugins == old(plugins) + [compile(code.value).value]
    {
      if enabled {
        if code.Err? {
          return Err(IoError(code.error));
        }
        var compiled := compile(code.value);
        if compiled.Err? {
          return Err(PluginError("Failed to parse plugin: " + compiled.error));
        }
        plugins := plugins + [compiled.value];
      }
      return Ok(());
    }

    /** `filter_endpoint`: ask each plugin in turn, stop at the first False. */
    method FilterEndpoint(e: Endpoint) returns (keep: bool)
      requires Valid()
      ensures keep == Kept(plugins, e)
    {
      if !enabled {
        return true;
      }
      var i := 0;
      while i < |plugins|
        invariant 0 <= i <= |plugins|
        invariant forall k :: 0 <= k < i ==> Vote(plugins[k], e)
      {
        var p := plugins[i];
        if p.filter.Some? {
          var result := p.filter.value(PyDict(EndpointToDict(e)));
          if result.Ok? {
            var b := ExtractBool(result.value);
            if b.Some? && !b.value {
              return false;
            }
          }
        }
        i := i + 1;
      }
      return true;
    }

    /** `transform_endpoint`: replace the endpoint by each plugin's usable result in turn. */
    method TransformEndpoint(e: Endpoint) returns (r: Endpoint)
      requires Valid()
      ensures r == Transformed(plugins, e)
    {
      r := e;
      if !enabled {
        return;
      }
      var i := 0;
      while i < |plugins|
        invariant 0 <= i <= |plugins|
        invariant r == Transformed(plugins[..i], e)
      {
        assert plugins[..i + 1][..i] == plugins[..i];
        var p := plugins[i];
        if p.transform.Some? {
          var result := p.transform.value(PyDict(EndpointToDict(r)));
          if result.Ok? && result.value.PyDict? {
            var converted := DictToEndpoint(result.value.entries);
            if converted.Ok? {
              r := converted.value;
            }
          }
        }
        i := i + 1;
      }
      assert plugins[..i] == plugins;
    }
  }
}
