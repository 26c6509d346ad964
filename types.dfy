/**
 * The endpoint record and its kind (src/types.rs): an `Endpoint` is built with
 * `new` and refined with by-value `with_*` builders, each of which sets one
 * optional field.
 */
module Types {
  import opened Wrappers

  /** Rust `usize` on a 64-bit target. */
  type usize = n: int | 0 <= n < 0x1_0000_0000_0000_0000
  /** Rust `u32`. */
  type u32 = n: int | 0 <= n < 0x1_0000_0000
  /** Rust `u64`. */
  type u64 = n: int | 0 <= n < 0x1_0000_0000_0000_0000

  datatype EndpointType = Rest | GraphQL | WebSocket | Unknown

  datatype Endpoint = Endpoint(
    url: string,
    httpMethod: Option<string>,
    endpointType: EndpointType,
    source: Option<string>,
    line: Option<usize>,
    params: Option<seq<string>>,
    metadata: Option<map<string, string>>)

  /** `Endpoint::new`: url and type given, every optional field absent. */
  function New(url: string, t: EndpointType): (e: Endpoint)
    ensures e.url == url && e.endpointType == t
    ensures e.httpMethod.None? && e.source.None? && e.line.None? && e.params.None? && e.metadata.None?
  {
    Endpoint(url, None, t, None, None, None, None)
  }

  function WithMethod(e: Endpoint, m: string): (r: Endpoint)
    ensures r.httpMethod == Some(m)
    ensures r.url == e.url && r.endpointType == e.endpointType && r.source == e.source
    ensures r.line == e.line && r.params == e.params && r.metadata == e.metadata
  {
    e.(httpMethod := Some(m))
  }

  function WithSource(e: Endpoint, s: string): (r: Endpoint)
    ensures r.source == Some(s)
    ensures r.url == e.url && r.endpointType == e.endpointType && r.httpMethod == e.httpMethod
    ensures r.line == e.line && r.params == e.params && r.metadata == e.metadata
  {
    e.(source := Some(s))
  }

  function WithLine(e: Endpoint, n: usize): (r: Endpoint)
    ensures r.line == Some(n)
    ensures r.url == e.url && r.endpointType == e.endpointType && r.httpMethod == e.httpMethod
    ensures r.source == e.source && r.params == e.params && r.metadata == e.metadata
  {
    e.(line := Some(n))
  }

  function WithParams(e: Endpoint, ps: seq<string>): (r: Endpoint)
    ensures r.params == Some(ps)
    ensures r.url == e.url && r.endpointType == e.endpointType && r.httpMethod == e.httpMethod
    ensures r.source == e.source && r.line == e.line && r.metadata == e.metadata
  {
    e.(params := Some(ps))
  }

  function WithMetadata(e: Endpoint, md: map<string, string>): (r: Endpoint)
    ensures r.metadata == Some(md)
    ensures r.url == e.url && r.endpointType == e.endpointType && r.httpMethod == e.httpMethod
    ensures r.source == e.source && r.line == e.line && r.params == e.params
  {
    e.(metadata := Some(md))
  }

  /** Setting the same field twice keeps the last value. */
  lemma BuildersLastWins(e: Endpoint, m1: string, m2: string, s1: string, s2: string, n1: usize, n2: usize)
    ensures WithMethod(WithMethod(e, m1), m2) == WithMethod(e, m2)
    ensures WithSource(WithSource(e, s1), s2) == WithSource(e, s2)
    ensures WithLine(WithLine(e, n1), n2) == WithLine(e, n2)
  {
  }

  /** Builders on different fields commute. */
  lemma BuildersCommute(e: Endpoint, m: string, s: string, n: usize, ps: seq<string>, md: map<string, string>)
    ensures WithSource(WithMethod(e, m), s) == WithMethod(WithSource(e, s), m)
    ensures WithLine(WithMethod(e, m), n) == WithMethod(WithLine(e, n), m)
    ensures WithLine(WithSource(e, s), n) == WithSource(WithLine(e, n), s)
    ensures WithParams(WithMethod(e, m), ps) == WithMethod(WithParams(e, ps), m)
    ensures WithParams(WithSource(e, s), ps) == WithSource(WithParams(e, ps), s)
    ensures WithMetadata(WithParams(e, ps), md) == WithParams(WithMetadata(e, md), ps)
    ensures WithMetadata(WithMethod(e, m), md) == WithMethod(WithMetadata(e, md), m)
  {
  }

  /** The builder chain of the integration test yields exactly the fields it names. */
  lemma BuilderChainExample()
    ensures var e := WithLine(WithSource(WithMethod(New("/api/users", Rest), "GET"), "app.js"), 42);
      e.url == "/api/users" && e.httpMethod == Some("GET") && e.endpointType == Rest
      && e.source == Some("app.js") && e.line == Some(42) && e.params.None? && e.metadata.None?
  {
  }
}
