/**
 * The XML serialiser of src/output.rs: `escape_xml` and `serialize_xml`.
 * The escape is proved equal to a per-character reference escape, from which
 * its safety (no markup character survives, every `&` starts an entity) and a
 * decoding round trip follow; the document is proved to have one `<endpoint>`
 * element per endpoint and a `<method>`/`<source>` element exactly for the
 * endpoints that carry one.
 */
module Output {
  import opened Wrappers
  import opened Strings
  import opened Seqs
  import opened Types
  import opened Errors

  /** `escape_xml` as written: five `replace` passes over the whole text, `&` first. */
  function EscapeXml(s: string): string {
    ReplaceChar(ReplaceChar(ReplaceChar(ReplaceChar(ReplaceChar(s, '&', "&amp;"), '<', "&lt;"), '>', "&gt;"), '"', "&quot;"), '\'', "&apos;")
  }

  predicate Special(c: char) {
    c == '&' || c == '<' || c == '>' || c == '"' || c == '\''
  }

  /** The entity that stands for one character, or the character itself. */
  function EscapeChar(c: char): string {
    if c == '&' then "&amp;"
    else if c == '<' then "&lt;"
    else if c == '>' then "&gt;"
    else if c == '"' then "&quot;"
    else if c == '\'' then "&apos;"
    else [c]
  }

  /** The reference escape: every character replaced by its entity in one left-to-right pass. */
  function Escaped(s: string): string {
    if |s| == 0 then "" else EscapeChar(s[0]) + Escaped(s[1..])
  }

  /** Decoding of the five entities, left to right; any other character is kept. */
  function Unescape(s: string): string
    decreases |s|
  {
    if |s| == 0 then ""
    else if s[0] != '&' then [s[0]] + Unescape(s[1..])
    else if StartsWith(s, "&amp;") then "&" + Unescape(s[5..])
    else if StartsWith(s, "&lt;") then "<" + Unescape(s[4..])
    else if StartsWith(s, "&gt;") then ">" + Unescape(s[4..])
    else if StartsWith(s, "&quot;") then "\"" + Unescape(s[6..])
    else if StartsWith(s, "&apos;") then "'" + Unescape(s[6..])
    else "&" + Unescape(s[1..])
  }

  /** Position k of s starts one of the five entities. */
  predicate EntityAt(s: string, k: nat)
    requires k <= |s|
  {
    var t := s[k..];
    StartsWith(t, "&amp;") || StartsWith(t, "&lt;") || StartsWith(t, "&gt;") || StartsWith(t, "&quot;") || StartsWith(t, "&apos;")
  }

  lemma {:induction false} ReplaceCharAbsent(s: string, c: char, rep: string)
    requires c !in s
    ensures ReplaceChar(s, c, rep) == s
  {
    if |s| > 0 {
      ReplaceCharAbsent(s[1..], c, rep);
      assert s == [s[0]] + s[1..];
    }
  }

  lemma ReplaceCharOne(c: char, d: char, rep: string)
    ensures ReplaceChar([c], d, rep) == if c == d then rep else [c]
  {
    assert [c][1..] == "";
  }

  /** The five passes one after the other, as the method chain applies them. */
  lemma EscapeXmlSteps(s: string, a1: string, a2: string, a3: string, a4: string, a5: string)
    requires a1 == ReplaceChar(s, '&', "&amp;") && a2 == ReplaceChar(a1, '<', "&lt;")
    requires a3 == ReplaceChar(a2, '>', "&gt;") && a4 == ReplaceChar(a3, '"', "&quot;")
    requires a5 == ReplaceChar(a4, '\'', "&apos;")
    ensures EscapeXml(s) == a5
  {
  }

  /** An entity has no `<`, `>`, `"` or `'`, so the passes after `&` leave it alone. */
  lemma EntityKept(e: string)
    requires '<' !in e && '>' !in e && '"' !in e && '\'' !in e
    ensures ReplaceChar(e, '<', "&lt;") == e && ReplaceChar(e, '>', "&gt;") == e
    ensures ReplaceChar(e, '"', "&quot;") == e && ReplaceChar(e, '\'', "&apos;") == e
  {
    ReplaceCharAbsent(e, '<', "&lt;");
    ReplaceCharAbsent(e, '>', "&gt;");
    ReplaceCharAbsent(e, '"', "&quot;");
    ReplaceCharAbsent(e, '\'', "&apos;");
  }

  /** On one character the five passes give its entity: later passes leave an entity alone. */
  lemma EscapeXmlChar(c: char)
    ensures EscapeXml([c]) == EscapeChar(c)
  {
    if c == '&' {
      EscapeXmlAmp(c);
    } else if c == '<' {
      EscapeXmlLt(c);
    } else if c == '>' {
      EscapeXmlGt(c);
    } else if c == '"' {
      EscapeXmlQuot(c);
    } else {
      EscapeXmlRest(c);
    }
  }

  lemma EscapeXmlAmp(c: char)
    requires c == '&'
    ensures EscapeXml([c]) == "&amp;"
  {
    var e := "&amp;";
    ReplaceCharOne(c, '&', e);
    EntityKept(e);
    EscapeXmlSteps([c], e, e, e, e, e);
  }

  lemma EscapeXmlLt(c: char)
    requires c == '<'
    ensures EscapeXml([c]) == "&lt;"
  {
    var e := "&lt;";
    ReplaceCharOne(c, '&', "&amp;");
    ReplaceCharOne(c, '<', e);
    EntityKept(e);
    EscapeXmlSteps([c], [c], e, e, e, e);
  }

  lemma EscapeXmlGt(c: char)
    requires c == '>'
    ensures EscapeXml([c]) == "&gt;"
  {
    var e := "&gt;";
    ReplaceCharOne(c, '&', "&amp;");
    ReplaceCharOne(c, '<', "&lt;");
    ReplaceCharOne(c, '>', e);
    EntityKept(e);
    EscapeXmlSteps([c], [c], [c], e, e, e);
  }

  lemma EscapeXmlQuot(c: char)
    requires c == '"'
    ensures EscapeXml([c]) == "&quot;"
  {
    var e := "&quot;";
    ReplaceCharOne(c, '&', "&amp;");
    ReplaceCharOne(c, '<', "&lt;");
    ReplaceCharOne(c, '>', "&gt;");
    ReplaceCharOne(c, '"', e);
    EntityKept(e);
    EscapeXmlSteps([c], [c], [c], [c], e, e);
  }

  /** An apostrophe meets only the last pass; any other non-special character none. */
  lemma EscapeXmlRest(c: char)
    requires c != '&' && c != '<' && c != '>' && c != '"'
    ensures EscapeXml([c]) == if c == '\'' then "&apos;" else [c]
  {
    ReplaceCharOne(c, '&', "&amp;");
    ReplaceCharOne(c, '<', "&lt;");
    ReplaceCharOne(c, '>', "&gt;");
    ReplaceCharOne(c, '"', "&quot;");
    ReplaceCharOne(c, '\'', "&apos;");
    EscapeXmlSteps([c], [c], [c], [c], [c], if c == '\'' then "&apos;" else [c]);
  }

  lemma EscapeXmlAppend(a: string, b: string)
    ensures EscapeXml(a + b) == EscapeXml(a) + EscapeXml(b)
  {
    ReplaceCharAppend(a, b, '&', "&amp;");
    var a1, b1 := ReplaceChar(a, '&', "&amp;"), ReplaceChar(b, '&', "&amp;");
    ReplaceCharAppend(a1, b1, '<', "&lt;");
    var a2, b2 := ReplaceChar(a1, '<', "&lt;"), ReplaceChar(b1, '<', "&lt;");
    ReplaceCharAppend(a2, b2, '>', "&gt;");
    var a3, b3 := ReplaceChar(a2, '>', "&gt;"), ReplaceChar(b2, '>', "&gt;");
    ReplaceCharAppend(a3, b3, '"', "&quot;");
    var a4, b4 := ReplaceChar(a3, '"', "&quot;"), ReplaceChar(b3, '"', "&quot;");
    ReplaceCharAppend(a4, b4, '\'', "&apos;");
  }

  /** The five passes agree with the one-pass escape: since `&` goes first, no entity is escaped again. */
  lemma {:induction false} EscapeXmlIsEscaped(s: string)
    ensures EscapeXml(s) == Escaped(s)
  {
    if |s| == 0 {
      assert EscapeXml(s) == "";
    } else {
      assert s == [s[0]] + s[1..];
      EscapeXmlAppend([s[0]], s[1..]);
      EscapeXmlChar(s[0]);
      EscapeXmlIsEscaped(s[1..]);
    }
  }

  /** No `<`, `>`, `"` or `'` survives the escape. */
  lemma {:induction false} EscapedSafe(s: string)
    ensures '<' !in Escaped(s) && '>' !in Escaped(s) && '"' !in Escaped(s) && '\'' !in Escaped(s)
  {
    if |s| > 0 {
      EscapedSafe(s[1..]);
      EscapeCharSafe(s[0]);
      assert Escaped(s) == EscapeChar(s[0]) + Escaped(s[1..]);
    }
  }

  lemma EscapeCharSafe(c: char)
    ensures var e := EscapeChar(c); '<' !in e && '>' !in e && '"' !in e && '\'' !in e
  {
  }

  /** Every `&` of the output begins one of the five entities. */
  lemma {:induction false} EscapedAmpersands(s: string)
    ensures forall k :: 0 <= k < |Escaped(s)| && Escaped(s)[k] == '&' ==> EntityAt(Escaped(s), k)
  {
    if |s| > 0 {
      EscapedAmpersands(s[1..]);
      var e := EscapeChar(s[0]);
      var r := Escaped(s[1..]);
      assert Escaped(s) == e + r;
      forall k | 0 <= k < |e + r| && (e + r)[k] == '&' ensures EntityAt(e + r, k) {
        if k < |e| {
          assert k == 0 && Special(s[0]);
          assert (e + r)[..|e|] == e;
        } else {
          assert (e + r)[k..] == r[k - |e|..];
          assert r[k - |e|] == '&';
        }
      }
    }
  }

  /** Text without special characters is its own escape; the escape never shortens, and keeps the length only then. */
  lemma {:induction false} EscapedLength(s: string)
    ensures (forall k :: 0 <= k < |s| ==> !Special(s[k])) ==> Escaped(s) == s
    ensures |Escaped(s)| >= |s|
    ensures |Escaped(s)| == |s| <==> forall k :: 0 <= k < |s| ==> !Special(s[k])
  {
    if |s| > 0 {
      EscapedLength(s[1..]);
      assert s == [s[0]] + s[1..];
      if forall k :: 0 <= k < |s| ==> !Special(s[k]) {
        assert forall k :: 0 <= k < |s[1..]| ==> !Special(s[1..][k]) by {
          forall k | 0 <= k < |s[1..]| ensures !Special(s[1..][k]) {
            assert s[1..][k] == s[k + 1];
          }
        }
      }
      if !Special(s[0]) && !forall k :: 0 <= k < |s| ==> !Special(s[k]) {
        var k :| 0 <= k < |s| && Special(s[k]);
        assert s[1..][k - 1] == s[k];
      }
    }
  }

  /** Decoding the escape gives back the text. */
  lemma {:induction false} EscapeRoundTrip(s: string)
    ensures Unescape(EscapeXml(s)) == s
  {
    EscapeXmlIsEscaped(s);
    EscapedRoundTrip(s);
  }

  lemma {:induction false} EscapedRoundTrip(s: string)
    ensures Unescape(Escaped(s)) == s
  {
    if |s| > 0 {
      EscapedRoundTrip(s[1..]);
      UnescapeEntity(s[0], Escaped(s[1..]));
      assert s == [s[0]] + s[1..];
    }
  }

  /** Decoding an escaped character followed by anything decodes the character first. */
  lemma UnescapeEntity(c: char, r: string)
    ensures Unescape(EscapeChar(c) + r) == [c] + Unescape(r)
  {
    if !Special(c) {
      var t := [c] + r;
      assert t[0] == c && t[1..] == r;
    } else if c == '&' {
      UnescapeAmp(r);
    } else if c == '<' {
      UnescapeLt(r);
    } else if c == '>' {
      UnescapeGt(r);
    } else if c == '"' {
      UnescapeQuot(r);
    } else {
      UnescapeApos(r);
    }
  }

  /** A text whose k-th character differs from p's does not start with p. */
  lemma NotPrefix(t: string, p: string, k: nat)
    requires k < |p| && k < |t| && t[k] != p[k]
    ensures !StartsWith(t, p)
  {
    if |p| <= |t| {
      assert t[..|p|][k] == t[k];
    }
  }

  lemma Prefix(e: string, r: string)
    ensures StartsWith(e + r, e) && (e + r)[|e|..] == r
  {
    assert (e + r)[..|e|] == e;
  }

  lemma UnescapeAmp(r: string)
    ensures Unescape("&amp;" + r) == "&" + Unescape(r)
  {
    Prefix("&amp;", r);
  }

  lemma UnescapeLt(r: string)
    ensures Unescape("&lt;" + r) == "<" + Unescape(r)
  {
    var t := "&lt;" + r;
    assert t[0] == '&' && t[1] == 'l';
    NotPrefix(t, "&amp;", 1);
    Prefix("&lt;", r);
  }

  lemma UnescapeGt(r: string)
    ensures Unescape("&gt;" + r) == ">" + Unescape(r)
  {
    var t := "&gt;" + r;
    assert t[0] == '&' && t[1] == 'g';
    NotPrefix(t, "&amp;", 1);
    NotPrefix(t, "&lt;", 1);
    Prefix("&gt;", r);
  }

  lemma UnescapeQuot(r: string)
    ensures Unescape("&quot;" + r) == "\"" + Unescape(r)
  {
    var t := "&quot;" + r;
    assert t[0] == '&' && t[1] == 'q';
    NotPrefix(t, "&amp;", 1);
    NotPrefix(t, "&lt;", 1);
    NotPrefix(t, "&gt;", 1);
    Prefix("&quot;", r);
  }

  lemma UnescapeApos(r: string)
    ensures Unescape("&apos;" + r) == "'" + Unescape(r)
  {
    var t := "&apos;" + r;
    assert t[0] == '&' && t[1] == 'a' && t[2] == 'p';
    NotPrefix(t, "&amp;", 2);
    NotPrefix(t, "&lt;", 1);
    NotPrefix(t, "&gt;", 1);
    NotPrefix(t, "&quot;", 1);
    Prefix("&apos;", r);
  }

  /** `{:?}` of an endpoint type. */
  function DebugName(t: EndpointType): string {
    match t
    case Rest => "Rest"
    case GraphQL => "GraphQL"
    case WebSocket => "WebSocket"
    case Unknown => "Unknown"
  }

  /** The XML declaration: a `<` and the text after it. */
  const DeclarationBody := "?xml version=\"1.0\" encoding=\"UTF-8\"?>"
  const Declaration := "<" + DeclarationBody

  /** One child element on its own line: `\n    <tag>text</tag>`. */
  function Element(tag: string, text: string): string {
    "\n    <" + tag + ">" + text + "</" + tag + ">"
  }

  /**
   * The texts `serialize_xml` has pushed once it has written the endpoints
   * eps: the declaration, `<endpoints>` and each endpoint's lines.
   */
  function Pushed(eps: seq<Endpoint>): seq<string> {
    if |eps| == 0 then [Declaration, "\n<endpoints>"]
    else PushedEndpoint(Pushed(eps[..|eps| - 1]), eps[|eps| - 1])
  }

  /** The texts pushed after pre for one endpoint; absent fields write no line. */
  function PushedEndpoint(pre: seq<string>, e: Endpoint): seq<string> {
    var a := pre + ["\n  <endpoint>"] + [Element("url", EscapeXml(e.url))];
    var b := if e.httpMethod.Some? then a + [Element("method", EscapeXml(e.httpMethod.value))] else a;
    var d := b + [Element("type", DebugName(e.endpointType))];
    var f := if e.source.Some? then d + [Element("source", EscapeXml(e.source.value))] else d;
    f + ["\n  </endpoint>"]
  }

  /** The string built by pushing the texts one after the other. */
  function Concat(ps: seq<string>): string {
    if |ps| == 0 then "" else Concat(ps[..|ps| - 1]) + ps[|ps| - 1]
  }

  /** The document `serialize_xml` produces. */
  function Document(eps: seq<Endpoint>): string {
    Concat(Pushed(eps) + ["\n</endpoints>"])
  }

  lemma ConcatSnoc(ps: seq<string>, p: string)
    ensures Concat(ps + [p]) == Concat(ps) + p
  {
    assert (ps + [p])[..|ps|] == ps;
  }

  lemma PushedSnoc(eps: seq<Endpoint>, i: nat)
    requires i < |eps|
    ensures Pushed(eps[..i + 1]) == PushedEndpoint(Pushed(eps[..i]), eps[i])
  {
    assert eps[..i + 1][..i] == eps[..i];
  }

  /** `serialize_xml` */
  method SerializeXml(eps: seq<Endpoint>) returns (r: Result<string, Error>)
    ensures r == Ok(Document(eps))
  {
    var xml := Declaration;
    ghost var pushed := [Declaration];
    assert Concat(pushed) == "" + Declaration;
    xml, pushed := Push(xml, pushed, "\n<endpoints>");
    assert pushed == [Declaration, "\n<endpoints>"];
    var i := 0;
    while i < |eps|
      invariant 0 <= i <= |eps|
      invariant pushed == Pushed(eps[..i]) && xml == Concat(pushed)
    {
      PushedSnoc(eps, i);
      xml, pushed := PushEndpoint(xml, pushed, eps[i]);
      i := i + 1;
    }
    assert eps[..i] == eps;
    xml, pushed := Push(xml, pushed, "\n</endpoints>");
    return Ok(xml);
  }

  /** The body of the loop of `serialize_xml`: the lines of one endpoint. */
  method PushEndpoint(xml: string, ghost pushed: seq<string>, e: Endpoint) returns (out: string, ghost now: seq<string>)
    requires xml == Concat(pushed)
    ensures now == PushedEndpoint(pushed, e) && out == Concat(now)
  {
    out, now := Push(xml, pushed, "\n  <endpoint>");
    out, now := Push(out, now, Element("url", EscapeXml(e.url)));
    if e.httpMethod.Some? {
      out, now := Push(out, now, Element("method", EscapeXml(e.httpMethod.value)));
    }
    out, now := Push(out, now, Element("type", DebugName(e.endpointType)));
    if e.source.Some? {
      out, now := Push(out, now, Element("source", EscapeXml(e.source.value)));
    }
    out, now := Push(out, now, "\n  </endpoint>");
  }

  /** `push_str`, with the list of texts pushed so far kept alongside. */
  method Push(xml: string, ghost pushed: seq<string>, piece: string) returns (out: string, ghost now: seq<string>)
    requires xml == Concat(pushed)
    ensures out == xml + piece && now == pushed + [piece] && out == Concat(now)
  {
    ConcatSnoc(pushed, piece);
    out := xml + piece;
    now := pushed + [piece];
  }

  /** The number of tags whose name starts with c: positions holding `<` followed by c. */
  function TagCount(s: string, c: char): nat {
    TagsFrom(s, 0, c)
  }

  /** The tags starting at position i or later. */
  function TagsFrom(s: string, i: nat, c: char): nat
    decreases |s| - i
  {
    if i + 1 >= |s| then 0 else (if s[i] == '<' && s[i + 1] == c then 1 else 0) + TagsFrom(s, i + 1, c)
  }

  /** The tags of a suffix do not depend on what precedes it. */
  lemma {:induction false} TagsShift(a: string, b: string, j: nat, c: char)
    requires j <= |b|
    ensures TagsFrom(a + b, |a| + j, c) == TagsFrom(b, j, c)
    decreases |b| - j
  {
    if j + 1 < |b| {
      assert (a + b)[|a| + j] == b[j] && (a + b)[|a| + j + 1] == b[j + 1];
      TagsShift(a, b, j + 1, c);
    }
  }

  lemma {:induction false} TagsAppend(a: string, b: string, i: nat, c: char)
    requires i <= |a|
    requires |a| == 0 || |b| == 0 || a[|a| - 1] != '<' || b[0] != c
    ensures TagsFrom(a + b, i, c) == TagsFrom(a, i, c) + TagsFrom(b, 0, c)
    decreases |a| - i
  {
    if i == |a| {
      TagsShift(a, b, 0, c);
    } else if i + 1 == |a| {
      TagsShift(a, b, 0, c);
      if |b| > 0 {
        assert (a + b)[i] == a[i] && (a + b)[i + 1] == b[0];
      }
    } else {
      assert (a + b)[i] == a[i] && (a + b)[i + 1] == a[i + 1];
      TagsAppend(a, b, i + 1, c);
    }
  }

  lemma TagCountAppend(a: string, b: string, c: char)
    requires |a| == 0 || |b| == 0 || a[|a| - 1] != '<' || b[0] != c
    ensures TagCount(a + b, c) == TagCount(a, c) + TagCount(b, c)
  {
    TagsAppend(a, b, 0, c);
  }

  lemma {:induction false} TagsFree(s: string, i: nat, c: char)
    requires '<' !in s
    ensures TagsFrom(s, i, c) == 0
    decreases |s| - i
  {
    if i + 1 < |s| {
      TagsFree(s, i + 1, c);
    }
  }

  lemma TagCountFree(s: string, c: char)
    requires '<' !in s
    ensures TagCount(s, c) == 0
  {
    TagsFree(s, 0, c);
  }

  /** An opening `<` followed by text without `<` is one tag, counted under its first letter. */
  lemma TagCountOpen(t: string, c: char)
    requires |t| > 0 && '<' !in t
    ensures TagCount("<" + t, c) == if t[0] == c then 1 else 0
  {
    assert ("<" + t)[0] == '<' && ("<" + t)[1] == t[0];
    TagsShift("<", t, 0, c);
    TagsFree(t, 0, c);
  }

  /** `prefix<rest` where the prefix has no `<` and rest has none either. */
  lemma TagCountLine(prefix: string, rest: string, c: char)
    requires '<' !in prefix && |rest| > 0 && '<' !in rest
    ensures TagCount(prefix + ("<" + rest), c) == if rest[0] == c then 1 else 0
  {
    TagCountFree(prefix, c);
    TagCountOpen(rest, c);
    TagCountAppend(prefix, "<" + rest, c);
  }

  lemma ElementTags(tag: string, text: string, c: char)
    requires |tag| > 0 && '<' !in tag && '<' !in text && c != '/'
    ensures TagCount(Element(tag, text), c) == if tag[0] == c then 1 else 0
    ensures |Element(tag, text)| > 0 && Element(tag, text)[0] == '\n'
  {
    var open := tag + ">" + text;
    var close := "/" + tag + ">";
    assert Element(tag, text) == ("\n    " + ("<" + open)) + ("<" + close);
    TagCountLine("\n    ", open, c);
    TagCountOpen(close, c);
    TagCountAppend("\n    " + ("<" + open), "<" + close, c);
  }

  /** Pushing a text that starts a new line adds its tags. */
  lemma PushTags(ps: seq<string>, p: string, c: char)
    requires c != '\n' && |p| > 0 && p[0] == '\n'
    ensures TagCount(Concat(ps + [p]), c) == TagCount(Concat(ps), c) + TagCount(p, c)
  {
    ConcatSnoc(ps, p);
    TagCountAppend(Concat(ps), p, c);
  }

  /** Pushing an element line adds one tag, under the element's first letter. */
  lemma PushElementTags(ps: seq<string>, tag: string, text: string, c: char)
    requires |tag| > 0 && '<' !in tag && '<' !in text && c != '/' && c != '\n'
    ensures TagCount(Concat(ps + [Element(tag, text)]), c) == TagCount(Concat(ps), c) + (if tag[0] == c then 1 else 0)
  {
    ElementTags(tag, text, c);
    PushTags(ps, Element(tag, text), c);
  }

  /** Pushing escaped text as an element line. */
  lemma PushEscapedTags(ps: seq<string>, tag: string, text: string, c: char)
    requires |tag| > 0 && '<' !in tag && c != '/' && c != '\n'
    ensures TagCount(Concat(ps + [Element(tag, EscapeXml(text))]), c) == TagCount(Concat(ps), c) + (if tag[0] == c then 1 else 0)
  {
    EscapeXmlIsEscaped(text);
    EscapedSafe(text);
    PushElementTags(ps, tag, EscapeXml(text), c);
  }

  lemma EndpointOpenTags(c: char)
    requires c != '/'
    ensures TagCount("\n  <endpoint>", c) == if c == 'e' then 1 else 0
  {
    TagCountLine("\n  ", "endpoint>", c);
  }

  lemma EndpointCloseTags(c: char)
    requires c != '/'
    ensures TagCount("\n  </endpoint>", c) == 0
  {
    TagCountLine("\n  ", "/endpoint>", c);
  }

  lemma RootOpenTags(c: char)
    requires c != '/'
    ensures TagCount("\n<endpoints>", c) == if c == 'e' then 1 else 0
  {
    TagCountLine("\n", "endpoints>", c);
  }

  lemma RootCloseTags(c: char)
    requires c != '/'
    ensures TagCount("\n</endpoints>", c) == 0
  {
    TagCountLine("\n", "/endpoints>", c);
  }

  lemma DebugNameSafe(t: EndpointType)
    ensures '<' !in DebugName(t)
  {
  }

  function Has(o: Option<string>, c: char, letter: char): nat {
    if o.Some? && c == letter then 1 else 0
  }

  /**
   * One endpoint adds one `<endpoint>`, `<url>` and `<type>` tag each, and a
   * `<method>` or `<source>` tag only when the field is present: escaped text
   * adds no tag.
   */
  lemma PushedEndpointTags(pre: seq<string>, e: Endpoint, c: char)
    requires c != '/' && c != '\n'
    ensures TagCount(Concat(PushedEndpoint(pre, e)), c) == TagCount(Concat(pre), c)
      + (if c == 'e' then 1 else 0) + (if c == 'u' then 1 else 0) + (if c == 't' then 1 else 0)
      + Has(e.httpMethod, c, 'm') + Has(e.source, c, 's')
  {
    var a0 := pre + ["\n  <endpoint>"];
    var a := a0 + [Element("url", EscapeXml(e.url))];
    var b := if e.httpMethod.Some? then a + [Element("method", EscapeXml(e.httpMethod.value))] else a;
    var d := b + [Element("type", DebugName(e.endpointType))];
    var f := if e.source.Some? then d + [Element("source", EscapeXml(e.source.value))] else d;
    EndpointOpenTags(c);
    PushTags(pre, "\n  <endpoint>", c);
    PushEscapedTags(a0, "url", e.url, c);
    if e.httpMethod.Some? {
      PushEscapedTags(a, "method", e.httpMethod.value, c);
    }
    DebugNameSafe(e.endpointType);
    PushElementTags(b, "type", DebugName(e.endpointType), c);
    if e.source.Some? {
      PushEscapedTags(d, "source", e.source.value, c);
    }
    EndpointCloseTags(c);
    PushTags(f, "\n  </endpoint>", c);
  }

  /** The number of endpoints whose field `field` is present. */
  function Present(eps: seq<Endpoint>, field: Endpoint -> Option<string>): nat {
    if |eps| == 0 then 0 else Present(eps[..|eps| - 1], field) + (if field(eps[|eps| - 1]).Some? then 1 else 0)
  }

  /** Some endpoint has the field exactly when the count is positive. */
  lemma {:induction false} PresentSome(eps: seq<Endpoint>, field: Endpoint -> Option<string>)
    ensures Present(eps, field) > 0 <==> exists k :: 0 <= k < |eps| && field(eps[k]).Some?
  {
    if |eps| > 0 {
      var p := eps[..|eps| - 1];
      PresentSome(p, field);
      if exists k :: 0 <= k < |p| && field(p[k]).Some? {
        var k :| 0 <= k < |p| && field(p[k]).Some?;
        assert eps[k] == p[k];
      }
      if exists k :: 0 <= k < |eps| && field(eps[k]).Some? {
        var k :| 0 <= k < |eps| && field(eps[k]).Some?;
        if k < |p| {
          assert p[k] == eps[k];
        }
      }
    }
  }

  function MethodOf(e: Endpoint): Option<string> {
    e.httpMethod
  }

  function SourceOf(e: Endpoint): Option<string> {
    e.source
  }

  /** The declaration is a processing instruction, not an element. */
  lemma HeadTags(c: char)
    requires c != '?' && c != '/' && c != '\n'
    ensures TagCount(Concat([Declaration, "\n<endpoints>"]), c) == if c == 'e' then 1 else 0
  {
    assert [Declaration, "\n<endpoints>"] == [Declaration] + ["\n<endpoints>"];
    assert Concat([Declaration]) == "" + Declaration == Declaration;
    TagCountOpen(DeclarationBody, c);
    assert DeclarationBody[0] == '?';
    RootOpenTags(c);
    PushTags([Declaration], "\n<endpoints>", c);
  }

  lemma {:induction false} PushedTags(eps: seq<Endpoint>, c: char)
    requires c == 'e' || c == 'm' || c == 's'
    ensures TagCount(Concat(Pushed(eps)), c) ==
      (if c == 'e' then |eps| + 1 else 0) + (if c == 'm' then Present(eps, MethodOf) else 0)
        + (if c == 's' then Present(eps, SourceOf) else 0)
  {
    if |eps| == 0 {
      HeadTags(c);
    } else {
      var q := eps[..|eps| - 1];
      PushedTags(q, c);
      PushedEndpointTags(Pushed(q), eps[|eps| - 1], c);
    }
  }

  /**
   * The document holds one `<endpoint>` element per endpoint (the `+ 1` is
   * the `<endpoints>` root), and as many `<method>` and `<source>` elements as
   * endpoints with that field.
   */
  lemma DocumentTags(eps: seq<Endpoint>, c: char)
    requires c == 'e' || c == 'm' || c == 's'
    ensures TagCount(Document(eps), c) ==
      (if c == 'e' then |eps| + 1 else 0) + (if c == 'm' then Present(eps, MethodOf) else 0)
        + (if c == 's' then Present(eps, SourceOf) else 0)
  {
    PushedTags(eps, c);
    RootCloseTags(c);
    PushTags(Pushed(eps), "\n</endpoints>", c);
  }

  /** Every list of pushes starts with the declaration and `<endpoints>`. */
  lemma {:induction false} PushedHead(eps: seq<Endpoint>)
    ensures |Pushed(eps)| >= 2 && Pushed(eps)[0] == Declaration && Pushed(eps)[1] == "\n<endpoints>"
  {
    if |eps| > 0 {
      PushedHead(eps[..|eps| - 1]);
    }
  }

  /** The concatenation starts with the concatenation of any prefix. */
  lemma {:induction false} ConcatPrefix(ps: seq<string>, n: nat)
    requires n <= |ps|
    ensures StartsWith(Concat(ps), Concat(ps[..n]))
    decreases |ps|
  {
    if n < |ps| {
      var q := ps[..|ps| - 1];
      assert q[..n] == ps[..n];
      ConcatPrefix(q, n);
      var x := Concat(q[..n]);
      assert (Concat(q) + ps[|ps| - 1])[..|x|] == Concat(q)[..|x|];
    } else {
      assert ps[..n] == ps;
    }
  }

  /** The lines one endpoint contributes to the document. */
  function EndpointXml(e: Endpoint): string {
    Concat(PushedEndpoint([], e))
  }

  /** The endpoint blocks, in input order. */
  function Blocks(eps: seq<Endpoint>): string {
    if |eps| == 0 then "" else Blocks(eps[..|eps| - 1]) + EndpointXml(eps[|eps| - 1])
  }

  lemma {:induction false} ConcatAppend(a: seq<string>, b: seq<string>)
    ensures Concat(a + b) == Concat(a) + Concat(b)
    decreases |b|
  {
    if |b| == 0 {
      assert a + b == a;
    } else {
      var q := b[..|b| - 1];
      assert a + b == (a + q) + [b[|b| - 1]];
      assert b == q + [b[|b| - 1]];
      ConcatSnoc(a + q, b[|b| - 1]);
      ConcatSnoc(q, b[|b| - 1]);
      ConcatAppend(a, q);
    }
  }

  /** What one endpoint pushes does not depend on what was pushed before it. */
  lemma PushedEndpointAfter(pre: seq<string>, e: Endpoint)
    ensures PushedEndpoint(pre, e) == pre + PushedEndpoint([], e)
  {
  }

  /** The pushes so far are the head followed by the endpoint blocks. */
  lemma {:induction false} PushedBlocks(eps: seq<Endpoint>)
    ensures Concat(Pushed(eps)) == Declaration + "\n<endpoints>" + Blocks(eps)
  {
    if |eps| == 0 {
      HeadText();
    } else {
      var q := eps[..|eps| - 1];
      var x := PushedEndpoint([], eps[|eps| - 1]);
      PushedBlocks(q);
      PushedEndpointAfter(Pushed(q), eps[|eps| - 1]);
      ConcatAppend(Pushed(q), x);
      Associative(Declaration + "\n<endpoints>", Blocks(q), Concat(x));
    }
  }

  lemma Associative(a: string, b: string, c: string)
    ensures (a + b) + c == a + (b + c)
  {
  }

  lemma HeadText()
    ensures Concat([Declaration, "\n<endpoints>"]) == Declaration + "\n<endpoints>" + ""
  {
    assert [Declaration, "\n<endpoints>"] == [Declaration] + ["\n<endpoints>"];
    ConcatSnoc([Declaration], "\n<endpoints>");
    assert Concat([Declaration]) == "" + Declaration == Declaration;
  }

  /**
   * The document is the declaration, `<endpoints>`, one block per endpoint in
   * input order, and `</endpoints>`.
   */
  lemma DocumentBlocks(eps: seq<Endpoint>)
    ensures Document(eps) == Declaration + "\n<endpoints>" + Blocks(eps) + "\n</endpoints>"
  {
    PushedBlocks(eps);
    ConcatSnoc(Pushed(eps), "\n</endpoints>");
  }

  /** An endpoint block holds exactly one `<endpoint>` tag. */
  lemma EndpointXmlTags(e: Endpoint)
    ensures TagCount(EndpointXml(e), 'e') == 1
  {
    PushedEndpointTags([], e, 'e');
  }

  /** An endpoint block opens with `<endpoint>` and the endpoint's `<url>` line. */
  lemma EndpointXmlStarts(e: Endpoint)
    ensures StartsWith(EndpointXml(e), "\n  <endpoint>" + Element("url", EscapeXml(e.url)))
  {
    var o := "\n  <endpoint>";
    var u := Element("url", EscapeXml(e.url));
    var a := [o, u];
    assert Concat(a) == o + u by {
      assert a == [o] + [u];
      ConcatSnoc([o], u);
      assert Concat([o]) == "" + o == o;
    }
    assert PushedEndpoint([], e)[..2] == a;
    ConcatPrefix(PushedEndpoint([], e), 2);
  }

  /** An endpoint block closes with `</endpoint>`. */
  lemma EndpointXmlEnds(e: Endpoint)
    ensures EndsWith(EndpointXml(e), "\n  </endpoint>")
  {
    var ps := PushedEndpoint([], e);
    var f := ps[..|ps| - 1];
    assert ps == f + ["\n  </endpoint>"];
    ConcatSnoc(f, "\n  </endpoint>");
    var w := Concat(f);
    assert (w + "\n  </endpoint>")[|w|..] == "\n  </endpoint>";
  }

  /** The document opens with the declaration and `<endpoints>` and closes with `</endpoints>`. */
  lemma DocumentFrame(eps: seq<Endpoint>)
    ensures StartsWith(Document(eps), Declaration + "\n<endpoints>")
    ensures EndsWith(Document(eps), "\n</endpoints>")
  {
    var h, b, t := Declaration + "\n<endpoints>", Blocks(eps), "\n</endpoints>";
    DocumentBlocks(eps);
    assert (h + b + t)[..|h|] == h;
    assert (h + b + t)[|h + b|..] == t;
  }

  lemma ElementOpens(tag: string, text: string)
    ensures Contains(Element(tag, text), "<" + tag + ">")
  {
    var o := "<" + tag + ">";
    var r := text + "</" + tag + ">";
    assert Element(tag, text) == "\n    " + o + r;
    assert ("\n    " + o + r)[5..5 + |o|] == o;
    assert OccursAt(Element(tag, text), o, 5);
    ContainsIff(Element(tag, text), o);
  }

  /** Later pushes keep what is already written. */
  lemma PushKeeps(ps: seq<string>, q: string, p: string)
    requires Contains(Concat(ps), p)
    ensures Contains(Concat(ps + [q]), p)
  {
    ConcatSnoc(ps, q);
    ContainsAppend(Concat(ps), q, p);
  }

  lemma PushedEndpointKeeps(pre: seq<string>, e: Endpoint, p: string)
    requires Contains(Concat(pre), p)
    ensures Contains(Concat(PushedEndpoint(pre, e)), p)
  {
    var a0 := pre + ["\n  <endpoint>"];
    var a := a0 + [Element("url", EscapeXml(e.url))];
    var b := if e.httpMethod.Some? then a + [Element("method", EscapeXml(e.httpMethod.value))] else a;
    var d := b + [Element("type", DebugName(e.endpointType))];
    var f := if e.source.Some? then d + [Element("source", EscapeXml(e.source.value))] else d;
    PushKeeps(pre, "\n  <endpoint>", p);
    PushKeeps(a0, Element("url", EscapeXml(e.url)), p);
    if e.httpMethod.Some? {
      PushKeeps(a, Element("method", EscapeXml(e.httpMethod.value)), p);
    }
    PushKeeps(b, Element("type", DebugName(e.endpointType)), p);
    if e.source.Some? {
      PushKeeps(d, Element("source", EscapeXml(e.source.value)), p);
    }
    PushKeeps(f, "\n  </endpoint>", p);
  }

  /** An element line, once pushed, is in the text. */
  lemma PushOpens(ps: seq<string>, tag: string, text: string)
    ensures Contains(Concat(ps + [Element(tag, text)]), "<" + tag + ">")
  {
    ElementOpens(tag, text);
    ConcatSnoc(ps, Element(tag, text));
    ContainsAppend(Element(tag, text), Concat(ps), "<" + tag + ">");
  }

  /** An endpoint with a method writes a `<method>` line. */
  lemma PushedEndpointMethod(pre: seq<string>, e: Endpoint)
    requires e.httpMethod.Some?
    ensures Contains(Concat(PushedEndpoint(pre, e)), "<method>")
  {
    var a := pre + ["\n  <endpoint>"] + [Element("url", EscapeXml(e.url))];
    var b := a + [Element("method", EscapeXml(e.httpMethod.value))];
    var d := b + [Element("type", DebugName(e.endpointType))];
    var f := if e.source.Some? then d + [Element("source", EscapeXml(e.source.value))] else d;
    PushOpens(a, "method", EscapeXml(e.httpMethod.value));
    assert "<" + "method" + ">" == "<method>";
    PushKeeps(b, Element("type", DebugName(e.endpointType)), "<method>");
    if e.source.Some? {
      PushKeeps(d, Element("source", EscapeXml(e.source.value)), "<method>");
    }
    PushKeeps(f, "\n  </endpoint>", "<method>");
  }

  /** An endpoint with a source writes a `<source>` line. */
  lemma PushedEndpointSource(pre: seq<string>, e: Endpoint)
    requires e.source.Some?
    ensures Contains(Concat(PushedEndpoint(pre, e)), "<source>")
  {
    var a := pre + ["\n  <endpoint>"] + [Element("url", EscapeXml(e.url))];
    var b := if e.httpMethod.Some? then a + [Element("method", EscapeXml(e.httpMethod.value))] else a;
    var d := b + [Element("type", DebugName(e.endpointType))];
    var f := d + [Element("source", EscapeXml(e.source.value))];
    PushOpens(d, "source", EscapeXml(e.source.value));
    assert "<" + "source" + ">" == "<source>";
    PushKeeps(f, "\n  </endpoint>", "<source>");
  }

  /** The pushes for endpoint k, and all later ones, keep its `<method>`/`<source>` line. */
  lemma {:induction false} PushedHolds(eps: seq<Endpoint>, k: nat, p: string)
    requires k < |eps|
    requires (eps[k].httpMethod.Some? && p == "<method>") || (eps[k].source.Some? && p == "<source>")
    ensures Contains(Concat(Pushed(eps)), p)
  {
    var q := eps[..|eps| - 1];
    if k == |eps| - 1 {
      if p == "<method>" && eps[k].httpMethod.Some? {
        PushedEndpointMethod(Pushed(q), eps[k]);
      } else {
        PushedEndpointSource(Pushed(q), eps[k]);
      }
    } else {
      assert q[k] == eps[k];
      PushedHolds(q, k, p);
      PushedEndpointKeeps(Pushed(q), eps[|eps| - 1], p);
    }
  }

  /**
   * The document has a `<method>` element exactly when some endpoint has a
   * method, and a `<source>` element exactly when some endpoint has a source.
   */
  lemma DocumentElements(eps: seq<Endpoint>)
    ensures Contains(Document(eps), "<method>") <==> exists k :: 0 <= k < |eps| && eps[k].httpMethod.Some?
    ensures Contains(Document(eps), "<source>") <==> exists k :: 0 <= k < |eps| && eps[k].source.Some?
  {
    DocumentMethods(eps);
    DocumentSources(eps);
  }

  lemma DocumentMethods(eps: seq<Endpoint>)
    ensures Contains(Document(eps), "<method>") <==> exists k :: 0 <= k < |eps| && eps[k].httpMethod.Some?
  {
    DocumentTags(eps, 'm');
    PresentSome(eps, MethodOf);
    if Contains(Document(eps), "<method>") {
      ContainsTag(Document(eps), "<method>");
    }
    if exists k :: 0 <= k < |eps| && eps[k].httpMethod.Some? {
      var k :| 0 <= k < |eps| && eps[k].httpMethod.Some?;
      PushedHolds(eps, k, "<method>");
      PushKeeps(Pushed(eps), "\n</endpoints>", "<method>");
    }
  }

  lemma DocumentSources(eps: seq<Endpoint>)
    ensures Contains(Document(eps), "<source>") <==> exists k :: 0 <= k < |eps| && eps[k].source.Some?
  {
    DocumentTags(eps, 's');
    PresentSome(eps, SourceOf);
    if Contains(Document(eps), "<source>") {
      ContainsTag(Document(eps), "<source>");
    }
    if exists k :: 0 <= k < |eps| && eps[k].source.Some? {
      var k :| 0 <= k < |eps| && eps[k].source.Some?;
      PushedHolds(eps, k, "<source>");
      PushKeeps(Pushed(eps), "\n</endpoints>", "<source>");
    }
  }

  /** Text that contains a tag has a `<` followed by the tag's first letter. */
  lemma {:induction false} ContainsTag(s: string, tag: string)
    requires |tag| >= 2 && tag[0] == '<' && Contains(s, tag)
    ensures TagCount(s, tag[1]) > 0
    decreases |s|
  {
    if StartsWith(s, tag) {
      assert s[0] == tag[0] && s[1] == tag[1];
    } else {
      ContainsTag(s[1..], tag);
      assert s == [s[0]] + s[1..];
      TagsShift([s[0]], s[1..], 0, tag[1]);
    }
  }
}
