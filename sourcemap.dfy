/**
 * src/parser/sourcemap.rs: the url of the last `sourceMappingURL=` comment of
 * a script, and the sourcemap parser placeholder.
 */
module Sourcemap {
  import opened Wrappers
  import opened Strings
  import opened Errors

  const Marker: string := "sourceMappingURL="

  /** The url a line announces: the trimmed text after the first marker in it. */
  function UrlIn(line: string): (r: Option<string>)
    ensures r.None? <==> !Contains(line, Marker)
  {
    match Find(line, Marker)
    case None => None
    case Some(i) => Some(Trim(line[i + 17..]))
  }

  /** The url announced by the last line holding the marker. */
  function LastUrl(lines: seq<string>): Option<string> {
    if |lines| == 0 then None
    else if UrlIn(lines[|lines| - 1]).Some? then UrlIn(lines[|lines| - 1])
    else LastUrl(lines[..|lines| - 1])
  }

  /** `extract_sourcemap_url`: walk the lines from the last, return at the first one holding the marker. */
  method ExtractSourcemapUrl(content: string) returns (r: Option<string>)
    ensures r == LastUrl(Lines(content))
  {
    var lines := Lines(content);
    var i := |lines|;
    assert lines[..i] == lines;
    while i > 0
      invariant 0 <= i <= |lines|
      invariant LastUrl(lines) == LastUrl(lines[..i])
    {
      var line := lines[i - 1];
      LastUrlStep(lines, i);
      var start := Find(line, Marker);
      if start.Some? {
        return Some(Trim(line[start.value + 17..]));
      }
      i := i - 1;
    }
    return None;
  }

  /** One turn of the loop: the last line of the prefix decides, or the shorter prefix does. */
  lemma LastUrlStep(lines: seq<string>, i: nat)
    requires 0 < i <= |lines|
    ensures UrlIn(lines[i - 1]).Some? ==> LastUrl(lines[..i]) == UrlIn(lines[i - 1])
    ensures UrlIn(lines[i - 1]).None? ==> LastUrl(lines[..i]) == LastUrl(lines[..i - 1])
  {
    assert lines[..i][i - 1] == lines[i - 1];
    assert lines[..i][..i - 1] == lines[..i - 1];
  }

  /** No url exactly when no line holds the marker. */
  lemma {:induction false} LastUrlNone(lines: seq<string>)
    ensures LastUrl(lines).None? <==> forall k :: 0 <= k < |lines| ==> !Contains(lines[k], Marker)
  {
    if |lines| > 0 {
      var p := lines[..|lines| - 1];
      LastUrlNone(p);
      assert forall k :: 0 <= k < |p| ==> p[k] == lines[k];
    }
  }

  /** A url found is the one of a line holding the marker, with no later line holding it. */
  lemma {:induction false} LastUrlIsLast(lines: seq<string>)
    requires LastUrl(lines).Some?
    ensures exists k :: (0 <= k < |lines| && LastUrl(lines) == UrlIn(lines[k])
      && forall k' :: k < k' < |lines| ==> !Contains(lines[k'], Marker))
  {
    var n := |lines| - 1;
    if UrlIn(lines[n]).Some? {
      assert LastUrl(lines) == UrlIn(lines[n]);
    } else {
      var p := lines[..n];
      LastUrlIsLast(p);
      var k :| 0 <= k < |p| && LastUrl(p) == UrlIn(p[k]) && forall k' :: k < k' < |p| ==> !Contains(p[k'], Marker);
      assert p[k] == lines[k];
      assert forall k' :: k < k' < |lines| ==> !Contains(lines[k'], Marker) by {
        forall k' | k < k' < |lines| ensures !Contains(lines[k'], Marker) {
          if k' < n {
            assert p[k'] == lines[k'];
          }
        }
      }
    }
  }

  /** The url is a slice of one line: it holds no line break, and it has no white space at either end. */
  lemma UrlInShape(line: string)
    requires '\n' !in line && UrlIn(line).Some?
    ensures '\n' !in UrlIn(line).value
    ensures var u := UrlIn(line).value; |u| > 0 ==> !IsWhitespace(u[0]) && !IsWhitespace(u[|u| - 1])
  {
    var i := Find(line, Marker).value;
    var rest := line[i + 17..];
    if '\n' in Trim(rest) {
      TrimByChars(rest, IsWhitespace, '\n');
      assert false;
    }
  }

  /** The url of a whole script holds no line break. */
  lemma {:induction false} LastUrlOneLine(lines: seq<string>)
    requires forall k :: 0 <= k < |lines| ==> '\n' !in lines[k]
    requires LastUrl(lines).Some?
    ensures '\n' !in LastUrl(lines).value
  {
    LastUrlIsLast(lines);
    var k :| 0 <= k < |lines| && LastUrl(lines) == UrlIn(lines[k]);
    UrlInShape(lines[k]);
  }

  /** `parse_sourcemap`: a placeholder that succeeds with nothing. */
  function ParseSourcemap(content: string): (r: Result<Option<seq<string>>, Error>)
    ensures r.Ok? && r.value.None?
  {
    Ok(None)
  }
}
