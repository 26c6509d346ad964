/**
 * src/parser/js_parser.rs: the AST parser placeholder and the minification
 * heuristic (average line length in bytes above 200).
 */
module JsParser {
  import opened Strings

  /** `JsParser::parse`: a placeholder that finds nothing. */
  function Parse(content: string): (r: seq<string>)
    ensures |r| == 0
  {
    []
  }

  /** `lines.iter().map(|l| l.len()).sum()`: the total byte length of the lines. */
  function TotalBytes(lines: seq<string>): nat {
    if |lines| == 0 then 0 else ByteLen(lines[0]) + TotalBytes(lines[1..])
  }

  /** `JsParser::is_minified`: false without lines, else the integer average is above 200. */
  function IsMinified(content: string): bool {
    var lines := Lines(content);
    if |lines| == 0 then false else TotalBytes(lines) / |lines| > 200
  }

  lemma MulMono(a: nat, b: nat, n: nat)
    requires a <= b
    ensures a * n <= b * n
  {
    assert b * n - a * n == (b - a) * n;
  }

  /** Integer division of a total by a positive count exceeds 200 exactly when the total reaches 201 per unit. */
  lemma AverageAbove(t: nat, n: nat)
    requires n > 0
    ensures t / n > 200 <==> t >= 201 * n
  {
    var q, r := t / n, t % n;
    assert t == q * n + r && 0 <= r < n;
    if q > 200 {
      MulMono(201, q, n);
    } else {
      MulMono(q, 200, n);
    }
  }

  /** The average exceeds 200 exactly when the total reaches 201 bytes per line. */
  lemma IsMinifiedIff(content: string)
    ensures IsMinified(content) <==> |Lines(content)| > 0 && TotalBytes(Lines(content)) >= 201 * |Lines(content)|
  {
    var lines := Lines(content);
    if |lines| > 0 {
      AverageAbove(TotalBytes(lines), |lines|);
    }
  }

  lemma MulSucc(a: nat, n: nat)
    ensures a * (n + 1) == a * n + a
  {
  }

  lemma {:induction false} TotalBytesAtMost(lines: seq<string>, hi: nat)
    requires forall k :: 0 <= k < |lines| ==> ByteLen(lines[k]) <= hi
    ensures TotalBytes(lines) <= hi * |lines|
  {
    if |lines| > 0 {
      var t := lines[1..];
      assert forall k :: 0 <= k < |t| ==> t[k] == lines[k + 1];
      TotalBytesAtMost(t, hi);
      MulSucc(hi, |t|);
    }
  }

  lemma {:induction false} TotalBytesAtLeast(lines: seq<string>, lo: nat)
    requires forall k :: 0 <= k < |lines| ==> ByteLen(lines[k]) >= lo
    ensures TotalBytes(lines) >= lo * |lines|
  {
    if |lines| > 0 {
      var t := lines[1..];
      assert forall k :: 0 <= k < |t| ==> t[k] == lines[k + 1];
      TotalBytesAtLeast(t, lo);
      MulSucc(lo, |t|);
    }
  }

  /** Content whose lines are all at most 200 bytes long is never minified. */
  lemma ShortLinesNotMinified(content: string)
    requires forall k :: 0 <= k < |Lines(content)| ==> ByteLen(Lines(content)[k]) <= 200
    ensures !IsMinified(content)
  {
    TotalBytesAtMost(Lines(content), 200);
    IsMinifiedIff(content);
  }

  /** Content with at least one line, every line over 200 bytes, is minified. */
  lemma LongLinesMinified(content: string)
    requires content != ""
    requires forall k :: 0 <= k < |Lines(content)| ==> ByteLen(Lines(content)[k]) > 200
    ensures IsMinified(content)
  {
    LinesNonEmpty(content);
    TotalBytesAtLeast(Lines(content), 201);
    IsMinifiedIff(content);
  }

  lemma LinesNonEmpty(content: string)
    requires content != ""
    ensures |Lines(content)| > 0
  {
  }

  /** A single line with no line break is minified exactly when it is over 200 bytes. */
  lemma OneLineMinified(content: string)
    requires content != "" && '\n' !in content
    ensures IsMinified(content) <==> ByteLen(content) > 200
  {
    assert Lines(content) == [content];
    assert TotalBytes([content]) == ByteLen(content);
  }
}
