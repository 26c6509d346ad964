/**
 * The string operations of the Rust and Python standard libraries that the
 * endpoint finder relies on (`contains`, `starts_with`, `find`, `split`,
 * `lines`, `trim`, `trim_matches`, `rstrip`, `replace`, `to_uppercase`),
 * stated over sequences of Unicode scalar values.
 */
module Strings {
  import opened Wrappers

  /** `haystack.starts_with(p)` */
  predicate StartsWith(s: string, p: string) {
    |p| <= |s| && s[..|p|] == p
  }

  /** `haystack.ends_with(p)` */
  predicate EndsWith(s: string, p: string) {
    |p| <= |s| && s[|s| - |p|..] == p
  }

  /** `haystack.contains(p)`: p occurs at some position (the empty p always does). */
  predicate Contains(s: string, p: string)
    decreases |s|
  {
    StartsWith(s, p) || (|s| > 0 && Contains(s[1..], p))
  }

  /** The positions at which p occurs in s. */
  ghost predicate OccursAt(s: string, p: string, i: int) {
    0 <= i && i + |p| <= |s| && s[i..i + |p|] == p
  }

  lemma OccursShift(s: string, p: string, j: int)
    requires |s| > 0 && j >= 1
    ensures OccursAt(s, p, j) <==> OccursAt(s[1..], p, j - 1)
  {
    if j + |p| <= |s| {
      assert s[j..j + |p|] == s[1..][j - 1..j - 1 + |p|];
    }
  }

  lemma {:induction false} ContainsIff(s: string, p: string)
    ensures Contains(s, p) <==> exists i :: OccursAt(s, p, i)
    decreases |s|
  {
    if StartsWith(s, p) {
      assert OccursAt(s, p, 0);
    } else if |s| > 0 {
      ContainsIff(s[1..], p);
      if exists i :: OccursAt(s[1..], p, i) {
        var i :| OccursAt(s[1..], p, i);
        OccursShift(s, p, i + 1);
      }
      if exists i :: OccursAt(s, p, i) {
        var i :| OccursAt(s, p, i);
        if i > 0 {
          OccursShift(s, p, i);
        }
      }
    }
  }

  /** A string that contains p has every character of p. */
  lemma {:induction false} ContainsHasChars(s: string, p: string, k: nat)
    requires Contains(s, p) && k < |p|
    ensures p[k] in s
  {
    ContainsIff(s, p);
    var i :| OccursAt(s, p, i);
    assert s[i..i + |p|][k] == s[i + k];
  }

  /** A prefix of a string is contained in it, and containment survives appending. */
  lemma {:induction false} ContainsAppend(s: string, t: string, p: string)
    requires Contains(s, p)
    ensures Contains(s + t, p) && Contains(t + s, p)
  {
    ContainsIff(s, p);
    var i :| OccursAt(s, p, i);
    assert (s + t)[i..i + |p|] == s[i..i + |p|];
    assert OccursAt(s + t, p, i);
    assert (t + s)[|t| + i..|t| + i + |p|] == s[i..i + |p|];
    assert OccursAt(t + s, p, |t| + i);
    ContainsIff(s + t, p);
    ContainsIff(t + s, p);
  }

  /** `s.find(c)` for a character: the first index of c. */
  function FindChar(s: string, c: char): (r: Option<nat>)
    ensures r.None? <==> c !in s
    ensures r.Some? ==> r.value < |s| && s[r.value] == c && c !in s[..r.value]
  {
    if |s| == 0 then None
    else if s[0] == c then Some(0)
    else match FindChar(s[1..], c)
      case None => None
      case Some(i) => assert s[..i + 1] == [s[0]] + s[1..][..i]; Some(i + 1)
  }

  /** `s.find(p)` for a string pattern: the first index at which p occurs. */
  function Find(s: string, p: string): (r: Option<nat>)
    ensures r.None? <==> !Contains(s, p)
    ensures r.Some? ==> r.value + |p| <= |s| && s[r.value..r.value + |p|] == p
    ensures r.Some? ==> forall j :: 0 <= j < r.value ==> !OccursAt(s, p, j)
    decreases |s|
  {
    if StartsWith(s, p) then Some(0)
    else if |s| == 0 then None
    else match Find(s[1..], p)
      case None => None
      case Some(i) =>
        assert s[i + 1..i + 1 + |p|] == s[1..][i..i + |p|];
        assert forall j :: 1 <= j < i + 1 ==> !OccursAt(s, p, j) by {
          forall j | 1 <= j < i + 1 ensures !OccursAt(s, p, j) { OccursShift(s, p, j); }
        }
        Some(i + 1)
  }

  /** `s.split(c)`: the pieces between occurrences of c; there is always one more piece than separator. */
  function Split(s: string, c: char): (r: seq<string>)
    ensures |r| >= 1
    ensures forall k :: 0 <= k < |r| ==> c !in r[k]
    decreases |s|
  {
    match FindChar(s, c)
    case None => [s]
    case Some(i) => [s[..i]] + Split(s[i + 1..], c)
  }

  /** Putting the separator back between the pieces. */
  function Join(pieces: seq<string>, sep: string): (r: string)
  {
    if |pieces| == 0 then ""
    else if |pieces| == 1 then pieces[0]
    else pieces[0] + sep + Join(pieces[1..], sep)
  }

  lemma {:induction false} SplitJoin(s: string, c: char)
    ensures Join(Split(s, c), [c]) == s
    decreases |s|
  {
    match FindChar(s, c)
    case None =>
    case Some(i) =>
      var rest := Split(s[i + 1..], c);
      assert Split(s, c) == [s[..i]] + rest;
      SplitJoin(s[i + 1..], c);
      assert ([s[..i]] + rest)[1..] == rest;
      assert Join([s[..i]] + rest, [c]) == s[..i] + [c] + Join(rest, [c]);
      assert s == s[..i] + [c] + s[i + 1..];
  }

  /** `s.split(c).next()`: the text before the first c (all of s when there is none). */
  function TakeUntil(s: string, c: char): (r: string)
    ensures c !in r && StartsWith(s, r)
    ensures c in s ==> |r| < |s| && s[|r|] == c
  {
    Split(s, c)[0]
  }

  /** Unicode White_Space, which Rust's `char::is_whitespace` and the regex class `\s` use. */
  predicate IsWhitespace(c: char) {
    var n := c as int;
    (0x09 <= n <= 0x0D) || n == 0x20 || n == 0x85 || n == 0xA0 || n == 0x1680
    || (0x2000 <= n <= 0x200A) || n == 0x2028 || n == 0x2029 || n == 0x202F
    || n == 0x205F || n == 0x3000
  }

  /** Python's `str.isspace`: White_Space plus the four information separators U+001C..U+001F. */
  predicate IsPySpace(c: char) {
    IsWhitespace(c) || (0x1C <= c as int <= 0x1F)
  }

  /** Drops the leading characters satisfying `strip`. */
  function TrimStartBy(s: string, strip: char -> bool): (r: string)
    ensures |r| <= |s|
    ensures |r| > 0 ==> !strip(r[0])
  {
    if |s| > 0 && strip(s[0]) then TrimStartBy(s[1..], strip) else s
  }

  /** What TrimStartBy leaves is a suffix of the input, and everything before it was stripped. */
  lemma {:induction false} TrimStartBySuffix(s: string, strip: char -> bool)
    ensures var r := TrimStartBy(s, strip);
      r == s[|s| - |r|..] && forall k :: 0 <= k < |s| - |r| ==> strip(s[k])
  {
    if |s| > 0 && strip(s[0]) {
      TrimStartBySuffix(s[1..], strip);
    }
  }

  /** Drops the trailing characters satisfying `strip`. */
  function TrimEndBy(s: string, strip: char -> bool): (r: string)
    ensures |r| <= |s|
    ensures |r| > 0 ==> !strip(r[|r| - 1])
  {
    if |s| > 0 && strip(s[|s| - 1]) then TrimEndBy(s[..|s| - 1], strip) else s
  }

  /** What TrimEndBy leaves is a prefix of the input, and everything after it was stripped. */
  lemma {:induction false} TrimEndByPrefix(s: string, strip: char -> bool)
    ensures var r := TrimEndBy(s, strip);
      r == s[..|r|] && forall k :: |r| <= k < |s| ==> strip(s[k])
  {
    if |s| > 0 && strip(s[|s| - 1]) {
      TrimEndByPrefix(s[..|s| - 1], strip);
    }
  }

  /** The number of leading characters satisfying `strip`. */
  function Lead(s: string, strip: char -> bool): (n: nat)
    ensures n <= |s| && (forall k :: 0 <= k < n ==> strip(s[k]))
    ensures n < |s| ==> !strip(s[n])
  {
    if |s| > 0 && strip(s[0]) then 1 + Lead(s[1..], strip) else 0
  }

  /** TrimStartBy drops exactly the leading run. */
  lemma {:induction false} TrimStartLead(s: string, strip: char -> bool)
    ensures TrimStartBy(s, strip) == s[Lead(s, strip)..]
  {
    if |s| > 0 && strip(s[0]) {
      TrimStartLead(s[1..], strip);
      assert s[1..][Lead(s[1..], strip)..] == s[Lead(s, strip)..];
    }
  }

  /** `trim_matches` / `strip`: both ends; what is left neither starts nor ends with a stripped character. */
  function TrimBy(s: string, strip: char -> bool): (r: string)
    ensures |r| <= |s|
    ensures |r| > 0 ==> !strip(r[0]) && !strip(r[|r| - 1])
  {
    var t := TrimStartBy(s, strip);
    TrimEndByPrefix(t, strip);
    TrimEndBy(t, strip)
  }

  /**
   * TrimBy removes exactly the leading run of stripped characters and the
   * trailing run: what is left is the input after its leading run, cut where
   * only stripped characters follow.
   */
  lemma TrimByExact(s: string, strip: char -> bool)
    ensures var a, r := Lead(s, strip), TrimBy(s, strip);
      a + |r| <= |s| && r == s[a..a + |r|] && forall k :: a + |r| <= k < |s| ==> strip(s[k])
  {
    var t := TrimStartBy(s, strip);
    TrimStartLead(s, strip);
    TrimEndByPrefix(t, strip);
    var r := TrimEndBy(t, strip);
    var a := Lead(s, strip);
    assert r == s[a..a + |r|];
    forall k | a + |r| <= k < |s| ensures strip(s[k]) {
      assert s[k] == t[k - a];
    }
  }

  /** Trimming only removes characters: what is left is a slice of the input. */
  lemma TrimByChars(s: string, strip: char -> bool, c: char)
    requires c in TrimBy(s, strip)
    ensures c in s
  {
    var t := TrimStartBy(s, strip);
    var r := TrimEndBy(t, strip);
    TrimStartBySuffix(s, strip);
    TrimEndByPrefix(t, strip);
    var k :| 0 <= k < |r| && r[k] == c;
    assert r[k] == t[k] == s[|s| - |t| + k];
  }

  /** Rust `str::trim`. */
  function Trim(s: string): string {
    TrimBy(s, IsWhitespace)
  }

  /** Python `str.strip()` with no argument. */
  function PyStrip(s: string): string {
    TrimBy(s, IsPySpace)
  }

  /** Python `str.rstrip(c)` for one character. */
  function RStrip(s: string, c: char): (r: string)
    ensures StartsWith(s, r) && (|r| > 0 ==> r[|r| - 1] != c)
    ensures forall k :: |r| <= k < |s| ==> s[k] == c
  {
    if |s| > 0 && s[|s| - 1] == c then RStrip(s[..|s| - 1], c) else s
  }

  /** Rust `str::lines`: split at `\n`, drop one `\r` before each `\n`, no empty last line. */
  function Lines(s: string): (r: seq<string>)
    ensures forall k :: 0 <= k < |r| ==> '\n' !in r[k]
    ensures s == "" ==> r == []
    decreases |s|
  {
    if s == "" then []
    else match FindChar(s, '\n')
      case None => [s]
      case Some(i) =>
        var line := if i > 0 && s[i - 1] == '\r' then s[..i - 1] else s[..i];
        assert forall k :: 0 <= k < |line| ==> line[k] == s[k];
        [line] + Lines(s[i + 1..])
  }

  /** The number of bytes of the UTF-8 encoding of a character. */
  function Utf8Width(c: char): (w: nat)
    ensures 1 <= w <= 4
  {
    if c as int < 0x80 then 1 else if c as int < 0x800 then 2 else if c as int < 0x10000 then 3 else 4
  }

  /** Rust `str::len`: the UTF-8 length in bytes. */
  function ByteLen(s: string): (n: nat)
    ensures |s| <= n <= 4 * |s|
  {
    if |s| == 0 then 0 else Utf8Width(s[0]) + ByteLen(s[1..])
  }

  /** `s.replace(c, rep)` for a single character. */
  function ReplaceChar(s: string, c: char, rep: string): (r: string)
    ensures |r| >= |s| || |rep| == 0
  {
    if |s| == 0 then "" else (if s[0] == c then rep else [s[0]]) + ReplaceChar(s[1..], c, rep)
  }

  lemma {:induction false} ReplaceCharAppend(a: string, b: string, c: char, rep: string)
    ensures ReplaceChar(a + b, c, rep) == ReplaceChar(a, c, rep) + ReplaceChar(b, c, rep)
  {
    if |a| > 0 {
      assert (a + b)[1..] == a[1..] + b;
      ReplaceCharAppend(a[1..], b, c, rep);
    } else {
      assert a + b == b;
    }
  }

  /** A replacement with text that does not hold c leaves no c behind. */
  lemma {:induction false} ReplaceCharRemoves(s: string, c: char, rep: string, d: char)
    requires d !in rep && (d == c || d !in s)
    ensures d !in ReplaceChar(s, c, rep)
  {
    if |s| > 0 { ReplaceCharRemoves(s[1..], c, rep, d); }
  }

  /** ASCII upper-casing of one character; `to_uppercase` agrees on ASCII letters. */
  function UpperAscii(c: char): char {
    if 'a' <= c <= 'z' then (c as int - 32) as char else c
  }
}
