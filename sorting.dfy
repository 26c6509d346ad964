/**
 * String ordering and sorting. Rust orders `String`s by their UTF-8 bytes and
 * Python orders `str`s by code points; both orders are the lexicographic
 * order on Unicode scalar values, defined here as `Less`.
 * `Sort` is `Vec::sort` / `sorted`, `DedupAdjacent` is `Vec::dedup`.
 */
module Sorting {

  /** Lexicographic strict order: a proper prefix comes first, otherwise the first differing character decides. */
  predicate Less(a: string, b: string)
    decreases |a|
  {
    |b| > 0 && (|a| == 0 || a[0] < b[0] || (a[0] == b[0] && Less(a[1..], b[1..])))
  }

  predicate LessEq(a: string, b: string) {
    a == b || Less(a, b)
  }

  lemma {:induction false} LessIrreflexive(a: string)
    ensures !Less(a, a)
    decreases |a|
  {
    if |a| > 0 { LessIrreflexive(a[1..]); }
  }

  lemma {:induction false} LessTransitive(a: string, b: string, c: string)
    requires Less(a, b) && Less(b, c)
    ensures Less(a, c)
    decreases |a|
  {
    if |a| > 0 && a[0] == b[0] && b[0] == c[0] {
      LessTransitive(a[1..], b[1..], c[1..]);
    }
  }

  lemma {:induction false} LessTotal(a: string, b: string)
    ensures a == b || Less(a, b) || Less(b, a)
    decreases |a|
  {
    if |a| > 0 && |b| > 0 && a[0] == b[0] {
      LessTotal(a[1..], b[1..]);
      if a[1..] == b[1..] {
        assert a == [a[0]] + a[1..] && b == [b[0]] + b[1..];
      }
    }
  }

  lemma LessAsymmetric(a: string, b: string)
    requires Less(a, b)
    ensures !Less(b, a) && a != b
  {
    if Less(b, a) {
      LessTransitive(a, b, a);
      LessIrreflexive(a);
    }
    if a == b { LessIrreflexive(a); }
  }

  lemma LessEqTotal(a: string, b: string)
    ensures LessEq(a, b) || LessEq(b, a)
  {
    LessTotal(a, b);
  }

  lemma LessEqTransitive(a: string, b: string, c: string)
    requires LessEq(a, b) && LessEq(b, c)
    ensures LessEq(a, c)
  {
    if a != b && b != c { LessTransitive(a, b, c); }
  }

  /** Non-decreasing. */
  ghost predicate Sorted(s: seq<string>) {
    forall i, j :: 0 <= i < j < |s| ==> LessEq(s[i], s[j])
  }

  /** Strictly increasing, hence free of duplicates. */
  ghost predicate StrictlySorted(s: seq<string>) {
    forall i, j :: 0 <= i < j < |s| ==> Less(s[i], s[j])
  }

  lemma StrictlySortedDistinct(s: seq<string>)
    requires StrictlySorted(s)
    ensures forall i, j :: 0 <= i < j < |s| ==> s[i] != s[j]
  {
    forall i, j | 0 <= i < j < |s| ensures s[i] != s[j] { LessAsymmetric(s[i], s[j]); }
  }

  /** Places x in front of the first element it does not exceed. */
  function Insert(s: seq<string>, x: string): (r: seq<string>)
    ensures multiset(r) == multiset(s) + multiset{x}
    ensures |r| == |s| + 1
  {
    if |s| == 0 then [x]
    else if LessEq(x, s[0]) then [x] + s
    else
      var r := [s[0]] + Insert(s[1..], x);
      assert s == [s[0]] + s[1..];
      r
  }

  lemma {:induction false} InsertSorted(s: seq<string>, x: string)
    requires Sorted(s)
    ensures Sorted(Insert(s, x))
  {
    if |s| > 0 {
      if LessEq(x, s[0]) {
        forall j | 0 <= j < |s| ensures LessEq(x, s[j]) {
          if j > 0 { LessEqTransitive(x, s[0], s[j]); }
        }
        ConsSorted(x, s);
      } else {
        assert Sorted(s[1..]);
        InsertSorted(s[1..], x);
        LessEqTotal(x, s[0]);
        InsertBound(s[1..], x, s[0]);
        ConsSorted(s[0], Insert(s[1..], x));
      }
    }
  }

  /** A head no greater than any element of a sorted tail keeps it sorted. */
  lemma ConsSorted(h: string, t: seq<string>)
    requires Sorted(t) && forall j :: 0 <= j < |t| ==> LessEq(h, t[j])
    ensures Sorted([h] + t)
  {
    forall i, j | 0 <= i < j < |t| + 1 ensures LessEq(([h] + t)[i], ([h] + t)[j]) {
      assert ([h] + t)[j] == t[j - 1];
      if i > 0 { assert ([h] + t)[i] == t[i - 1]; }
    }
  }

  /** A lower bound of s and of x bounds every element after the insertion. */
  lemma InsertBound(s: seq<string>, x: string, b: string)
    requires LessEq(b, x) && forall k :: 0 <= k < |s| ==> LessEq(b, s[k])
    ensures forall j :: 0 <= j < |Insert(s, x)| ==> LessEq(b, Insert(s, x)[j])
  {
    var t := Insert(s, x);
    forall j | 0 <= j < |t| ensures LessEq(b, t[j]) {
      assert t[j] in multiset(t);
      if t[j] != x {
        assert t[j] in multiset(s);
        var k :| 0 <= k < |s| && s[k] == t[j];
      }
    }
  }

  /** `Vec::sort` / `sorted`: insertion sort. */
  function Sort(s: seq<string>): (r: seq<string>)
    ensures multiset(r) == multiset(s) && |r| == |s|
  {
    if |s| == 0 then [] else
      assert s == s[..|s| - 1] + [s[|s| - 1]];
      Insert(Sort(s[..|s| - 1]), s[|s| - 1])
  }

  lemma {:induction false} SortSorted(s: seq<string>)
    ensures Sorted(Sort(s))
  {
    if |s| > 0 {
      SortSorted(s[..|s| - 1]);
      InsertSorted(Sort(s[..|s| - 1]), s[|s| - 1]);
    }
  }

  lemma SortedHeadLeast(a: seq<string>, x: string)
    requires Sorted(a) && x in multiset(a)
    ensures LessEq(a[0], x)
  {
    var j :| 0 <= j < |a| && a[j] == x;
  }

  lemma SortedTail(a: seq<string>)
    requires |a| > 0
    ensures multiset(a[1..]) == multiset(a) - multiset{a[0]}
  {
    assert a == [a[0]] + a[1..];
  }

  /** Two sorted sequences holding the same multiset are the same sequence. */
  lemma {:induction false} SortedUnique(a: seq<string>, b: seq<string>)
    requires Sorted(a) && Sorted(b) && multiset(a) == multiset(b)
    ensures a == b
  {
    if |a| == 0 {
      assert |b| == |multiset(b)|;
    } else {
      SortedHeads(a, b);
      SortedTail(a);
      SortedTail(b);
      SortedDrop(a);
      SortedDrop(b);
      SortedUnique(a[1..], b[1..]);
      assert a == [a[0]] + a[1..] && b == [b[0]] + b[1..];
    }
  }

  /** Sorted sequences with the same multiset start alike. */
  lemma SortedHeads(a: seq<string>, b: seq<string>)
    requires Sorted(a) && Sorted(b) && multiset(a) == multiset(b) && |a| > 0
    ensures |b| > 0 && a[0] == b[0]
  {
    assert a[0] in multiset(a);
    assert b[0] in multiset(b);
    SortedHeadLeast(a, b[0]);
    SortedHeadLeast(b, a[0]);
    if a[0] != b[0] { LessAsymmetric(a[0], b[0]); }
  }

  lemma SortedDrop(a: seq<string>)
    requires Sorted(a) && |a| > 0
    ensures Sorted(a[1..])
  {
    forall i, j | 0 <= i < j < |a| - 1 ensures LessEq(a[1..][i], a[1..][j]) {
      assert a[1..][i] == a[i + 1] && a[1..][j] == a[j + 1];
    }
  }

  /** Sorting depends only on the multiset of the input. */
  lemma SortPermutationInvariant(a: seq<string>, b: seq<string>)
    requires multiset(a) == multiset(b)
    ensures Sort(a) == Sort(b)
  {
    SortSorted(a);
    SortSorted(b);
    SortedUnique(Sort(a), Sort(b));
  }

  /** `Vec::dedup`: drops an element equal to its predecessor. */
  function DedupAdjacent(s: seq<string>): (r: seq<string>)
    ensures forall x :: x in r <==> x in s
    ensures |r| <= |s|
    ensures |s| > 0 ==> |r| > 0 && r[0] == s[0]
  {
    if |s| <= 1 then s
    else if s[0] == s[1] then
      var r := DedupAdjacent(s[1..]);
      assert s == [s[0]] + s[1..];
      r
    else
      var r := [s[0]] + DedupAdjacent(s[1..]);
      assert s == [s[0]] + s[1..];
      r
  }

  lemma {:induction false} DedupSortedStrict(s: seq<string>)
    requires Sorted(s)
    ensures StrictlySorted(DedupAdjacent(s))
  {
    if |s| > 1 {
      assert Sorted(s[1..]);
      DedupSortedStrict(s[1..]);
      var t := DedupAdjacent(s[1..]);
      if s[0] != s[1] {
        forall j | 0 < j < |t| + 1 ensures Less(s[0], ([s[0]] + t)[j]) {
          assert Less(s[0], s[1]);
          if j > 1 {
            assert Less(t[0], t[j - 1]);
            LessTransitive(s[0], s[1], t[j - 1]);
          }
        }
        forall i, j | 0 <= i < j < |t| + 1 ensures Less(([s[0]] + t)[i], ([s[0]] + t)[j]) {
          if i > 0 { assert ([s[0]] + t)[i] == t[i - 1]; }
        }
      }
    }
  }

  /** Sort followed by dedup: the strictly increasing listing of the distinct elements. */
  lemma SortDedupSpec(s: seq<string>)
    ensures StrictlySorted(DedupAdjacent(Sort(s)))
    ensures forall x :: x in DedupAdjacent(Sort(s)) <==> x in s
  {
    SortSorted(s);
    DedupSortedStrict(Sort(s));
    forall x ensures x in Sort(s) <==> x in s {
      assert x in Sort(s) <==> x in multiset(Sort(s));
      assert x in s <==> x in multiset(s);
    }
  }
}
