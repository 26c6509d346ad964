/**
 * Sequence combinators that several parts of the endpoint finder share:
 * keep-if, keep-and-map, concatenation of a list of lists, and first-wins
 * de-duplication by a key. Each is defined by recursion on the last element,
 * matching loops that push onto a growing vector.
 */
module Seqs {
  import opened Wrappers

  /** a is obtained from b by deleting elements (order kept). */
  predicate IsSubsequence<T(==)>(a: seq<T>, b: seq<T>)
    decreases |b|
  {
    if |a| == 0 then true
    else if |b| == 0 then false
    else if a[|a| - 1] == b[|b| - 1] then IsSubsequence(a[..|a| - 1], b[..|b| - 1])
    else IsSubsequence(a, b[..|b| - 1])
  }

  lemma {:induction false} SubsequenceDropLast<T>(a: seq<T>, b: seq<T>)
    requires IsSubsequence(a, b) && |a| > 0
    ensures IsSubsequence(a[..|a| - 1], b)
    decreases |b|, 1
  {
    var a', b' := a[..|a| - 1], b[..|b| - 1];
    if a[|a| - 1] != b[|b| - 1] {
      SubsequenceDropLast(a, b');
    }
    SubsequenceExtend(a', b', b[|b| - 1]);
    assert b' + [b[|b| - 1]] == b;
  }

  /** A subsequence stays one when the longer sequence grows. */
  lemma {:induction false} SubsequenceExtend<T>(a: seq<T>, b: seq<T>, x: T)
    requires IsSubsequence(a, b)
    ensures IsSubsequence(a, b + [x])
    decreases |b|, 2
  {
    assert (b + [x])[..|b|] == b;
    if |a| > 0 && a[|a| - 1] == x {
      SubsequenceDropLast(a, b);
    }
  }

  lemma {:induction false} SubsequenceRefl<T>(a: seq<T>)
    ensures IsSubsequence(a, a)
  {
    if |a| > 0 { SubsequenceRefl(a[..|a| - 1]); }
  }

  /** Every element of a subsequence is an element of the whole. */
  lemma {:induction false} SubsequenceMembers<T>(a: seq<T>, b: seq<T>)
    requires IsSubsequence(a, b)
    ensures forall i :: 0 <= i < |a| ==> a[i] in b
    decreases |b|
  {
    if |a| > 0 && |b| > 0 {
      var b' := b[..|b| - 1];
      assert b == b' + [b[|b| - 1]];
      if a[|a| - 1] == b[|b| - 1] {
        SubsequenceMembers(a[..|a| - 1], b');
        assert a == a[..|a| - 1] + [a[|a| - 1]];
      } else {
        SubsequenceMembers(a, b');
      }
    }
  }

  /** The elements satisfying keep, in order (`retain`, `filter`). */
  function Filter<T>(s: seq<T>, keep: T -> bool): (r: seq<T>)
    ensures |r| <= |s|
    ensures forall i :: 0 <= i < |r| ==> r[i] in s && keep(r[i])
    ensures forall i :: 0 <= i < |s| && keep(s[i]) ==> s[i] in r
  {
    if |s| == 0 then []
    else
      var r := Filter(s[..|s| - 1], keep) + (if keep(s[|s| - 1]) then [s[|s| - 1]] else []);
      assert s == s[..|s| - 1] + [s[|s| - 1]];
      r
  }

  lemma {:induction false} FilterSubsequence<T>(s: seq<T>, keep: T -> bool)
    ensures IsSubsequence(Filter(s, keep), s)
  {
    if |s| > 0 {
      var p := s[..|s| - 1];
      FilterSubsequence(p, keep);
      assert s[..|s| - 1] == p;
      if keep(s[|s| - 1]) {
        assert Filter(s, keep) == Filter(p, keep) + [s[|s| - 1]];
        assert (Filter(p, keep) + [s[|s| - 1]])[..|Filter(p, keep)|] == Filter(p, keep);
      } else {
        assert Filter(s, keep) == Filter(p, keep);
        SubsequenceExtend(Filter(p, keep), p, s[|s| - 1]);
        assert p + [s[|s| - 1]] == s;
      }
    }
  }

  /** Keep nothing when no element satisfies the predicate. */
  lemma {:induction false} FilterNone<T>(s: seq<T>, keep: T -> bool)
    requires forall i :: 0 <= i < |s| ==> !keep(s[i])
    ensures Filter(s, keep) == []
  {
    if |s| > 0 {
      FilterNone(s[..|s| - 1], keep);
    }
  }

  /** Keep every element when all satisfy the predicate. */
  lemma {:induction false} FilterAll<T>(s: seq<T>, keep: T -> bool)
    requires forall i :: 0 <= i < |s| ==> keep(s[i])
    ensures Filter(s, keep) == s
  {
    if |s| > 0 {
      FilterAll(s[..|s| - 1], keep);
      assert s == s[..|s| - 1] + [s[|s| - 1]];
    }
  }

  /** The `Some` results of f, in order (`filter_map`). */
  function FilterMap<A, B>(s: seq<A>, f: A -> Option<B>): (r: seq<B>)
    ensures |r| <= |s|
  {
    if |s| == 0 then []
    else FilterMap(s[..|s| - 1], f) + (match f(s[|s| - 1]) case Some(b) => [b] case None => [])
  }

  lemma {:induction false} FilterMapMembers<A, B>(s: seq<A>, f: A -> Option<B>, y: B)
    ensures y in FilterMap(s, f) <==> exists i :: 0 <= i < |s| && f(s[i]) == Some(y)
  {
    if |s| > 0 {
      var p := s[..|s| - 1];
      FilterMapMembers(p, f, y);
      if exists i :: 0 <= i < |s| && f(s[i]) == Some(y) {
        var i :| 0 <= i < |s| && f(s[i]) == Some(y);
        if i < |p| { assert f(p[i]) == Some(y); }
      }
      if exists i :: 0 <= i < |p| && f(p[i]) == Some(y) {
        var i :| 0 <= i < |p| && f(p[i]) == Some(y);
        assert f(s[i]) == Some(y);
      }
    }
  }

  /** One more element of the input: FilterMap grows by that element's result. */
  lemma FilterMapSnoc<A, B>(s: seq<A>, f: A -> Option<B>, i: nat)
    requires i < |s|
    ensures f(s[i]).Some? ==> FilterMap(s[..i + 1], f) == FilterMap(s[..i], f) + [f(s[i]).value]
    ensures f(s[i]).None? ==> FilterMap(s[..i + 1], f) == FilterMap(s[..i], f)
  {
    assert s[..i + 1][..i] == s[..i];
  }

  /** When f never fails, FilterMap is an element-wise map. */
  lemma {:induction false} FilterMapTotal<A, B>(s: seq<A>, f: A -> Option<B>)
    requires forall i :: 0 <= i < |s| ==> f(s[i]).Some?
    ensures |FilterMap(s, f)| == |s|
    ensures forall i :: 0 <= i < |s| ==> FilterMap(s, f)[i] == f(s[i]).value
  {
    if |s| > 0 {
      FilterMapTotal(s[..|s| - 1], f);
    }
  }

  /** Concatenation of a list of lists, in order. */
  function Flatten<T>(ss: seq<seq<T>>): (r: seq<T>)
  {
    if |ss| == 0 then [] else Flatten(ss[..|ss| - 1]) + ss[|ss| - 1]
  }

  lemma {:induction false} FlattenLength<T>(ss: seq<seq<T>>, n: nat)
    requires forall i :: 0 <= i < |ss| ==> |ss[i]| <= n
    ensures |Flatten(ss)| <= n * |ss|
  {
    if |ss| > 0 { FlattenLength(ss[..|ss| - 1], n); }
  }

  lemma {:induction false} FlattenMembers<T>(ss: seq<seq<T>>, x: T)
    ensures x in Flatten(ss) <==> exists i :: 0 <= i < |ss| && x in ss[i]
  {
    if |ss| > 0 {
      var p := ss[..|ss| - 1];
      FlattenMembers(p, x);
      if exists i :: 0 <= i < |ss| && x in ss[i] {
        var i :| 0 <= i < |ss| && x in ss[i];
        if i < |p| { assert x in p[i]; }
      }
      if exists i :: 0 <= i < |p| && x in p[i] {
        var i :| 0 <= i < |p| && x in p[i];
        assert x in ss[i];
      }
    }
  }

  /** The keys of the elements of s. */
  function Keys<T, K>(s: seq<T>, key: T -> K): set<K> {
    set i | 0 <= i < |s| :: key(s[i])
  }

  lemma KeysAppend<T, K>(s: seq<T>, x: T, key: T -> K)
    ensures Keys(s + [x], key) == Keys(s, key) + {key(x)}
  {
    var t := s + [x];
    assert key(t[|s|]) == key(x);
    forall k | k in Keys(t, key) ensures k in Keys(s, key) + {key(x)} {
      var i :| 0 <= i < |t| && key(t[i]) == k;
      if i < |s| { assert key(s[i]) == k; }
    }
    forall k | k in Keys(s, key) ensures k in Keys(t, key) {
      var i :| 0 <= i < |s| && key(s[i]) == k;
      assert key(t[i]) == k;
    }
  }

  /** No two elements share a key. */
  ghost predicate DistinctKeys<T, K>(s: seq<T>, key: T -> K) {
    forall i, j :: 0 <= i < j < |s| ==> key(s[i]) != key(s[j])
  }

  /** First-wins de-duplication: an element is kept iff no earlier element has its key. */
  function DedupBy<T, K(==)>(s: seq<T>, key: T -> K): (r: seq<T>)
  {
    if |s| == 0 then []
    else
      var p := s[..|s| - 1];
      DedupBy(p, key) + (if key(s[|s| - 1]) in Keys(p, key) then [] else [s[|s| - 1]])
  }

  lemma {:induction false} DedupKeys<T, K>(s: seq<T>, key: T -> K)
    ensures Keys(DedupBy(s, key), key) == Keys(s, key)
  {
    if |s| > 0 {
      var p, x := s[..|s| - 1], s[|s| - 1];
      assert s == p + [x];
      assert DedupBy(s, key) == DedupBy(p, key) + (if key(x) in Keys(p, key) then [] else [x]);
      DedupKeys(p, key);
      KeysAppend(p, x, key);
      if key(x) !in Keys(p, key) {
        KeysAppend(DedupBy(p, key), x, key);
      } else {
        assert Keys(p, key) + {key(x)} == Keys(p, key);
        assert DedupBy(s, key) == DedupBy(p, key);
      }
    }
  }

  lemma {:induction false} DedupDistinct<T, K>(s: seq<T>, key: T -> K)
    ensures DistinctKeys(DedupBy(s, key), key)
  {
    if |s| > 0 {
      var p, x := s[..|s| - 1], s[|s| - 1];
      DedupDistinct(p, key);
      DedupKeys(p, key);
      var d := DedupBy(p, key);
      if key(x) !in Keys(p, key) {
        forall i, j | 0 <= i < j < |d| + 1 ensures key((d + [x])[i]) != key((d + [x])[j]) {
          if j == |d| {
            assert key(d[i]) in Keys(d, key);
          }
        }
      }
    }
  }

  lemma {:induction false} DedupSubsequence<T, K>(s: seq<T>, key: T -> K)
    ensures IsSubsequence(DedupBy(s, key), s)
  {
    if |s| > 0 {
      var p, x := s[..|s| - 1], s[|s| - 1];
      assert s == p + [x];
      DedupSubsequence(p, key);
      var d := DedupBy(p, key);
      assert DedupBy(s, key) == d + (if key(x) in Keys(p, key) then [] else [x]);
      if key(x) in Keys(p, key) {
        assert DedupBy(s, key) == d;
        SubsequenceExtend(d, p, x);
      } else {
        assert DedupBy(s, key) == d + [x];
        assert (d + [x])[..|d|] == d;
      }
    }
  }

  /** One more element: it is kept exactly when its key is not among the keys kept so far. */
  lemma DedupSnoc<T, K>(s: seq<T>, key: T -> K, i: nat)
    requires i < |s|
    ensures Keys(DedupBy(s[..i], key), key) == Keys(s[..i], key)
    ensures key(s[i]) in Keys(DedupBy(s[..i], key), key) ==> DedupBy(s[..i + 1], key) == DedupBy(s[..i], key)
    ensures key(s[i]) !in Keys(DedupBy(s[..i], key), key) ==> DedupBy(s[..i + 1], key) == DedupBy(s[..i], key) + [s[i]]
  {
    assert s[..i + 1][..i] == s[..i];
    DedupKeys(s[..i], key);
  }

  /** The first element of s with key k. */
  function FirstWithKey<T, K(==)>(s: seq<T>, key: T -> K, k: K): (r: T)
    requires k in Keys(s, key)
    ensures r in s && key(r) == k
  {
    if key(s[0]) == k then s[0]
    else
      assert k in Keys(s[1..], key) by {
        var i :| 0 <= i < |s| && key(s[i]) == k;
        assert key(s[1..][i - 1]) == k;
      }
      FirstWithKey(s[1..], key, k)
  }

  lemma {:induction false} FirstWithKeyAppend<T, K>(s: seq<T>, x: T, key: T -> K, k: K)
    requires k in Keys(s, key)
    ensures k in Keys(s + [x], key) && FirstWithKey(s + [x], key, k) == FirstWithKey(s, key, k)
  {
    KeysAppend(s, x, key);
    if key(s[0]) != k {
      assert (s + [x])[1..] == s[1..] + [x];
      assert k in Keys(s[1..], key) by {
        var i :| 0 <= i < |s| && key(s[i]) == k;
        assert key(s[1..][i - 1]) == k;
      }
      FirstWithKeyAppend(s[1..], x, key, k);
    }
  }

  lemma {:induction false} FirstWithKeyNew<T, K>(s: seq<T>, x: T, key: T -> K)
    requires key(x) !in Keys(s, key)
    ensures key(x) in Keys(s + [x], key) && FirstWithKey(s + [x], key, key(x)) == x
  {
    KeysAppend(s, x, key);
    if |s| > 0 {
      assert key(s[0]) in Keys(s, key);
      assert (s + [x])[1..] == s[1..] + [x];
      forall i | 0 <= i < |s[1..]| ensures key(s[1..][i]) != key(x) {
        assert key(s[i + 1]) in Keys(s, key);
      }
      FirstWithKeyNew(s[1..], x, key);
    }
  }

  /** Every kept element is the first one of s with its key. */
  lemma {:induction false} DedupKeepsFirst<T, K>(s: seq<T>, key: T -> K)
    ensures forall i :: 0 <= i < |DedupBy(s, key)| ==>
      key(DedupBy(s, key)[i]) in Keys(s, key) && DedupBy(s, key)[i] == FirstWithKey(s, key, key(DedupBy(s, key)[i]))
  {
    if |s| > 0 {
      var p, x := s[..|s| - 1], s[|s| - 1];
      assert s == p + [x];
      DedupKeepsFirst(p, key);
      var d := DedupBy(p, key);
      var r := DedupBy(s, key);
      forall i | 0 <= i < |r| ensures key(r[i]) in Keys(s, key) && r[i] == FirstWithKey(s, key, key(r[i])) {
        if i < |d| {
          assert r[i] == d[i];
          FirstWithKeyAppend(p, x, key, key(d[i]));
        } else {
          assert r[i] == x;
          FirstWithKeyNew(p, x, key);
        }
      }
    }
  }

  /** Already distinct keys: nothing is removed. */
  lemma {:induction false} DedupDistinctIdentity<T, K>(s: seq<T>, key: T -> K)
    requires DistinctKeys(s, key)
    ensures DedupBy(s, key) == s
  {
    if |s| > 0 {
      var p, x := s[..|s| - 1], s[|s| - 1];
      forall i, j | 0 <= i < j < |p| ensures key(p[i]) != key(p[j]) {
        assert p[i] == s[i] && p[j] == s[j];
      }
      DedupDistinctIdentity(p, key);
      forall i | 0 <= i < |p| ensures key(p[i]) != key(x) {
        assert p[i] == s[i];
      }
      assert key(x) !in Keys(p, key);
      assert DedupBy(s, key) == p + [x];
      assert s == p + [x];
    }
  }

  lemma DedupIdempotent<T, K>(s: seq<T>, key: T -> K)
    ensures DedupBy(DedupBy(s, key), key) == DedupBy(s, key)
  {
    DedupDistinct(s, key);
    DedupDistinctIdentity(DedupBy(s, key), key);
  }

  lemma {:induction false} DedupShorter<T, K>(s: seq<T>, key: T -> K)
    ensures |DedupBy(s, key)| <= |s|
    ensures !DistinctKeys(s, key) ==> |DedupBy(s, key)| < |s|
  {
    if |s| > 0 {
      var p, x := s[..|s| - 1], s[|s| - 1];
      DedupShorter(p, key);
      if !DistinctKeys(s, key) && key(x) !in Keys(p, key) {
        var i, j :| 0 <= i < j < |s| && key(s[i]) == key(s[j]);
        if j < |s| - 1 {
          assert key(p[i]) == key(p[j]);
        } else {
          assert key(p[i]) in Keys(p, key);
        }
      }
    }
  }

  /** Nothing is removed exactly when the keys were already distinct. */
  lemma DedupLengthIff<T, K>(s: seq<T>, key: T -> K)
    ensures |DedupBy(s, key)| == |s| <==> DistinctKeys(s, key)
  {
    DedupShorter(s, key);
    if DistinctKeys(s, key) { DedupDistinctIdentity(s, key); }
  }
}
