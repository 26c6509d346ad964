/**
 * The Python values that cross the plugin boundary: None, booleans, integers,
 * strings, lists and string-keyed dicts in insertion order, with the dict
 * operations the plugins use and the conversions the host side applies.
 */
module Py {
  import opened Wrappers
  import opened Strings

  datatype PyValue =
    | PyNone
    | PyBool(b: bool)
    | PyInt(i: int)
    | PyStr(s: string)
    | PyList(items: seq<PyValue>)
    | PyDict(entries: seq<(string, PyValue)>)

  /** The keys of a dict, in insertion order. */
  function KeysOf(entries: seq<(string, PyValue)>): (r: seq<string>)
    ensures |r| == |entries|
    ensures forall i :: 0 <= i < |entries| ==> r[i] == entries[i].0
  {
    if |entries| == 0 then [] else KeysOf(entries[..|entries| - 1]) + [entries[|entries| - 1].0]
  }

  /** `k in d` */
  predicate HasKey(entries: seq<(string, PyValue)>, k: string) {
    k in KeysOf(entries)
  }

  /** `d[k]`, or None when k is absent. */
  function Lookup(entries: seq<(string, PyValue)>, k: string): Option<PyValue> {
    if |entries| == 0 then None
    else if entries[0].0 == k then Some(entries[0].1)
    else Lookup(entries[1..], k)
  }

  /** A key is found exactly when present, and what it finds is its first entry's value. */
  lemma {:induction false} LookupSpec(entries: seq<(string, PyValue)>, k: string)
    ensures Lookup(entries, k).None? <==> !HasKey(entries, k)
    ensures Lookup(entries, k).Some? ==> exists i :: 0 <= i < |entries| && entries[i] == (k, Lookup(entries, k).value)
  {
    if |entries| > 0 {
      assert KeysOf(entries) == [entries[0].0] + KeysOf(entries[1..]);
      if entries[0].0 != k {
        LookupSpec(entries[1..], k);
        if Lookup(entries, k).Some? {
          var i :| 0 <= i < |entries[1..]| && entries[1..][i] == (k, Lookup(entries, k).value);
          assert entries[i + 1] == (k, Lookup(entries, k).value);
        }
      }
    }
  }

  /** In a dict whose keys are distinct, each entry is what its key looks up. */
  lemma {:induction false} LookupDistinct(entries: seq<(string, PyValue)>, i: nat)
    requires i < |entries|
    requires forall a, b :: 0 <= a < b < |entries| ==> entries[a].0 != entries[b].0
    ensures Lookup(entries, entries[i].0) == Some(entries[i].1)
  {
    if i > 0 {
      assert entries[0].0 != entries[i].0;
      assert entries[1..][i - 1] == entries[i];
      LookupDistinct(entries[1..], i - 1);
    }
  }

  /** `d[k] = v`: an existing key keeps its place and takes the new value; a new key goes last. */
  function Insert(entries: seq<(string, PyValue)>, k: string, v: PyValue): (r: seq<(string, PyValue)>)
  {
    if |entries| == 0 then [(k, v)]
    else if entries[0].0 == k then [(k, v)] + entries[1..]
    else [entries[0]] + Insert(entries[1..], k, v)
  }

  /** After `d[k] = v`, `d[k]` is v and every other key reads as before. */
  lemma {:induction false} LookupInsert(entries: seq<(string, PyValue)>, k: string, v: PyValue, k': string)
    ensures Lookup(Insert(entries, k, v), k) == Some(v)
    ensures k' != k ==> Lookup(Insert(entries, k, v), k') == Lookup(entries, k')
  {
    if |entries| > 0 && entries[0].0 != k {
      LookupInsert(entries[1..], k, v, k');
    }
  }

  /** `d[k] = v` adds k to the keys and keeps all the others, in their order. */
  lemma InsertKeys(entries: seq<(string, PyValue)>, k: string, v: PyValue)
    ensures HasKey(entries, k) ==> KeysOf(Insert(entries, k, v)) == KeysOf(entries)
    ensures !HasKey(entries, k) ==> KeysOf(Insert(entries, k, v)) == KeysOf(entries) + [k]
  {
    if HasKey(entries, k) {
      InsertInPlace(entries, k, v);
      assert KeysOf(Insert(entries, k, v)) == KeysOf(entries);
    } else {
      InsertLast(entries, k, v, v);
      var r := entries + [(k, v)];
      assert r[..|entries|] == entries;
    }
  }

  /** A key is in a non-empty dict when it is the first key or a key of the rest. */
  lemma HasKeyCons(entries: seq<(string, PyValue)>, k: string)
    requires |entries| > 0
    ensures HasKey(entries, k) <==> entries[0].0 == k || HasKey(entries[1..], k)
  {
    var t := entries[1..];
    if HasKey(entries, k) {
      var i :| 0 <= i < |entries| && KeysOf(entries)[i] == k;
      if i > 0 { assert KeysOf(t)[i - 1] == k; }
    }
    if HasKey(t, k) {
      var i :| 0 <= i < |t| && KeysOf(t)[i] == k;
      assert KeysOf(entries)[i + 1] == k;
    }
    if entries[0].0 == k { assert KeysOf(entries)[0] == k; }
  }

  /** Overwriting a present key keeps every key in its position. */
  lemma {:induction false} InsertInPlace(entries: seq<(string, PyValue)>, k: string, v: PyValue)
    requires HasKey(entries, k)
    ensures |Insert(entries, k, v)| == |entries|
    ensures forall i :: 0 <= i < |entries| ==> Insert(entries, k, v)[i].0 == entries[i].0
  {
    HasKeyCons(entries, k);
    if entries[0].0 != k {
      InsertInPlace(entries[1..], k, v);
      var r := Insert(entries, k, v);
      assert r == [entries[0]] + Insert(entries[1..], k, v);
      forall i | 0 < i < |entries| ensures r[i].0 == entries[i].0 {
        assert r[i] == Insert(entries[1..], k, v)[i - 1];
        assert entries[i] == entries[1..][i - 1];
      }
    }
  }

  /**
   * Where the keys before it are all other keys, `d[k] = v` puts k last when
   * it is new and overwrites it in place when it is last already.
   */
  lemma {:induction false} InsertLast(entries: seq<(string, PyValue)>, k: string, v: PyValue, w: PyValue)
    requires !HasKey(entries, k)
    ensures Insert(entries, k, v) == entries + [(k, v)]
    ensures Insert(entries + [(k, v)], k, w) == entries + [(k, w)]
  {
    if |entries| > 0 {
      HasKeyCons(entries, k);
      var t := entries[1..];
      InsertLast(t, k, v, w);
      assert (entries + [(k, v)])[1..] == t + [(k, v)];
      assert Insert(entries, k, v) == [entries[0]] + (t + [(k, v)]);
      assert Insert(entries + [(k, v)], k, w) == [entries[0]] + (t + [(k, w)]);
      assert entries == [entries[0]] + t;
    }
  }

  /** `d.get(k, default)` */
  function GetOr(entries: seq<(string, PyValue)>, k: string, default: PyValue): PyValue {
    match Lookup(entries, k)
    case Some(v) => v
    case None => default
  }

  /** `extract::<String>()`: only a str converts. */
  function ExtractString(v: PyValue): Option<string> {
    if v.PyStr? then Some(v.s) else None
  }

  /** `extract::<bool>()`: only a bool converts. */
  function ExtractBool(v: PyValue): Option<bool> {
    if v.PyBool? then Some(v.b) else None
  }

  /** `extract::<usize>()`: an int (a bool is one) in the range of a 64-bit usize. */
  function ExtractUsize(v: PyValue): (r: Option<int>)
    ensures r.Some? ==> 0 <= r.value < 0x1_0000_0000_0000_0000
  {
    match v
    case PyBool(b) => Some(if b then 1 else 0)
    case PyInt(i) => if 0 <= i < 0x1_0000_0000_0000_0000 then Some(i) else None
    case _ => None
  }

  /** The strings of a list whose items are all str, or None. */
  function StringsOf(items: seq<PyValue>): (r: Option<seq<string>>)
    ensures r.Some? <==> forall i :: 0 <= i < |items| ==> items[i].PyStr?
    ensures r.Some? ==> |r.value| == |items| && forall i :: 0 <= i < |items| ==> r.value[i] == items[i].s
  {
    if |items| == 0 then Some([])
    else match StringsOf(items[..|items| - 1])
      case None => None
      case Some(ss) => if items[|items| - 1].PyStr? then Some(ss + [items[|items| - 1].s]) else None
  }

  /** `extract::<Vec<String>>()`: a list of str. */
  function ExtractStrings(v: PyValue): Option<seq<string>> {
    if v.PyList? then StringsOf(v.items) else None
  }

  /** A list of str, as the host side builds it from a `Vec<String>`. */
  function StrList(ss: seq<string>): (r: seq<PyValue>)
    ensures |r| == |ss|
    ensures forall i :: 0 <= i < |ss| ==> r[i] == PyStr(ss[i])
  {
    if |ss| == 0 then [] else StrList(ss[..|ss| - 1]) + [PyStr(ss[|ss| - 1])]
  }

  /** Converting a `Vec<String>` to Python and back gives it back. */
  lemma StrListRoundTrip(ss: seq<string>)
    ensures ExtractStrings(PyList(StrList(ss))) == Some(ss)
  {
    var r := StringsOf(StrList(ss));
    assert r.Some?;
    assert r.value == ss;
  }
  /** The metadata dict of an endpoint dict: its entries, or none when the key is absent. */
  function Meta(d: seq<(string, PyValue)>): seq<(string, PyValue)> {
    var m := GetOr(d, "metadata", PyDict([]));
    if m.PyDict? then m.entries else []
  }

  /**
   * `if 'metadata' not in d: d['metadata'] = {}` and then
   * `d['metadata'][k] = v`, on the dict as a value; item assignment into a
   * metadata value that is not a dict raises TypeError.
   */
  function SetMetadata(d: seq<(string, PyValue)>, k: string, v: PyValue): Result<seq<(string, PyValue)>, string> {
    if GetOr(d, "metadata", PyDict([])).PyDict? then Ok(Insert(d, "metadata", PyDict(Insert(Meta(d), k, v))))
    else Err("TypeError")
  }

  /**
   * Setting a metadata entry fails exactly when metadata is there and is not a
   * dict; otherwise metadata reads k as v and every other metadata key and
   * every other key of the endpoint as before.
   */
  lemma SetMetadataSpec(d: seq<(string, PyValue)>, k: string, v: PyValue, other: string)
    ensures SetMetadata(d, k, v).Err? <==> Lookup(d, "metadata").Some? && !Lookup(d, "metadata").value.PyDict?
    ensures SetMetadata(d, k, v).Ok? ==> Lookup(SetMetadata(d, k, v).value, "metadata") == Some(PyDict(Insert(Meta(d), k, v)))
    ensures SetMetadata(d, k, v).Ok? ==> Lookup(Insert(Meta(d), k, v), k) == Some(v)
    ensures SetMetadata(d, k, v).Ok? && other != k ==> Lookup(Insert(Meta(d), k, v), other) == Lookup(Meta(d), other)
    ensures SetMetadata(d, k, v).Ok? && other != "metadata" ==> Lookup(SetMetadata(d, k, v).value, other) == Lookup(d, other)
  {
    LookupSpec(d, "metadata");
    LookupInsert(Meta(d), k, v, other);
    LookupInsert(d, "metadata", PyDict(Insert(Meta(d), k, v)), other);
  }

  /** Python truthiness: None, False, 0 and empty containers are false. */
  predicate Truthy(v: PyValue) {
    match v
    case PyNone => false
    case PyBool(b) => b
    case PyInt(i) => i != 0
    case PyStr(s) => |s| > 0
    case PyList(items) => |items| > 0
    case PyDict(entries) => |entries| > 0
  }

  /** `k in v` for a str k: a key of a dict, an item of a list, a substring of a str; TypeError otherwise. */
  function StrIn(k: string, v: PyValue): Result<bool, string> {
    match v
    case PyDict(entries) => Ok(HasKey(entries, k))
    case PyList(items) => Ok(PyStr(k) in items)
    case PyStr(s) => Ok(Contains(s, k))
    case _ => Err("TypeError")
  }

  /** `v[k]` for a str k: only a dict holding k has an item there (TypeError or KeyError otherwise). */
  function StrItem(v: PyValue, k: string): Result<PyValue, string> {
    if v.PyDict? && Lookup(v.entries, k).Some? then Ok(Lookup(v.entries, k).value)
    else if v.PyDict? then Err("KeyError")
    else Err("TypeError")
  }

  /** The characters of a str, each a str of length one. */
  function CharStrs(s: string): (r: seq<PyValue>)
    ensures |r| == |s|
    ensures forall i :: 0 <= i < |s| ==> r[i] == PyStr([s[i]])
  {
    if |s| == 0 then [] else CharStrs(s[..|s| - 1]) + [PyStr([s[|s| - 1]])]
  }

  /** `for x in v`: the items of a list, the keys of a dict, the characters of a str; TypeError otherwise. */
  function Iterate(v: PyValue): Result<seq<PyValue>, string> {
    match v
    case PyList(items) => Ok(items)
    case PyDict(entries) => Ok(StrList(KeysOf(entries)))
    case PyStr(s) => Ok(CharStrs(s))
    case _ => Err("TypeError")
  }
}
