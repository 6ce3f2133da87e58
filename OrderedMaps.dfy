/** Kotlin's read-only `Map` as the plugin builds it (`emptyMap()` grown with
    `map + (key to value)`): a `LinkedHashMap` copy, so iteration follows
    insertion order and re-putting an existing key replaces its value where it
    stands. Modelled as a sequence of key/value entries with distinct keys. */
module OrderedMaps {
  import opened Wrappers

  type Entries<V> = seq<(string, V)>

  /** The keys in iteration order (`map.keys`). */
  function KeysOf<V>(e: Entries<V>): (ks: seq<string>)
    ensures |ks| == |e|
    ensures forall i :: 0 <= i < |e| ==> ks[i] == e[i].0
  {
    if e == [] then [] else [e[0].0] + KeysOf(e[1..])
  }

  /** The invariant of every map: no key occurs twice. */
  predicate DistinctKeys<V>(e: Entries<V>) {
    forall i, j :: 0 <= i < j < |e| ==> e[i].0 != e[j].0
  }

  /** Position of the first entry with key `k`, if any. */
  function Find<V>(e: Entries<V>, k: string): (r: Option<nat>)
    ensures r.Some? ==> r.value < |e| && e[r.value].0 == k
    ensures r.Some? ==> forall i :: 0 <= i < r.value ==> e[i].0 != k
    ensures r.None? <==> k !in KeysOf(e)
  {
    if e == [] then None
    else if e[0].0 == k then Some(0)
    else
      assert KeysOf(e) == [e[0].0] + KeysOf(e[1..]);
      match Find(e[1..], k)
      case None => None
      case Some(j) => Some(j + 1)
  }

  /** Lookup (`map[k]`): the value stored under `k`, or None. */
  function Get<V>(e: Entries<V>, k: string): (r: Option<V>)
    ensures r.Some? <==> k in KeysOf(e)
    ensures DistinctKeys(e) ==>
      forall i :: 0 <= i < |e| && e[i].0 == k ==> r == Some(e[i].1)
  {
    match Find(e, k)
    case None => None
    case Some(j) => Some(e[j].1)
  }

  /** `map + (k to v)`: replace the value in place when `k` is present,
      append a new last entry otherwise. */
  function Put<V>(e: Entries<V>, k: string, v: V): (r: Entries<V>)
    ensures k in KeysOf(e) ==> KeysOf(r) == KeysOf(e)
    ensures k !in KeysOf(e) ==> KeysOf(r) == KeysOf(e) + [k]
    ensures DistinctKeys(e) ==> DistinctKeys(r)
    ensures DistinctKeys(e) ==> Get(r, k) == Some(v)
    ensures DistinctKeys(e) ==> forall k' :: k' != k ==> Get(r, k') == Get(e, k')
  {
    match Find(e, k)
    case Some(j) =>
      ReplaceFacts(e, j, v);
      e[j := (k, v)]
    case None =>
      AppendFacts(e, k, v);
      e + [(k, v)]
  }

  /** Rewriting the value of the first entry with key `k`. */
  lemma ReplaceFacts<V>(e: Entries<V>, j: nat, v: V)
    requires j < |e| && forall i :: 0 <= i < j ==> e[i].0 != e[j].0
    ensures var r := e[j := (e[j].0, v)];
      && KeysOf(r) == KeysOf(e)
      && (DistinctKeys(e) ==> DistinctKeys(r) && Get(r, e[j].0) == Some(v))
      && (DistinctKeys(e) ==> forall k' :: k' != e[j].0 ==> Get(r, k') == Get(e, k'))
  {
    var r := e[j := (e[j].0, v)];
    assert KeysOf(r) == KeysOf(e);
    if DistinctKeys(e) {
      assert DistinctKeys(r);
      assert r[j] == (e[j].0, v);
      forall k' | k' != e[j].0 ensures Get(r, k') == Get(e, k') {
        if k' in KeysOf(e) {
          var i :| 0 <= i < |e| && KeysOf(e)[i] == k';
          assert r[i] == e[i];
        } else {
          assert k' !in KeysOf(r);
        }
      }
    }
  }

  /** Appending an entry under a key not yet present. */
  lemma AppendFacts<V>(e: Entries<V>, k: string, v: V)
    requires k !in KeysOf(e)
    ensures var r := e + [(k, v)];
      && KeysOf(r) == KeysOf(e) + [k]
      && (DistinctKeys(e) ==> DistinctKeys(r) && Get(r, k) == Some(v))
      && (DistinctKeys(e) ==> forall k' :: k' != k ==> Get(r, k') == Get(e, k'))
  {
    var r := e + [(k, v)];
    assert KeysOf(r) == KeysOf(e) + [k];
    if DistinctKeys(e) {
      assert forall i :: 0 <= i < |e| ==> e[i].0 != k by {
        forall i | 0 <= i < |e| ensures e[i].0 != k {
          assert KeysOf(e)[i] == e[i].0;
        }
      }
      assert DistinctKeys(r);
      assert r[|e|] == (k, v);
      forall k' | k' != k ensures Get(r, k') == Get(e, k') {
        if k' in KeysOf(e) {
          var i :| 0 <= i < |e| && KeysOf(e)[i] == k';
          assert r[i] == e[i];
        } else {
          assert k' !in KeysOf(r);
        }
      }
    }
  }

  /** Putting under a new key appends the entry, and the key is found
      there. */
  lemma PutNew<V>(e: Entries<V>, k: string, v: V)
    requires k !in KeysOf(e)
    ensures Put(e, k, v) == e + [(k, v)]
    ensures KeysOf(e + [(k, v)]) == KeysOf(e) + [k]
    ensures DistinctKeys(e) ==> DistinctKeys(e + [(k, v)])
    ensures DistinctKeys(e) ==> Get(e + [(k, v)], k) == Some(v)
  {
    AppendFacts(e, k, v);
  }

  /** With distinct keys, putting under the key found at `j` rewrites entry `j`. */
  lemma PutAt<V>(e: Entries<V>, j: nat, k: string, v: V)
    requires DistinctKeys(e) && j < |e| && e[j].0 == k
    ensures Put(e, k, v) == e[j := (k, v)]
  {
    assert k in KeysOf(e) by { assert KeysOf(e)[j] == k; }
  }

  /** `mapValues`: the same keys in the same order, each value transformed. */
  function MapValues<V, W>(e: Entries<V>, f: V -> W): (r: Entries<W>)
    ensures |r| == |e|
    ensures forall i :: 0 <= i < |e| ==> r[i].0 == e[i].0 && r[i].1 == f(e[i].1)
  {
    if e == [] then [] else [(e[0].0, f(e[0].1))] + MapValues(e[1..], f)
  }

  /** The unordered view of an entry sequence as a Dafny map. */
  function ToMap<V>(e: Entries<V>): (m: map<string, V>)
    ensures forall k :: k in m <==> k in KeysOf(e)
    ensures DistinctKeys(e) ==> forall i :: 0 <= i < |e| ==> m[e[i].0] == e[i].1
  {
    map k | k in KeysOf(e) :: Get(e, k).value
  }

  /** Putting into the entry sequence is a map update of its unordered view. */
  lemma PutIsMapUpdate<V>(e: Entries<V>, k: string, v: V)
    requires DistinctKeys(e)
    ensures ToMap(Put(e, k, v)) == ToMap(e)[k := v]
  {
    var r := Put(e, k, v);
    assert DistinctKeys(r);
    var m, m' := ToMap(r), ToMap(e)[k := v];
    forall k' ensures k' in m <==> k' in m'
    {
      assert Get(r, k') == if k' == k then Some(v) else Get(e, k');
    }
    forall k' | k' in m ensures m[k'] == m'[k']
    {
      assert Get(r, k') == if k' == k then Some(v) else Get(e, k');
    }
  }

  /** With distinct keys, a lookup is a lookup in the unordered view. */
  lemma GetIsMapLookup<V>(e: Entries<V>, k: string)
    requires DistinctKeys(e)
    ensures Get(e, k) == if k in ToMap(e) then Some(ToMap(e)[k]) else None
  {
    if k in KeysOf(e) {
      var i :| 0 <= i < |e| && KeysOf(e)[i] == k;
      assert ToMap(e)[e[i].0] == e[i].1;
    }
  }

  /** A Dafny map with `f` applied to every value. */
  function MapMap<V, W>(m: map<string, V>, f: V -> W): map<string, W> {
    map k | k in m :: f(m[k])
  }

  /** With distinct keys, `mapValues` transforms the unordered view key by
      key. */
  lemma MapValuesToMap<V, W>(e: Entries<V>, f: V -> W)
    requires DistinctKeys(e)
    ensures ToMap(MapValues(e, f)) == MapMap(ToMap(e), f)
  {
    var r := MapValues(e, f);
    assert KeysOf(r) == KeysOf(e);
    var m, m' := ToMap(r), MapMap(ToMap(e), f);
    forall k ensures k in m <==> k in m' {
      assert k in m <==> k in KeysOf(r);
    }
    forall k | k in m ensures m[k] == m'[k] {
      var i :| 0 <= i < |e| && KeysOf(e)[i] == k;
      MapValuesAt(e, f, i);
    }
    assert m == m';
  }

  lemma MapValuesAt<V, W>(e: Entries<V>, f: V -> W, i: nat)
    requires DistinctKeys(e) && i < |e|
    ensures ToMap(MapValues(e, f))[e[i].0] == f(ToMap(e)[e[i].0])
  {
    MapValuesKeys(e, f);
    var r := MapValues(e, f);
    assert ToMap(r)[r[i].0] == r[i].1;
    assert ToMap(e)[e[i].0] == e[i].1;
  }

  function MapOption<V, W>(o: Option<V>, f: V -> W): Option<W> {
    match o
    case None => None
    case Some(x) => Some(f(x))
  }

  /** `mapValues` keeps the key sequence and maps each lookup. */
  lemma MapValuesKeys<V, W>(e: Entries<V>, f: V -> W)
    ensures KeysOf(MapValues(e, f)) == KeysOf(e)
    ensures DistinctKeys(e) ==> DistinctKeys(MapValues(e, f))
    ensures DistinctKeys(e) ==> forall k :: Get(MapValues(e, f), k) == MapOption(Get(e, k), f)
  {
    var r := MapValues(e, f);
    assert KeysOf(r) == KeysOf(e);
    if DistinctKeys(e) {
      assert DistinctKeys(r);
      forall k ensures Get(r, k) == MapOption(Get(e, k), f) {
        if k in KeysOf(e) {
          var i :| 0 <= i < |e| && KeysOf(e)[i] == k;
          assert Get(e, k) == Some(e[i].1);
          assert Get(r, k) == Some(r[i].1);
        } else {
          assert k !in KeysOf(r);
        }
      }
    }
  }
}
