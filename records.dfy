/** JavaScript plain objects (`Record<string, V>`) as sequences of entries.

    The entry order is the order in which `for…in` and object spread visit
    the properties (insertion order).  A JavaScript object never holds a key
    twice, which the subset type `Dict` states.  A plain `seq` of entries is
    used for a sequence of writes, where a key may recur and the last write
    wins. */
module Records {
  import opened Wrappers

  type Entry<V> = (string, V)

  /** The keys of a sequence of entries. */
  function KeySet<V>(s: seq<Entry<V>>): set<string>
  {
    if s == [] then {} else KeySet(s[..|s| - 1]) + {s[|s| - 1].0}
  }

  /** No key occurs twice. */
  predicate DistinctKeys<V>(s: seq<Entry<V>>)
  {
    s == [] || (DistinctKeys(s[..|s| - 1]) && s[|s| - 1].0 !in KeySet(s[..|s| - 1]))
  }

  /** A JavaScript object with string keys. */
  type Dict<V> = s: seq<Entry<V>> | DistinctKeys(s) witness []

  /** `obj[key]`: the value of the last entry with that key, if any. */
  function Lookup<V>(s: seq<Entry<V>>, key: string): Option<V>
  {
    if s == [] then None
    else if s[|s| - 1].0 == key then Some(s[|s| - 1].1)
    else Lookup(s[..|s| - 1], key)
  }

  /** Every entry of `d` whose key is `key` gets the value `v`; keys and order stay. */
  function Replace<V>(d: seq<Entry<V>>, key: string, v: V): (r: seq<Entry<V>>)
    ensures |r| == |d|
    ensures forall i :: 0 <= i < |d| ==> r[i].0 == d[i].0
    ensures KeySet(r) == KeySet(d)
    ensures DistinctKeys(d) ==> DistinctKeys(r)
  {
    if d == [] then []
    else
      var last := d[|d| - 1];
      var r := Replace(d[..|d| - 1], key, v) + [if last.0 == key then (key, v) else last];
      assert r[..|r| - 1] == Replace(d[..|d| - 1], key, v);
      r
  }

  /** `obj[key] = v`: an existing property keeps its place and takes the new
      value, a new one is appended. */
  function Put<V>(d: Dict<V>, key: string, v: V): (r: Dict<V>)
    ensures KeySet(r) == KeySet(d) + {key}
    ensures key in KeySet(d) ==> |r| == |d| && forall i :: 0 <= i < |d| ==> r[i].0 == d[i].0
    ensures key !in KeySet(d) ==> r == d + [(key, v)]
  {
    if key in KeySet(d) then Replace(d, key, v)
    else
      var r := d + [(key, v)];
      assert r[..|r| - 1] == d;
      r
  }

  /** `{...d, ...s}`: the entries of `s` written into `d` one after another. */
  function PutAll<V>(d: Dict<V>, s: seq<Entry<V>>): (r: Dict<V>)
    ensures KeySet(r) == KeySet(d) + KeySet(s)
  {
    if s == [] then d
    else Put(PutAll(d, s[..|s| - 1]), s[|s| - 1].0, s[|s| - 1].1)
  }

  /** A key is looked up successfully exactly when it is one of the keys. */
  lemma {:induction false} LookupInKeys<V>(s: seq<Entry<V>>, key: string)
    ensures Lookup(s, key).Some? <==> key in KeySet(s)
  {
    if s != [] {
      LookupInKeys(s[..|s| - 1], key);
    }
  }

  /** In a dictionary, the value found for a key is that of the (only) entry
      holding the key. */
  lemma {:induction false} LookupEntry<V>(d: Dict<V>, i: nat)
    requires i < |d|
    ensures Lookup(d, d[i].0) == Some(d[i].1)
  {
    var p := d[..|d| - 1];
    if i < |d| - 1 {
      assert d[i] == p[i];
      KeyOfEntry(p, i);
      LookupEntry(p, i);
    }
  }

  /** The key of every entry is in the key set. */
  lemma {:induction false} KeyOfEntry<V>(s: seq<Entry<V>>, i: nat)
    requires i < |s|
    ensures s[i].0 in KeySet(s)
  {
    if i < |s| - 1 {
      assert s[i] == s[..|s| - 1][i];
      KeyOfEntry(s[..|s| - 1], i);
    }
  }

  lemma {:induction false} LookupReplace<V>(d: seq<Entry<V>>, key: string, v: V, k: string)
    ensures k != key ==> Lookup(Replace(d, key, v), k) == Lookup(d, k)
    ensures key in KeySet(d) ==> Lookup(Replace(d, key, v), key) == Some(v)
  {
    if d != [] {
      var p := d[..|d| - 1];
      var r := Replace(d, key, v);
      assert r[..|r| - 1] == Replace(p, key, v);
      LookupReplace(p, key, v, k);
    }
  }

  /** After `obj[key] = v`, reading `key` gives `v` and every other key reads
      as before. */
  lemma LookupPut<V>(d: Dict<V>, key: string, v: V, k: string)
    ensures Lookup(Put(d, key, v), k) == if k == key then Some(v) else Lookup(d, k)
  {
    if key in KeySet(d) {
      LookupReplace(d, key, v, k);
    } else {
      var r := d + [(key, v)];
      assert r[..|r| - 1] == d;
    }
  }

  /** After a spread, a key reads as its last write in `s` if `s` writes it,
      and as in `d` otherwise: later sources win every collision. */
  lemma {:induction false} LookupPutAll<V>(d: Dict<V>, s: seq<Entry<V>>, k: string)
    ensures Lookup(PutAll(d, s), k) == if Lookup(s, k).Some? then Lookup(s, k) else Lookup(d, k)
  {
    if s != [] {
      var last := s[|s| - 1];
      LookupPut(PutAll(d, s[..|s| - 1]), last.0, last.1, k);
      LookupPutAll(d, s[..|s| - 1], k);
    }
  }

  /** Spreading a dictionary into the empty object copies it exactly. */
  lemma {:induction false} PutAllIntoEmpty<V>(s: Dict<V>)
    ensures PutAll([], s) == s
  {
    if s != [] {
      var p: Dict<V> := s[..|s| - 1];
      PutAllIntoEmpty(p);
      assert s == p + [s[|s| - 1]];
    }
  }

  /** The object with one property. */
  function Singleton<V>(key: string, v: V): (d: Dict<V>)
    ensures KeySet(d) == {key} && Lookup(d, key) == Some(v)
  {
    var d: seq<Entry<V>> := [(key, v)];
    assert d[..|d| - 1] == [];
    assert DistinctKeys(d);
    d
  }

  /** A key is in the key set exactly when some entry holds it. */
  lemma {:induction false} KeySetMembers<V>(s: seq<Entry<V>>, k: string)
    ensures k in KeySet(s) <==> exists i :: 0 <= i < |s| && s[i].0 == k
  {
    if s != [] {
      var p := s[..|s| - 1];
      KeySetMembers(p, k);
      if k in KeySet(p) {
        var i :| 0 <= i < |p| && p[i].0 == k;
        assert s[i] == p[i];
      }
      if exists i :: 0 <= i < |s| && s[i].0 == k {
        var i :| 0 <= i < |s| && s[i].0 == k;
        if i < |p| {
          assert s[i] == p[i];
        }
      }
    }
  }

  /** The value found for a key is that of its last occurrence. */
  lemma {:induction false} LookupLast<V>(s: seq<Entry<V>>, i: nat)
    requires i < |s|
    requires forall j :: i < j < |s| ==> s[j].0 != s[i].0
    ensures Lookup(s, s[i].0) == Some(s[i].1)
  {
    if i < |s| - 1 {
      var p := s[..|s| - 1];
      assert s[i] == p[i];
      LookupLast(p, i);
    }
  }
}
