/**
 * PHP arrays used as dictionaries: an ordered sequence of (key, value) entries. Reading
 * `$a[$k]` finds the entry with key `$k`; writing `$a[$k] = $v` replaces that entry's value
 * where it stands, or appends a new entry at the end; `foreach` visits entries in order.
 */
module OrderedMaps {
  import opened Wrappers
  import opened PhpStrings

  type OMap<K, V> = seq<(K, V)>

  function KeysOf<K(==), V>(m: OMap<K, V>): (ks: seq<K>)
    ensures |ks| == |m| && forall i :: 0 <= i < |m| ==> ks[i] == m[i].0
  {
    seq(|m|, i requires 0 <= i < |m| => m[i].0)
  }

  function ValuesOf<K(==), V>(m: OMap<K, V>): (vs: seq<V>)
    ensures |vs| == |m| && forall i :: 0 <= i < |m| ==> vs[i] == m[i].1
  {
    seq(|m|, i requires 0 <= i < |m| => m[i].1)
  }

  predicate HasKey<K(==), V>(m: OMap<K, V>, k: K) {
    exists i :: 0 <= i < |m| && m[i].0 == k
  }

  /** No key occurs twice: the shape every PHP array has. */
  predicate DistinctKeys<K(==), V>(m: OMap<K, V>) {
    forall i, j :: 0 <= i < j < |m| ==> m[i].0 != m[j].0
  }

  /** `$m[$k] ?? null`: the value of the first entry with key `k`. */
  function Lookup<K(==), V>(m: OMap<K, V>, k: K): (r: Option<V>)
    ensures r.Some? <==> HasKey(m, k)
    ensures r.Some? ==> exists i :: 0 <= i < |m| && m[i] == (k, r.value)
    ensures r.None? ==> forall i :: 0 <= i < |m| ==> m[i].0 != k
  {
    if m == [] then None
    else if m[0].0 == k then Some(m[0].1)
    else
      var r := Lookup(m[1..], k);
      assert forall i :: 0 < i < |m| ==> m[i] == m[1..][i - 1];
      r
  }

  /** The index of the first entry with key `k`. */
  function IndexOf<K(==), V>(m: OMap<K, V>, k: K): (i: nat)
    requires HasKey(m, k)
    ensures i < |m| && m[i].0 == k
    ensures forall j :: 0 <= j < i ==> m[j].0 != k
  {
    if m[0].0 == k then 0
    else
      assert HasKey(m[1..], k) by {
        var j :| 0 <= j < |m| && m[j].0 == k;
        assert m[1..][j - 1].0 == k;
      }
      1 + IndexOf(m[1..], k)
  }

  lemma LookupAtIndex<K, V>(m: OMap<K, V>, k: K)
    requires HasKey(m, k)
    ensures Lookup(m, k) == Some(m[IndexOf(m, k)].1)
  {
    if m[0].0 != k {
      assert HasKey(m[1..], k) by {
        var j :| 0 <= j < |m| && m[j].0 == k;
        assert m[1..][j - 1].0 == k;
      }
      LookupAtIndex(m[1..], k);
    }
  }

  lemma LookupDistinct<K, V>(m: OMap<K, V>, i: nat)
    requires DistinctKeys(m) && i < |m|
    ensures Lookup(m, m[i].0) == Some(m[i].1)
  {
    LookupAtIndex(m, m[i].0);
  }

  /** `$m[$k] = $v`: replace the value in place when the key exists, otherwise append. */
  function Put<K(==), V>(m: OMap<K, V>, k: K, v: V): (r: OMap<K, V>)
    ensures HasKey(m, k) ==> |r| == |m| && KeysOf(r) == KeysOf(m)
    ensures !HasKey(m, k) ==> r == m + [(k, v)]
  {
    if HasKey(m, k) then m[IndexOf(m, k) := (k, v)] else m + [(k, v)]
  }

  lemma PutLookup<K, V>(m: OMap<K, V>, k: K, v: V, k2: K)
    ensures Lookup(Put(m, k, v), k2) == if k2 == k then Some(v) else Lookup(m, k2)
  {
    var r := Put(m, k, v);
    if HasKey(m, k) {
      var i := IndexOf(m, k);
      if k2 == k {
        LookupAtIndex(r, k);
        assert IndexOf(r, k) == i;
      } else {
        LookupSameKeys(m, r, k2, i);
      }
    } else {
      LookupAppend(m, k, v, k2);
    }
  }

  /** Writing the value a key already holds changes nothing. */
  lemma PutSame<K, V>(m: OMap<K, V>, k: K, v: V)
    requires Lookup(m, k) == Some(v)
    ensures Put(m, k, v) == m
  {
    LookupAtIndex(m, k);
  }

  lemma LookupSameKeys<K, V>(m: OMap<K, V>, r: OMap<K, V>, k2: K, i: nat)
    requires |m| == |r| && i < |m| && forall j :: 0 <= j < |m| && j != i ==> r[j] == m[j]
    requires m[i].0 != k2 && r[i].0 != k2
    ensures Lookup(r, k2) == Lookup(m, k2)
  {
    if m != [] && m[0].0 != k2 {
      if i == 0 {
        LookupSameKeysTail(m, r, k2);
      } else {
        LookupSameKeys(m[1..], r[1..], k2, i - 1);
      }
    }
  }

  lemma LookupSameKeysTail<K, V>(m: OMap<K, V>, r: OMap<K, V>, k2: K)
    requires |m| == |r| > 0 && m[1..] == r[1..]
    ensures Lookup(r, k2) == Lookup(m, k2) || m[0].0 == k2 || r[0].0 == k2
  {
  }

  lemma LookupAppend<K, V>(m: OMap<K, V>, k: K, v: V, k2: K)
    requires !HasKey(m, k)
    ensures Lookup(m + [(k, v)], k2) == if k2 == k then Some(v) else Lookup(m, k2)
  {
    if m != [] {
      assert (m + [(k, v)])[1..] == m[1..] + [(k, v)];
      LookupAppend(m[1..], k, v, k2);
    }
  }

  /** With distinct keys, the last entry answers for its key and the others for theirs. */
  lemma LookupSnoc<K, V>(m: OMap<K, V>, k: K)
    requires DistinctKeys(m) && |m| > 0
    ensures Lookup(m, k) == if k == m[|m| - 1].0 then Some(m[|m| - 1].1) else Lookup(m[..|m| - 1], k)
    ensures HasKey(m, k) <==> k == m[|m| - 1].0 || HasKey(m[..|m| - 1], k)
  {
    var pre := m[..|m| - 1];
    assert m == pre + [m[|m| - 1]];
    assert !HasKey(pre, m[|m| - 1].0);
    LookupAppend(pre, m[|m| - 1].0, m[|m| - 1].1, k);
  }

  /** A non-empty array has a key exactly when its last entry or the ones before have it. */
  lemma HasKeySnoc<K, V>(m: OMap<K, V>, k: K)
    requires |m| > 0
    ensures HasKey(m, k) <==> k == m[|m| - 1].0 || HasKey(m[..|m| - 1], k)
  {
    var pre := m[..|m| - 1];
    if HasKey(m, k) {
      var i :| 0 <= i < |m| && m[i].0 == k;
      if i < |pre| { assert pre[i] == m[i]; }
    }
    if HasKey(pre, k) {
      var i :| 0 <= i < |pre| && pre[i].0 == k;
      assert m[i] == pre[i];
    }
  }

  /** With distinct keys, no entry before or after the `j`-th has its key. */
  lemma DistinctKeyAlone<K, V>(m: OMap<K, V>, j: nat)
    requires DistinctKeys(m) && j < |m|
    ensures !HasKey(m[..j], m[j].0) && !HasKey(m[j + 1..], m[j].0)
  {
    var pre, post := m[..j], m[j + 1..];
    forall i | 0 <= i < |pre| ensures pre[i].0 != m[j].0 { assert pre[i] == m[i]; }
    forall i | 0 <= i < |post| ensures post[i].0 != m[j].0 { assert post[i] == m[j + 1 + i]; }
  }

  /** Appending an entry under a fresh key: what every lookup sees, and what stays in place. */
  lemma AppendFresh<K, V>(m: OMap<K, V>, k: K, v: V)
    requires !HasKey(m, k)
    ensures forall k2 :: Lookup(m + [(k, v)], k2) == if k2 == k then Some(v) else Lookup(m, k2)
    ensures KeysOf(m + [(k, v)])[..|m|] == KeysOf(m)
    ensures DistinctKeys(m) ==> DistinctKeys(m + [(k, v)])
  {
    forall k2 ensures Lookup(m + [(k, v)], k2) == if k2 == k then Some(v) else Lookup(m, k2) {
      LookupAppend(m, k, v, k2);
    }
    assert KeysOf(m + [(k, v)])[..|m|] == KeysOf(m);
  }

  lemma PutDistinct<K, V>(m: OMap<K, V>, k: K, v: V)
    requires DistinctKeys(m)
    ensures DistinctKeys(Put(m, k, v))
  {
    var r := Put(m, k, v);
    if HasKey(m, k) {
      assert forall i :: 0 <= i < |r| ==> r[i].0 == KeysOf(r)[i] == KeysOf(m)[i] == m[i].0;
    }
  }

  /** Writing `$m[$k]` keeps every existing key where it stands and adds at most `k`. */
  lemma PutKeys<K, V>(m: OMap<K, V>, k: K, v: V)
    ensures |m| <= |Put(m, k, v)| && KeysOf(Put(m, k, v))[..|m|] == KeysOf(m)
    ensures forall k2 :: HasKey(Put(m, k, v), k2) <==> HasKey(m, k2) || k2 == k
  {
    var r := Put(m, k, v);
    if HasKey(m, k) {
      forall k2 ensures HasKey(r, k2) <==> HasKey(m, k2) || k2 == k {
        if HasKey(r, k2) {
          var i :| 0 <= i < |r| && r[i].0 == k2;
          assert KeysOf(r)[i] == KeysOf(m)[i];
          assert m[i].0 == k2;
        }
        if HasKey(m, k2) {
          var i :| 0 <= i < |m| && m[i].0 == k2;
          assert KeysOf(r)[i] == KeysOf(m)[i];
          assert r[i].0 == k2;
        }
      }
    } else {
      assert KeysOf(r)[..|m|] == KeysOf(m);
      forall k2 ensures HasKey(r, k2) <==> HasKey(m, k2) || k2 == k {
        if HasKey(r, k2) {
          var i :| 0 <= i < |r| && r[i].0 == k2;
          if i < |m| { assert m[i].0 == k2; }
        }
        if HasKey(m, k2) {
          var i :| 0 <= i < |m| && m[i].0 == k2;
          assert r[i].0 == k2;
        }
        if k2 == k {
          assert r[|m|].0 == k;
        }
      }
    }
  }

  /** A reordering of the entries (such as `ksort`) keeps the set of keys. */
  lemma PermutedKeys<K, V>(m: OMap<K, V>, r: OMap<K, V>, k: K)
    requires multiset(r) == multiset(m)
    ensures HasKey(r, k) <==> HasKey(m, k)
  {
    if HasKey(m, k) {
      var i :| 0 <= i < |m| && m[i].0 == k;
      assert m[i] in multiset(r);
      var j :| 0 <= j < |r| && r[j] == m[i];
    }
    if HasKey(r, k) {
      var i :| 0 <= i < |r| && r[i].0 == k;
      assert r[i] in multiset(m);
      var j :| 0 <= j < |m| && m[j] == r[i];
    }
  }

  /** Every value replaced by its image, keys and order unchanged. */
  function MapValues<K, V, W>(m: OMap<K, V>, f: V -> W): (r: OMap<K, W>)
    ensures |r| == |m| && forall i :: 0 <= i < |m| ==> r[i] == (m[i].0, f(m[i].1))
  {
    seq(|m|, i requires 0 <= i < |m| => (m[i].0, f(m[i].1)))
  }

  /** Mapping a map one more entry at a time. */
  lemma MapValuesPrefix<K, V, W>(m: OMap<K, V>, f: V -> W, i: nat)
    requires i < |m|
    ensures MapValues(m, f)[..i + 1] == MapValues(m, f)[..i] + [(m[i].0, f(m[i].1))]
  {
  }

  lemma ValuesOfSnoc<K, V>(m: OMap<K, V>, e: (K, V))
    ensures ValuesOf(m + [e]) == ValuesOf(m) + [e.1]
  {
  }

  lemma LookupMapValues<K, V, W>(m: OMap<K, V>, f: V -> W, k: K)
    ensures Lookup(MapValues(m, f), k) == if HasKey(m, k) then Some(f(Lookup(m, k).value)) else None
  {
    var r := MapValues(m, f);
    if HasKey(m, k) {
      var i := IndexOf(m, k);
      LookupAtIndex(m, k);
      assert r[i].0 == k;
      assert IndexOf(r, k) == i by {
        var j := IndexOf(r, k);
        assert m[j].0 == k;
        assert j <= i;
        assert r[i].0 == k;
      }
      LookupAtIndex(r, k);
    } else {
      assert forall i :: 0 <= i < |r| ==> r[i].0 == m[i].0;
    }
  }

  /** The entries are in ascending strcmp order of their keys, as after `ksort`. */
  predicate KeySorted<V>(m: OMap<string, V>) {
    forall i, j :: 0 <= i < j < |m| ==> StrLe(m[i].0, m[j].0)
  }

  function InsertByKey<V>(e: (string, V), m: OMap<string, V>): (r: OMap<string, V>)
    ensures multiset(r) == multiset(m) + multiset{e}
  {
    if m == [] then [e]
    else if StrLe(e.0, m[0].0) then [e] + m
    else
      assert m == [m[0]] + m[1..];
      [m[0]] + InsertByKey(e, m[1..])
  }

  lemma {:induction false} InsertByKeySorted<V>(e: (string, V), m: OMap<string, V>)
    requires KeySorted(m)
    ensures KeySorted(InsertByKey(e, m))
  {
    if m == [] {
    } else if StrLe(e.0, m[0].0) {
      forall j | 0 < j < |m| ensures StrLe(e.0, m[j].0) { StrLeTransitive(e.0, m[0].0, m[j].0); }
    } else {
      StrLeTotal(e.0, m[0].0);
      var t := InsertByKey(e, m[1..]);
      InsertByKeySorted(e, m[1..]);
      forall k | 0 <= k < |t| ensures StrLe(m[0].0, t[k].0) {
        assert t[k] in multiset(t);
        assert t[k] == e || t[k] in multiset(m[1..]);
        if t[k] != e {
          var x :| 0 <= x < |m[1..]| && m[1..][x] == t[k];
          assert m[x + 1] == t[k];
        }
      }
    }
  }

  /** PHP's `ksort` on an array with string keys (compared with strcmp). */
  function SortByKey<V>(m: OMap<string, V>): (r: OMap<string, V>)
    ensures multiset(r) == multiset(m)
    ensures KeySorted(r)
  {
    if m == [] then []
    else
      assert m == [m[0]] + m[1..];
      InsertByKeySorted(m[0], SortByKey(m[1..]));
      InsertByKey(m[0], SortByKey(m[1..]))
  }

  /** Sorting by key keeps the keys distinct. */
  lemma SortByKeyDistinct<V>(m: OMap<string, V>)
    requires DistinctKeys(m)
    ensures DistinctKeys(SortByKey(m))
  {
    var r := SortByKey(m);
    forall i, j | 0 <= i < j < |r| ensures r[i].0 != r[j].0 {
      SortedEntriesDiffer(m, r, i, j);
    }
  }

  lemma SortedEntriesDiffer<V>(m: OMap<string, V>, r: OMap<string, V>, i: nat, j: nat)
    requires DistinctKeys(m) && multiset(r) == multiset(m)
    requires i < j < |r|
    ensures r[i].0 != r[j].0
  {
    assert r[i] in multiset(m) && r[j] in multiset(m);
    var a :| 0 <= a < |m| && m[a] == r[i];
    var b :| 0 <= b < |m| && m[b] == r[j];
    assert multiset(r)[r[i]] >= 2 || r[i] != r[j] by {
      assert r == r[..i] + [r[i]] + r[i + 1..j] + [r[j]] + r[j + 1..];
    }
    DistinctCount(m, a);
  }

  /** Sorting by key leaves every lookup unchanged. */
  lemma SortByKeyLookup<V>(m: OMap<string, V>, k: string)
    requires DistinctKeys(m)
    ensures Lookup(SortByKey(m), k) == Lookup(m, k)
  {
    var r := SortByKey(m);
    SortByKeyDistinct(m);
    if HasKey(m, k) {
      var a := IndexOf(m, k);
      LookupAtIndex(m, k);
      assert m[a] in multiset(r);
      var b :| 0 <= b < |r| && r[b] == m[a];
      LookupDistinct(r, b);
    } else {
      forall i | 0 <= i < |r| ensures r[i].0 != k {
        assert r[i] in multiset(m);
      }
    }
  }

  lemma DistinctCount<K, V>(m: OMap<K, V>, a: nat)
    requires DistinctKeys(m) && a < |m|
    ensures multiset(m)[m[a]] == 1
  {
    if a == 0 {
      assert m == [m[0]] + m[1..];
      assert m[0] !in m[1..] by {
        forall j | 0 <= j < |m[1..]| ensures m[1..][j] != m[0] { assert m[j + 1].0 != m[0].0; }
      }
    } else {
      assert m == [m[0]] + m[1..];
      DistinctCount(m[1..], a - 1);
      assert m[0] != m[a];
    }
  }
}
