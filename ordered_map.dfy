/** A JavaScript `Map`: its entries in insertion order. `set` on a key that is
    already there replaces the value in the entry's own place; on a new key it
    appends an entry at the end. */
module OrderedMap {
  import opened Wrappers
  import opened Sums

  type Entries<K, V> = seq<(K, V)>

  /** `map.get(key)`. */
  function Get<K(==), V>(m: Entries<K, V>, key: K): Option<V> {
    if m == [] then None
    else if m[0].0 == key then Some(m[0].1)
    else Get(m[1..], key)
  }

  /** `map.set(key, value)`. */
  function Set<K(==), V>(m: Entries<K, V>, key: K, value: V): (r: Entries<K, V>)
    ensures |r| == if Get(m, key).None? then |m| + 1 else |m|
  {
    if m == [] then [(key, value)]
    else if m[0].0 == key then [(key, value)] + m[1..]
    else [m[0]] + Set(m[1..], key, value)
  }

  /** `Array.from(map.values())`. */
  function Values<K, V>(m: Entries<K, V>): (r: seq<V>)
    ensures |r| == |m| && forall i :: 0 <= i < |m| ==> r[i] == m[i].1
  {
    if m == [] then [] else [m[0].1] + Values(m[1..])
  }

  /** No key appears in two entries. */
  ghost predicate DistinctKeys<K, V>(m: Entries<K, V>) {
    forall i, j :: 0 <= i < |m| && 0 <= j < |m| && i != j ==> m[i].0 != m[j].0
  }

  /** `get` finds an entry exactly when the map has one with that key. */
  lemma {:induction false} GetFinds<K, V>(m: Entries<K, V>, key: K)
    ensures Get(m, key).Some? <==> exists i :: 0 <= i < |m| && m[i].0 == key
    ensures Get(m, key).Some? ==> exists i :: 0 <= i < |m| && m[i] == (key, Get(m, key).value)
  {
    if m != [] && m[0].0 != key {
      GetFinds(m[1..], key);
      if exists i :: 0 <= i < |m| && m[i].0 == key {
        var i :| 0 <= i < |m| && m[i].0 == key;
        assert m[1..][i - 1].0 == key;
      }
      if Get(m, key).Some? {
        var i :| 0 <= i < |m[1..]| && m[1..][i] == (key, Get(m, key).value);
        assert m[i + 1] == (key, Get(m, key).value);
      }
    } else if m != [] {
      assert m[0] == (key, Get(m, key).value);
    }
  }

  /** After `set`, `get` of that key is the new value and every other key reads
      as before; a new key goes to the end. */
  lemma {:induction false} SetGet<K, V>(m: Entries<K, V>, key: K, value: V)
    ensures Get(Set(m, key, value), key) == Some(value)
    ensures forall k :: k != key ==> Get(Set(m, key, value), k) == Get(m, k)
    ensures Get(m, key).None? ==> Set(m, key, value) == m + [(key, value)]
  {
    if m != [] && m[0].0 != key {
      SetGet(m[1..], key, value);
      assert m == [m[0]] + m[1..];
    } else if m != [] {
      assert Set(m, key, value)[1..] == m[1..];
    }
  }

  /** An entry after `set` is the new one or an entry of the old map. */
  lemma {:induction false} SetEntries<K, V>(m: Entries<K, V>, key: K, value: V)
    ensures forall e :: e in Set(m, key, value) ==> e == (key, value) || e in m
  {
    if m != [] && m[0].0 != key {
      SetEntries(m[1..], key, value);
      assert Set(m, key, value) == [m[0]] + Set(m[1..], key, value);
    } else if m != [] {
      assert Set(m, key, value) == [(key, value)] + m[1..];
    }
  }

  lemma DistinctKeysOfTail<K, V>(m: Entries<K, V>)
    requires m != [] && DistinctKeys(m)
    ensures DistinctKeys(m[1..])
    ensures forall e :: e in m[1..] ==> e.0 != m[0].0
  {
    var tail := m[1..];
    forall i, j | 0 <= i < |tail| && 0 <= j < |tail| && i != j ensures tail[i].0 != tail[j].0 {
      assert tail[i] == m[i + 1] && tail[j] == m[j + 1];
    }
    forall e | e in tail ensures e.0 != m[0].0 {
      var j :| 0 <= j < |tail| && tail[j] == e;
      assert m[j + 1] == e;
    }
  }

  /** A head whose key no tail entry has, on distinct tail keys, keeps keys distinct. */
  lemma DistinctKeysOfCons<K, V>(e: (K, V), t: Entries<K, V>)
    requires DistinctKeys(t)
    requires forall x :: x in t ==> x.0 != e.0
    ensures DistinctKeys([e] + t)
  {
    var r := [e] + t;
    forall i, j | 0 <= i < |r| && 0 <= j < |r| && i != j ensures r[i].0 != r[j].0 {
      if i > 0 && j > 0 {
        assert r[i] == t[i - 1] && r[j] == t[j - 1];
      } else if i == 0 {
        assert r[j] == t[j - 1] && r[j] in t;
      } else {
        assert r[i] == t[i - 1] && r[i] in t;
      }
    }
  }

  /** With distinct keys, `get` of an entry's key finds that entry's value. */
  lemma {:induction false} GetOfEntry<K, V>(m: Entries<K, V>, e: (K, V))
    requires DistinctKeys(m) && e in m
    ensures Get(m, e.0) == Some(e.1)
  {
    if m[0] != e {
      DistinctKeysOfTail(m);
      assert e in m[1..];
      GetOfEntry(m[1..], e);
    }
  }

  /** `set` keeps the keys distinct. */
  lemma {:induction false} SetKeepsDistinct<K, V>(m: Entries<K, V>, key: K, value: V)
    requires DistinctKeys(m)
    ensures DistinctKeys(Set(m, key, value))
  {
    if m != [] {
      DistinctKeysOfTail(m);
      if m[0].0 != key {
        SetKeepsDistinct(m[1..], key, value);
        SetEntries(m[1..], key, value);
        DistinctKeysOfCons(m[0], Set(m[1..], key, value));
      } else {
        DistinctKeysOfCons((key, value), m[1..]);
      }
    }
  }

  /** Setting a key adds the new value to the sum over the values and takes away
      the value it replaces, if any. */
  lemma {:induction false} SetSum<K, V>(m: Entries<K, V>, key: K, value: V, f: V -> int)
    ensures SumBy(Values(Set(m, key, value)), f)
         == SumBy(Values(m), f) + f(value) - (if Get(m, key).Some? then f(Get(m, key).value) else 0)
  {
    if m != [] && m[0].0 != key {
      SetSum(m[1..], key, value, f);
      assert Values(Set(m, key, value)) == [m[0].1] + Values(Set(m[1..], key, value));
    } else if m != [] {
      assert Values(Set(m, key, value)) == [value] + Values(m[1..]);
    }
  }

  /** When every entry is filed under a key computed from its value and the keys
      are distinct, the values at two different places have different keys. */
  lemma ValuesKeyed<K, V>(m: Entries<K, V>, key: V -> K)
    requires DistinctKeys(m) && forall e :: e in m ==> e.0 == key(e.1)
    ensures forall i, j :: 0 <= i < |Values(m)| && 0 <= j < |Values(m)| && i != j ==>
              key(Values(m)[i]) != key(Values(m)[j])
  {
    forall i, j | 0 <= i < |m| && 0 <= j < |m| && i != j ensures key(m[i].1) != key(m[j].1) {
      assert m[i] in m && m[j] in m;
    }
  }

  /** A map that starts empty and gets `set(k, v)` for each pair of `es` in turn. */
  function SetEach<K(==), V>(es: seq<(K, V)>): Entries<K, V> {
    if es == [] then [] else Set(SetEach(es[..|es| - 1]), es[|es| - 1].0, es[|es| - 1].1)
  }

  lemma SetEachSnoc<K, V>(es: seq<(K, V)>, e: (K, V))
    ensures SetEach(es + [e]) == Set(SetEach(es), e.0, e.1)
  {
    assert (es + [e])[..|es|] == es;
  }

  /** Every entry of the map is one of the pairs set, and the keys are distinct. */
  lemma {:induction false} SetEachEntries<K, V>(es: seq<(K, V)>)
    ensures forall e :: e in SetEach(es) ==> e in es
    ensures DistinctKeys(SetEach(es))
  {
    if es != [] {
      var init := es[..|es| - 1];
      var e := es[|es| - 1];
      SetEachEntries(init);
      SetEntries(SetEach(init), e.0, e.1);
      SetKeepsDistinct(SetEach(init), e.0, e.1);
      forall x | x in init ensures x in es {
        var i :| 0 <= i < |init| && init[i] == x;
        assert es[i] == x;
      }
    }
  }

  /** Last write wins: a key holds the value of the last pair set with that key. */
  lemma {:induction false} SetEachLastWins<K, V>(es: seq<(K, V)>, i: nat)
    requires i < |es|
    requires forall i2 :: i < i2 < |es| ==> es[i2].0 != es[i].0
    ensures Get(SetEach(es), es[i].0) == Some(es[i].1)
  {
    var init := es[..|es| - 1];
    var e := es[|es| - 1];
    SetGet(SetEach(init), e.0, e.1);
    if i < |es| - 1 {
      assert init[i] == es[i];
      SetEachLastWins(init, i);
    }
  }

  /** Every key set is present. */
  lemma SetEachHasKeys<K, V>(es: seq<(K, V)>, i: nat)
    requires i < |es|
    ensures Get(SetEach(es), es[i].0).Some?
  {
    SetEachLastWins(es, LastWithKey(es, i, |es|));
  }

  /** The last place before `n` that holds the key of `es[i]`. */
  function LastWithKey<K(==), V>(es: seq<(K, V)>, i: nat, n: nat): (last: nat)
    requires i < n <= |es|
    ensures i <= last < n && es[last].0 == es[i].0
    ensures forall i2 :: last < i2 < n ==> es[i2].0 != es[last].0
  {
    if es[n - 1].0 == es[i].0 then n - 1 else LastWithKey(es, i, n - 1)
  }

  /** Later pairs with other keys leave a key's value alone. */
  lemma {:induction false} SetEachAvoids<K, V>(es: seq<(K, V)>, more: seq<(K, V)>, key: K)
    requires forall i :: 0 <= i < |more| ==> more[i].0 != key
    ensures Get(SetEach(es + more), key) == Get(SetEach(es), key)
  {
    if more == [] {
      assert es + more == es;
    } else {
      var init := more[..|more| - 1];
      var last := more[|more| - 1];
      assert es + more == (es + init) + [last];
      SetEachSnoc(es + init, last);
      SetGet(SetEach(es + init), last.0, last.1);
      SetEachAvoids(es, init, key);
    }
  }

  /** After pairs that all carry `value`, each key among them holds `value`. */
  lemma {:induction false} SetEachUniform<K, V>(es: seq<(K, V)>, more: seq<(K, V)>, value: V, i: nat)
    requires i < |more| && forall j :: 0 <= j < |more| ==> more[j].1 == value
    ensures Get(SetEach(es + more), more[i].0) == Some(value)
  {
    var init := more[..|more| - 1];
    var last := more[|more| - 1];
    assert es + more == (es + init) + [last];
    SetEachSnoc(es + init, last);
    SetGet(SetEach(es + init), last.0, last.1);
    if last.0 != more[i].0 {
      assert init[i] == more[i];
      SetEachUniform(es, init, value, i);
    }
  }

  /** `set(k, value)` for each key `k` of `keys`, in order. */
  function Pairs<K, V>(keys: seq<K>, value: V): (r: seq<(K, V)>)
    ensures |r| == |keys| && forall i :: 0 <= i < |keys| ==> r[i] == (keys[i], value)
  {
    seq(|keys|, i requires 0 <= i < |keys| => (keys[i], value))
  }

  lemma PairsAppend<K, V>(a: seq<K>, b: seq<K>, value: V)
    ensures Pairs(a + b, value) == Pairs(a, value) + Pairs(b, value)
  {
    assert forall i :: 0 <= i < |a + b| ==> Pairs(a + b, value)[i] == (Pairs(a, value) + Pairs(b, value))[i];
  }

  /** The `set` calls that file each of `items[..j]` in turn under each of its keys. */
  function FileAll<K, V>(items: seq<V>, keysOf: V -> seq<K>, j: nat): seq<(K, V)>
    requires j <= |items|
  {
    if j == 0 then [] else FileAll(items, keysOf, j - 1) + Pairs(keysOf(items[j - 1]), items[j - 1])
  }

  /** Filing one more item appends its pairs. */
  lemma FileAllStep<K, V>(items: seq<V>, keysOf: V -> seq<K>, j: nat)
    requires j < |items|
    ensures FileAll(items, keysOf, j + 1) == FileAll(items, keysOf, j) + Pairs(keysOf(items[j]), items[j])
  {
  }

  /** Every call files one of the items under one of its own keys. */
  lemma {:induction false} FileAllFacts<K, V>(items: seq<V>, keysOf: V -> seq<K>, j: nat)
    requires j <= |items|
    ensures forall w :: w in FileAll(items, keysOf, j) ==> w.1 in items[..j] && w.0 in keysOf(w.1)
  {
    if j > 0 {
      FileAllFacts(items, keysOf, j - 1);
      var item := items[j - 1];
      var mine := Pairs(keysOf(item), item);
      assert FileAll(items, keysOf, j) == FileAll(items, keysOf, j - 1) + mine;
      forall w | w in FileAll(items, keysOf, j) ensures w.1 in items[..j] && w.0 in keysOf(w.1) {
        if w in mine {
          var i :| 0 <= i < |mine| && mine[i] == w;
          assert items[..j][j - 1] == item;
        } else {
          assert w in FileAll(items, keysOf, j - 1);
          var i :| 0 <= i < j - 1 && items[..j - 1][i] == w.1;
          assert items[..j][i] == w.1;
        }
      }
    }
  }

  /** Last write wins: a key of item `j` that no later item before `n` has
      finds item `j`. */
  lemma {:induction false} FileAllLastWins<K, V>(items: seq<V>, keysOf: V -> seq<K>, j: nat, n: nat, k: K)
    requires j < n <= |items| && k in keysOf(items[j])
    requires forall j2 :: j < j2 < n ==> k !in keysOf(items[j2])
    ensures Get(SetEach(FileAll(items, keysOf, n)), k) == Some(items[j])
  {
    var before := FileAll(items, keysOf, n - 1);
    var last := Pairs(keysOf(items[n - 1]), items[n - 1]);
    assert FileAll(items, keysOf, n) == before + last;
    if n - 1 == j {
      var i :| 0 <= i < |keysOf(items[j])| && keysOf(items[j])[i] == k;
      SetEachUniform(before, last, items[j], i);
    } else {
      FileAllLastWins(items, keysOf, j, n - 1, k);
      SetEachAvoids(before, last, k);
    }
  }

  /** The last item before `n` that has key `k`, item `j` being one that does. */
  function LastFiling<K(==), V>(items: seq<V>, keysOf: V -> seq<K>, j: nat, n: nat, k: K): (last: nat)
    requires j < n <= |items| && k in keysOf(items[j])
    ensures j <= last < n && k in keysOf(items[last])
    ensures forall j2 :: last < j2 < n ==> k !in keysOf(items[j2])
  {
    if k in keysOf(items[n - 1]) then n - 1 else LastFiling(items, keysOf, j, n - 1, k)
  }

  /** The calls for a prefix of the items do not depend on what follows. */
  lemma {:induction false} FileAllOfPrefix<K, V>(items: seq<V>, more: seq<V>, keysOf: V -> seq<K>, j: nat)
    requires j <= |items|
    ensures FileAll(items + more, keysOf, j) == FileAll(items, keysOf, j)
  {
    if j > 0 {
      FileAllOfPrefix(items, more, keysOf, j - 1);
      assert (items + more)[j - 1] == items[j - 1];
    }
  }
}
