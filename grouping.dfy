/** The shape `Array.from(map.values()).sort(byCountDesc)` shared by the
    assembly and part summaries: a map filled by `set` calls, each filing a
    value under a key computed from the value, then its values stably sorted by
    a count, largest first. */
module Grouping {
  import opened OrderedMap
  import opened StableSort

  /** The sorted values of the map that the `set` calls `es` fill. */
  function SortedValues<V>(es: seq<(string, V)>, count: V -> int): (r: seq<V>)
    ensures |r| == |SetEach(es)|
  {
    SortByCountDesc(Values(SetEach(es)), count)
  }

  /** The values come sorted by count, largest first; each is a value that was
      set, under its own key; every key set has a value; and no two values share
      a key. */
  lemma SortedValuesFacts<V>(es: seq<(string, V)>, key: V -> string, count: V -> int)
    requires forall e :: e in es ==> e.0 == key(e.1)
    ensures NonIncreasing(SortedValues(es, count), count)
    ensures forall v :: v in SortedValues(es, count) ==> (key(v), v) in es
    ensures forall i :: 0 <= i < |es| ==> exists v :: v in SortedValues(es, count) && key(v) == es[i].0
    ensures DistinctBy(SortedValues(es, count), key)
  {
    var m := SetEach(es);
    var values := Values(m);
    SetEachEntries(es);
    SortFacts(values, count);
    SortedValuesSet(es, key, count);
    assert SortedValues(es, count) == SortByCountDesc(values, count);
    forall n | 0 <= n < |es| ensures exists v :: v in SortedValues(es, count) && key(v) == es[n].0 {
      SortedValuesCover(es, key, count, n);
    }
    ValuesKeyed(m, key);
    SortDistinct(values, count, key);
  }

  lemma SortedValuesSet<V>(es: seq<(string, V)>, key: V -> string, count: V -> int)
    requires forall e :: e in es ==> e.0 == key(e.1)
    ensures forall v :: v in SortedValues(es, count) ==> (key(v), v) in es
  {
    var m := SetEach(es);
    var values := Values(m);
    SetEachEntries(es);
    forall v | v in SortedValues(es, count) ensures (key(v), v) in es {
      SortMembers(values, count, v);
      var i :| 0 <= i < |values| && values[i] == v;
      assert m[i] in m;
    }
  }

  lemma SortedValuesCover<V>(es: seq<(string, V)>, key: V -> string, count: V -> int, n: nat)
    requires forall e :: e in es ==> e.0 == key(e.1)
    requires n < |es|
    ensures exists v :: v in SortedValues(es, count) && key(v) == es[n].0
  {
    var m := SetEach(es);
    var values := Values(m);
    SetEachHasKeys(es, n);
    GetFinds(m, es[n].0);
    var i :| 0 <= i < |m| && m[i].0 == es[n].0;
    SortMembers(values, count, values[i]);
    SetEachEntries(es);
    assert m[i] in m;
    assert values[i] in SortedValues(es, count) && key(values[i]) == es[n].0;
  }
}
