/** Dictionaries that remember the order in which their keys were first inserted. */
module Dicts {
  import opened Base

  datatype Dict<K, V> = Dict(keys: seq<K>, vals: map<K, V>) {

    /** Every key is listed once. */
    ghost predicate Valid() {
      && (forall i, j :: 0 <= i < j < |keys| ==> keys[i] != keys[j])
      && (forall i :: 0 <= i < |keys| ==> keys[i] in vals)
      && (forall k <- vals.Keys :: k in keys)
    }
  }

  function Empty<K, V>(): (d: Dict<K, V>)
    ensures d.Valid()
  {
    Dict([], map[])
  }

  /** Assignment `d[k] = v`: a new key goes last, a key that is there keeps its place. */
  function Set<K(==), V>(d: Dict<K, V>, k: K, v: V): (r: Dict<K, V>)
    ensures r.vals == d.vals[k := v]
    ensures d.Valid() ==> r.Valid()
  {
    if k in d.vals then Dict(d.keys, d.vals[k := v])
    else Dict(d.keys + [k], d.vals[k := v])
  }

  /** The values, in the order of their keys. */
  function Values<K(==), V>(d: Dict<K, V>): (r: seq<V>)
    requires d.Valid()
    ensures |r| == |d.keys|
    ensures forall i :: 0 <= i < |r| ==> r[i] == d.vals[d.keys[i]]
  {
    seq(|d.keys|, i requires 0 <= i < |d.keys| => d.vals[d.keys[i]])
  }

  /** The first `i` entries. */
  function Prefix<K, V>(d: Dict<K, V>, i: nat): Dict<K, V>
    requires d.Valid() && i <= |d.keys|
  {
    Dict(d.keys[..i], map k | k in d.keys[..i] :: d.vals[k])
  }

  /** Inserting the entries one after the other, in order, gives the dictionary back. */
  lemma PrefixNext<K, V>(d: Dict<K, V>, i: nat)
    requires d.Valid() && i < |d.keys|
    ensures Set(Prefix(d, i), d.keys[i], d.vals[d.keys[i]]) == Prefix(d, i + 1)
  {
    assert d.keys[..i + 1] == d.keys[..i] + [d.keys[i]];
    assert d.keys[i] !in d.keys[..i];
    assert Prefix(d, i).vals[d.keys[i] := d.vals[d.keys[i]]] == Prefix(d, i + 1).vals;
  }

  lemma PrefixEnds<K, V>(d: Dict<K, V>)
    requires d.Valid()
    ensures Prefix(d, 0) == Empty() && Prefix(d, |d.keys|) == d
  {
    assert d.keys[..|d.keys|] == d.keys;
    assert Prefix(d, |d.keys|).vals == d.vals;
  }

  /** `d` with every value passed through `f`. */
  function MapValues<K, V>(f: V -> V, d: Dict<K, V>): (r: Dict<K, V>)
    ensures r.keys == d.keys && r.vals.Keys == d.vals.Keys
    ensures forall k <- d.vals :: r.vals[k] == f(d.vals[k])
  {
    Dict(d.keys, map k | k in d.vals :: f(d.vals[k]))
  }

  lemma ValuesMapped<K, V>(f: V -> V, d: Dict<K, V>)
    requires d.Valid()
    ensures MapValues(f, d).Valid() && Values(MapValues(f, d)) == Map(f, Values(d))
  {
    assert MapValues(f, d).Valid();
  }

  lemma MappedTwice<K, V(!new)>(f: V -> V, d: Dict<K, V>)
    requires forall v :: f(f(v)) == f(v)
    ensures MapValues(f, MapValues(f, d)) == MapValues(f, d)
  {
    assert MapValues(f, MapValues(f, d)).vals == MapValues(f, d).vals;
  }
}
