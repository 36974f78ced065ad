/** Python dictionaries: a mapping that remembers the order in which its keys
    were first inserted. */
module OrderedMaps {

  datatype OrderedMap<V> = OrderedMap(keys: seq<string>, entries: map<string, V>) {

    /** The keys are listed once each, and exactly the keys of the mapping are listed. */
    ghost predicate Valid() {
      && (forall i, j :: 0 <= i < j < |keys| ==> keys[i] != keys[j])
      && (forall k :: k in entries <==> k in keys)
    }

    /** `d[key] = value`: a new key goes to the end, an existing key keeps its place. */
    function Put(key: string, value: V): (r: OrderedMap<V>)
      requires Valid()
      ensures r.Valid()
      ensures r.entries == entries[key := value]
      ensures key in entries ==> r.keys == keys
      ensures key !in entries ==> r.keys == keys + [key]
    {
      if key in entries then OrderedMap(keys, entries[key := value])
      else OrderedMap(keys + [key], entries[key := value])
    }
  }

  function Empty<V>(): (r: OrderedMap<V>)
    ensures r.Valid() && r.keys == [] && r.entries == map[]
  {
    OrderedMap([], map[])
  }

  /** The keys of a sequence of pairs, in order. */
  function Firsts<V>(pairs: seq<(string, V)>): (ks: seq<string>)
    ensures |ks| == |pairs| && forall i :: 0 <= i < |pairs| ==> ks[i] == pairs[i].0
  {
    seq(|pairs|, i requires 0 <= i < |pairs| => pairs[i].0)
  }

  /** A dictionary filled by `d[k] = v` for each pair in turn. */
  function FromPairs<V>(pairs: seq<(string, V)>): (r: OrderedMap<V>)
    ensures r.Valid()
    ensures forall k :: k in r.entries <==> k in Firsts(pairs)
    decreases |pairs|
  {
    if pairs == [] then Empty()
    else
      var init := pairs[..|pairs| - 1];
      assert Firsts(pairs) == Firsts(init) + [pairs[|pairs| - 1].0];
      FromPairs(init).Put(pairs[|pairs| - 1].0, pairs[|pairs| - 1].1)
  }

  /** With keys that never repeat, the dictionary lists them in insertion order,
      each with its own value. */
  lemma {:induction false} FromPairsDistinct<V>(pairs: seq<(string, V)>)
    requires forall i, j :: 0 <= i < j < |pairs| ==> pairs[i].0 != pairs[j].0
    ensures |FromPairs(pairs).keys| == |pairs|
    ensures forall i :: 0 <= i < |pairs| ==>
      FromPairs(pairs).keys[i] == pairs[i].0 && FromPairs(pairs).entries[pairs[i].0] == pairs[i].1
    decreases |pairs|
  {
    if pairs != [] {
      var n := |pairs| - 1;
      var init := pairs[..n];
      assert forall i :: 0 <= i < |init| ==> init[i] == pairs[i];
      FromPairsDistinct(init);
      PutFresh(FromPairs(init), pairs);
    }
  }

  /** Pairs keyed by a list of distinct names give a dictionary that lists
      exactly those names, in that order, each with its own value. */
  lemma FromPairsKeyed<V>(pairs: seq<(string, V)>, names: seq<string>)
    requires |pairs| == |names| && forall i :: 0 <= i < |pairs| ==> pairs[i].0 == names[i]
    requires forall i, j :: 0 <= i < j < |names| ==> names[i] != names[j]
    ensures FromPairs(pairs).keys == names
    ensures forall i :: 0 <= i < |names| ==> FromPairs(pairs).entries[names[i]] == pairs[i].1
  {
    FromPairsDistinct(pairs);
  }

  /** Putting the last pair's key, fresh, after the earlier pairs' distinct keys. */
  lemma PutFresh<V>(m: OrderedMap<V>, pairs: seq<(string, V)>)
    requires pairs != [] && m.Valid()
    requires |m.keys| == |pairs| - 1
    requires forall i :: 0 <= i < |pairs| - 1 ==> m.keys[i] == pairs[i].0 && m.entries[pairs[i].0] == pairs[i].1
    requires forall i :: 0 <= i < |pairs| - 1 ==> pairs[i].0 != pairs[|pairs| - 1].0
    ensures |m.Put(pairs[|pairs| - 1].0, pairs[|pairs| - 1].1).keys| == |pairs|
    ensures forall i :: 0 <= i < |pairs| ==>
      m.Put(pairs[|pairs| - 1].0, pairs[|pairs| - 1].1).keys[i] == pairs[i].0 &&
      m.Put(pairs[|pairs| - 1].0, pairs[|pairs| - 1].1).entries[pairs[i].0] == pairs[i].1
  {
    var n := |pairs| - 1;
    var k := pairs[n].0;
    assert k !in m.keys;
    var r := m.Put(k, pairs[n].1);
    forall i | 0 <= i < |pairs|
      ensures r.keys[i] == pairs[i].0 && r.entries[pairs[i].0] == pairs[i].1
    {
      if i < n {
        assert pairs[i].0 != k;
      }
    }
  }

  /** A key maps to the value of a pair that carries it, when every later pair
      with that key carries the same value: the last assignment wins. */
  lemma {:induction false} FromPairsLast<V>(pairs: seq<(string, V)>, i: nat)
    requires i < |pairs|
    requires forall j :: i < j < |pairs| && pairs[j].0 == pairs[i].0 ==> pairs[j].1 == pairs[i].1
    ensures pairs[i].0 in FromPairs(pairs).entries
    ensures FromPairs(pairs).entries[pairs[i].0] == pairs[i].1
    decreases |pairs|
  {
    var n := |pairs| - 1;
    var init := pairs[..n];
    if i < n {
      assert init[i] == pairs[i];
      assert forall j :: i < j < |init| ==> init[j] == pairs[j];
      FromPairsLast(init, i);
    }
  }

  /** A property every inserted value has, every stored value has. */
  lemma {:induction false} FromPairsValues<V>(pairs: seq<(string, V)>, P: V -> bool)
    requires forall i :: 0 <= i < |pairs| ==> P(pairs[i].1)
    ensures forall k :: k in FromPairs(pairs).entries ==> P(FromPairs(pairs).entries[k])
    decreases |pairs|
  {
    if pairs != [] {
      var init := pairs[..|pairs| - 1];
      assert forall i :: 0 <= i < |init| ==> init[i] == pairs[i];
      FromPairsValues(init, P);
    }
  }
}

