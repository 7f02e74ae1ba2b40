/** Python's dict: a map that remembers the order in which keys were first
    inserted. Assigning to an existing key keeps its place. */
module Dicts {

  datatype Dict<K, V> = Dict(keys: seq<K>, vals: map<K, V>)

  /** No element occurs twice: each element is missing from the part of
      the list before it. */
  predicate Distinct<K(==)>(s: seq<K>)
    decreases |s|
  {
    |s| == 0 || (s[|s| - 1] !in s[..|s| - 1] && Distinct(s[..|s| - 1]))
  }

  /** Distinct means that no two positions hold the same element. */
  lemma {:induction false} DistinctIndices<K>(s: seq<K>)
    ensures Distinct(s) <==> forall a, b :: 0 <= a < b < |s| ==> s[a] != s[b]
    decreases |s|
  {
    if |s| > 0 {
      var init, x := s[..|s| - 1], s[|s| - 1];
      DistinctIndices(init);
      if forall a, b :: 0 <= a < b < |s| ==> s[a] != s[b] {
        assert forall a, b :: 0 <= a < b < |init| ==> init[a] != init[b] by {
          forall a, b | 0 <= a < b < |init| ensures init[a] != init[b] {
            assert init[a] == s[a] && init[b] == s[b];
          }
        }
        forall a | 0 <= a < |init| ensures init[a] != x {
          assert init[a] == s[a];
        }
      }
      if Distinct(s) {
        forall a, b | 0 <= a < b < |s| ensures s[a] != s[b] {
          assert init[a] == s[a];
          if b < |s| - 1 {
            assert init[b] == s[b];
          } else {
            assert init[a] in init;
          }
        }
      }
    }
  }

  /** The key list has no repeats and lists exactly the keys of the map. */
  ghost predicate Valid<K(!new), V>(d: Dict<K, V>)
  {
    && Distinct(d.keys)
    && (forall k :: k in d.vals <==> k in d.keys)
  }

  function Empty<K(!new), V>(): (d: Dict<K, V>)
    ensures Valid(d)
  {
    Dict([], map[])
  }

  /** `d[k] = v`. */
  function Put<K(!new), V>(d: Dict<K, V>, k: K, v: V): (r: Dict<K, V>)
    ensures Valid(d) ==> Valid(r)
    ensures r.vals == d.vals[k := v]
    ensures r.keys == if k in d.vals then d.keys else d.keys + [k]
  {
    if k in d.vals then Dict(d.keys, d.vals[k := v])
    else
      assert (d.keys + [k])[..|d.keys|] == d.keys;
      Dict(d.keys + [k], d.vals[k := v])
  }

  /** The keys of `ks`, in order, that are not in `seen`. */
  function NewKeys<K>(seen: set<K>, ks: seq<K>): seq<K>
  {
    if ks == [] then []
    else (if ks[0] in seen then [] else [ks[0]]) + NewKeys(seen, ks[1..])
  }

  lemma {:induction false} NewKeysMember<K>(seen: set<K>, ks: seq<K>, k: K)
    ensures k in NewKeys(seen, ks) <==> k in ks && k !in seen
    decreases |ks|
  {
    if ks != [] {
      NewKeysMember(seen, ks[1..], k);
      assert k in ks <==> k == ks[0] || k in ks[1..];
    }
  }

  lemma {:induction false} NewKeysDistinct<K>(seen: set<K>, ks: seq<K>)
    requires forall a, b :: 0 <= a < b < |ks| ==> ks[a] != ks[b]
    ensures forall a, b :: 0 <= a < b < |NewKeys(seen, ks)| ==> NewKeys(seen, ks)[a] != NewKeys(seen, ks)[b]
    decreases |ks|
  {
    if ks != [] {
      var rest := NewKeys(seen, ks[1..]);
      NewKeysDistinct(seen, ks[1..]);
      if ks[0] !in seen {
        forall a | 0 <= a < |rest| ensures rest[a] != ks[0] {
          NewKeysMember(seen, ks[1..], rest[a]);
          var b :| 0 <= b < |ks[1..]| && ks[1..][b] == rest[a];
          assert ks[b + 1] == rest[a];
        }
      }
    }
  }

  /** The keys NewKeys keeps appear in the same order as in `ks`. */
  lemma {:induction false} NewKeysOrder<K>(seen: set<K>, ks: seq<K>, i: int, j: int)
    requires 0 <= i < j < |NewKeys(seen, ks)|
    ensures exists p, q :: 0 <= p < q < |ks| && ks[p] == NewKeys(seen, ks)[i] && ks[q] == NewKeys(seen, ks)[j]
    decreases |ks|
  {
    var rest := NewKeys(seen, ks[1..]);
    if ks[0] in seen {
      assert NewKeys(seen, ks) == rest;
      NewKeysOrder(seen, ks[1..], i, j);
      var p, q :| 0 <= p < q < |ks[1..]| && ks[1..][p] == rest[i] && ks[1..][q] == rest[j];
      assert ks[p + 1] == rest[i] && ks[q + 1] == rest[j];
    } else {
      assert NewKeys(seen, ks) == [ks[0]] + rest;
      if i == 0 {
        NewKeysMember(seen, ks[1..], rest[j - 1]);
        var q :| 0 <= q < |ks[1..]| && ks[1..][q] == rest[j - 1];
        assert ks[0] == NewKeys(seen, ks)[i] && ks[q + 1] == NewKeys(seen, ks)[j];
      } else {
        NewKeysOrder(seen, ks[1..], i - 1, j - 1);
        var p, q :| 0 <= p < q < |ks[1..]| && ks[1..][p] == rest[i - 1] && ks[1..][q] == rest[j - 1];
        assert ks[p + 1] == NewKeys(seen, ks)[i] && ks[q + 1] == NewKeys(seen, ks)[j];
      }
    }
  }

  /** `d.update(other)`: every key of `other` takes `other`'s value, every
      other key keeps its own; the keys of `other` that `d` lacked follow the
      old keys, in `other`'s order. */
  function Update<K(!new), V>(d: Dict<K, V>, other: Dict<K, V>): (r: Dict<K, V>)
    requires Valid(d) && Valid(other)
    ensures Valid(r)
    ensures forall k :: k in r.vals <==> k in d.vals || k in other.vals
    ensures forall k :: k in r.vals ==> r.vals[k] == if k in other.vals then other.vals[k] else d.vals[k]
    ensures |d.keys| <= |r.keys| && r.keys[..|d.keys|] == d.keys
    ensures forall k :: k in r.keys[|d.keys|..] <==> k in other.vals && k !in d.vals
  {
    var added := NewKeys(d.vals.Keys, other.keys);
    var r := Dict(d.keys + added, d.vals + other.vals);
    DistinctIndices(other.keys);
    NewKeysDistinct(d.vals.Keys, other.keys);
    forall k ensures k in added <==> k in other.keys && k !in d.vals {
      NewKeysMember(d.vals.Keys, other.keys, k);
    }
    assert r.keys[|d.keys|..] == added;
    DistinctIndices(d.keys);
    DistinctIndices(added);
    DistinctIndices(r.keys);
    assert Distinct(r.keys) by {
      forall a, b | 0 <= a < b < |r.keys| ensures r.keys[a] != r.keys[b] {
        if b >= |d.keys| && a < |d.keys| {
          assert r.keys[b] == added[b - |d.keys|] && r.keys[a] == d.keys[a];
          assert r.keys[b] in added;
        }
      }
    }
    r
  }

  /** The keys `d.update(other)` appends keep their order from `other`. */
  lemma UpdateOrder<K(!new), V>(d: Dict<K, V>, other: Dict<K, V>, i: int, j: int)
    requires Valid(d) && Valid(other)
    requires |d.keys| <= i < j < |Update(d, other).keys|
    ensures exists p, q :: 0 <= p < q < |other.keys| &&
              other.keys[p] == Update(d, other).keys[i] && other.keys[q] == Update(d, other).keys[j]
  {
    var r := Update(d, other);
    var added := NewKeys(d.vals.Keys, other.keys);
    assert r.keys == d.keys + added;
    NewKeysOrder(d.vals.Keys, other.keys, i - |d.keys|, j - |d.keys|);
    assert r.keys[i] == added[i - |d.keys|] && r.keys[j] == added[j - |d.keys|];
  }
}
