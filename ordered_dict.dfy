/**
 * A Python `dict`: a finite map that also remembers the order in which its
 * keys were first inserted. Assigning to an existing key keeps its place;
 * deleting a key and inserting it again moves it to the end.
 */
module OrderedDict {

  /** Distinct elements. */
  ghost predicate Distinct<K>(s: seq<K>) {
    forall i, j :: 0 <= i < j < |s| ==> s[i] != s[j]
  }

  /** Concatenation is associative. */
  lemma AppendAssoc<T>(a: seq<T>, b: seq<T>, c: seq<T>)
    ensures a + b + c == a + (b + c)
  {
  }

  /** The elements of `s` that are not in `gone`, in their order. */
  function KeysNotIn<K(!new)>(s: seq<K>, gone: set<K>): (r: seq<K>)
    ensures forall x :: x in r <==> x in s && x !in gone
    ensures Distinct(s) ==> Distinct(r)
    ensures |r| <= |s|
  {
    if s == [] then []
    else
      var rest := KeysNotIn(s[..|s| - 1], gone);
      var last := s[|s| - 1];
      assert forall x :: x in s <==> x in s[..|s| - 1] || x == last;
      if last in gone then rest else rest + [last]
  }

  /** Removing two sets of keys one after the other is removing their union. */
  lemma {:induction false} KeysNotInTwice<K(!new)>(s: seq<K>, a: set<K>, b: set<K>)
    ensures KeysNotIn(KeysNotIn(s, a), b) == KeysNotIn(s, a + b)
  {
    if s != [] {
      var init := s[..|s| - 1];
      KeysNotInTwice(init, a, b);
      var last := s[|s| - 1];
      if last !in a {
        assert KeysNotIn(s, a) == KeysNotIn(init, a) + [last];
        assert KeysNotIn(s, a)[..|KeysNotIn(s, a)| - 1] == KeysNotIn(init, a);
      }
    }
  }

  /** Removing keys that are absent changes nothing. */
  lemma {:induction false} KeysNotInAbsent<K(!new)>(s: seq<K>, gone: set<K>)
    requires forall x :: x in gone ==> x !in s
    ensures KeysNotIn(s, gone) == s
  {
    if s != [] {
      var init := s[..|s| - 1];
      assert forall x :: x in init ==> x in s;
      KeysNotInAbsent(init, gone);
      assert s == init + [s[|s| - 1]];
    }
  }

  /** Removing a superset of the elements leaves nothing. */
  lemma {:induction false} KeysNotInCovering<K(!new)>(s: seq<K>, gone: set<K>)
    requires forall x :: x in s ==> x in gone
    ensures KeysNotIn(s, gone) == []
  {
    if s != [] {
      var init := s[..|s| - 1];
      assert forall x :: x in init ==> x in s;
      KeysNotInCovering(init, gone);
      assert s[|s| - 1] in s;
    }
  }

  datatype ODict<K(!new), V(==)> = ODict(keys: seq<K>, vals: map<K, V>) {

    /** `keys` lists each key of `vals` exactly once. */
    ghost predicate Valid() {
      Distinct(keys) && forall k :: k in vals <==> k in keys
    }

    /** `d[k] = v`. */
    function Put(k: K, v: V): (r: ODict<K, V>)
      ensures r.vals == vals[k := v]
      ensures Valid() ==> r.Valid()
      ensures k in vals ==> r.keys == keys
      ensures k !in vals ==> r.keys == keys + [k]
    {
      if k in vals then ODict(keys, vals[k := v]) else ODict(keys + [k], vals[k := v])
    }

    /** Deletes every key in `gone`, keeping the order of the others. */
    function RemoveAll(gone: set<K>): (r: ODict<K, V>)
      ensures r.vals == vals - gone
      ensures r.keys == KeysNotIn(keys, gone)
      ensures Valid() ==> r.Valid()
      ensures forall k :: k in r.vals ==> r.vals[k] == vals[k]
    {
      ODict(KeysNotIn(keys, gone), vals - gone)
    }

    /** `d.pop(k)`, keeping the order of the other keys. */
    function Remove(k: K): (r: ODict<K, V>)
      ensures r.vals == vals - {k}
      ensures r.keys == KeysNotIn(keys, {k})
      ensures Valid() ==> r.Valid()
    {
      RemoveAll({k})
    }

    /** The set of values. */
    function ValueSet(): set<V> {
      set k | k in vals :: vals[k]
    }

    /** The values in key order (`d.values()`). */
    function Values(): (r: seq<V>)
      ensures forall v :: v in r ==> exists k :: k in vals && vals[k] == v
      ensures forall i :: 0 <= i < |r| ==> r[i] in ValueSet()
      ensures Valid() ==> forall k :: k in vals ==> vals[k] in r
      ensures vals == map[] ==> r == []
      ensures Valid() ==> |r| == |keys| && forall i :: 0 <= i < |keys| ==> r[i] == vals[keys[i]]
    {
      ValuesOf(keys)
    }

    function ValuesOf(ks: seq<K>): (r: seq<V>)
      ensures forall v :: v in r ==> exists k :: k in vals && vals[k] == v
      ensures forall i :: 0 <= i < |r| ==> r[i] in ValueSet()
      ensures forall k :: k in ks && k in vals ==> vals[k] in r
      ensures vals == map[] ==> r == []
      ensures (forall k :: k in ks ==> k in vals) ==> |r| == |ks| && forall i :: 0 <= i < |ks| ==> r[i] == vals[ks[i]]
    {
      if ks == [] then []
      else
        var rest := ValuesOf(ks[..|ks| - 1]);
        var last := ks[|ks| - 1];
        assert forall k :: k in ks <==> k in ks[..|ks| - 1] || k == last;
        if last in vals then
          assert vals[last] in ValueSet();
          rest + [vals[last]]
        else rest
    }
  }

  /** Every value of a valid dict is among its values in key order. */
  lemma ValuesCover<K(!new), V>(d: ODict<K, V>)
    requires d.Valid()
    ensures forall v :: v in d.ValueSet() ==> v in d.Values()
  {
    forall v | v in d.ValueSet() ensures v in d.Values() {
      var k :| k in d.vals && d.vals[k] == v;
    }
  }

  function Empty<K(!new), V(==)>(): (r: ODict<K, V>)
    ensures r.Valid() && r.vals == map[]
  {
    ODict([], map[])
  }

  /** Of the values of three valid dicts, one dict after the other: the first dict's come first, in key order. */
  lemma FirstInOrder<K(!new), V>(d1: ODict<K, V>, d2: ODict<K, V>, d3: ODict<K, V>)
    requires d1.Valid() && d2.Valid() && d3.Valid()
    ensures forall i :: 0 <= i < |d1.keys| ==> (d1.Values() + d2.Values() + d3.Values())[i] == d1.vals[d1.keys[i]]
  {
  }

  /** ... the second dict's follow, in key order. */
  lemma SecondInOrder<K(!new), V>(d1: ODict<K, V>, d2: ODict<K, V>, d3: ODict<K, V>)
    requires d1.Valid() && d2.Valid() && d3.Valid()
    ensures forall i :: 0 <= i < |d2.keys| ==>
      (d1.Values() + d2.Values() + d3.Values())[|d1.keys| + i] == d2.vals[d2.keys[i]]
  {
  }

  /** ... and the third dict's come last, in key order. */
  lemma ThirdInOrder<K(!new), V>(d1: ODict<K, V>, d2: ODict<K, V>, d3: ODict<K, V>)
    requires d1.Valid() && d2.Valid() && d3.Valid()
    ensures forall i :: 0 <= i < |d3.keys| ==>
      (d1.Values() + d2.Values() + d3.Values())[|d1.keys| + |d2.keys| + i] == d3.vals[d3.keys[i]]
  {
  }

  /** Deleting two sets of keys one after the other deletes their union. */
  lemma RemoveAllTwice<K(!new), V>(d: ODict<K, V>, a: set<K>, b: set<K>)
    ensures d.RemoveAll(a).RemoveAll(b) == d.RemoveAll(a + b)
  {
    KeysNotInTwice(d.keys, a, b);
    assert (d.vals - a) - b == d.vals - (a + b);
  }

  /** `pop` is idempotent: a second pop of the same key changes nothing. */
  lemma RemoveIdempotent<K(!new), V>(d: ODict<K, V>, k: K)
    requires d.Valid()
    ensures d.Remove(k).Remove(k) == d.Remove(k)
  {
    var once := d.Remove(k);
    assert KeysNotIn(once.keys, {k}) == once.keys by {
      KeysNotInAbsent(once.keys, {k});
    }
    assert once.vals - {k} == once.vals;
  }

  /** `pop` of an absent key changes nothing. */
  lemma RemoveAbsent<K(!new), V>(d: ODict<K, V>, k: K)
    requires d.Valid() && k !in d.vals
    ensures d.Remove(k) == d
  {
    KeysNotInAbsent(d.keys, {k});
    assert d.vals - {k} == d.vals;
  }

  /** Deleting every key of a valid dict leaves the empty dict. */
  lemma RemoveEverything<K(!new), V>(d: ODict<K, V>)
    requires d.Valid()
    ensures d.RemoveAll(set k | k in d.vals) == Empty()
  {
    var all := set k | k in d.vals;
    KeysNotInCovering(d.keys, all);
    assert d.vals - all == map[];
  }
}
