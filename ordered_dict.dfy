/** Python's insertion-ordered `dict`: the keys in insertion order beside a
    map from key to value. Assigning an existing key keeps its position,
    a new key goes to the end, `del` removes the key from the order. */
module OrderedDict {

  datatype ODict<K, V> = ODict(keys: seq<K>, vals: map<K, V>) {

    /** Every Python dict satisfies this: keys are distinct and are exactly
        the keys of the map. */
    ghost predicate Valid() {
      && (forall i, j :: 0 <= i < j < |keys| ==> keys[i] != keys[j])
      && (forall i :: 0 <= i < |keys| ==> keys[i] in vals)
      && (forall k :: k in vals ==> k in keys)
    }
  }

  function Empty<K, V>(): (r: ODict<K, V>)
    ensures r.Valid() && r.vals == map[]
  {
    ODict([], map[])
  }

  /** `d.get(k, dflt)` */
  function Get<K, V>(d: ODict<K, V>, k: K, dflt: V): V {
    if k in d.vals then d.vals[k] else dflt
  }

  /** `d[k] = v` */
  function Put<K, V>(d: ODict<K, V>, k: K, v: V): (r: ODict<K, V>)
    ensures d.Valid() ==> r.Valid()
    ensures r.vals == d.vals[k := v]
    ensures k in d.vals ==> r.keys == d.keys
    ensures k !in d.vals ==> r.keys == d.keys + [k]
  {
    if k in d.vals then ODict(d.keys, d.vals[k := v])
    else ODict(d.keys + [k], d.vals[k := v])
  }

  /** The sequence `s` with every occurrence of `x` dropped. */
  function Without<K(==)>(s: seq<K>, x: K): seq<K> {
    if s == [] then []
    else if s[0] == x then Without(s[1..], x)
    else [s[0]] + Without(s[1..], x)
  }

  /** What survives the drop: exactly the elements other than `x`. */
  lemma {:induction false} WithoutMembers<K>(s: seq<K>, x: K)
    ensures forall i :: 0 <= i < |Without(s, x)| ==> Without(s, x)[i] in s && Without(s, x)[i] != x
    ensures forall i :: 0 <= i < |s| && s[i] != x ==> s[i] in Without(s, x)
  {
    if s != [] {
      WithoutMembers(s[1..], x);
      var r, t := Without(s, x), Without(s[1..], x);
      forall i | 0 <= i < |r| ensures r[i] in s && r[i] != x {
        if s[0] != x && i == 0 {
        } else {
          var k := if s[0] == x then i else i - 1;
          assert r[i] == t[k] && t[k] in s[1..];
        }
      }
      forall i | 0 <= i < |s| && s[i] != x ensures s[i] in r {
        if i > 0 { assert s[i] == s[1..][i - 1]; }
      }
    }
  }

  /** `del d[k]` on a key that is present. */
  function Delete<K(==), V>(d: ODict<K, V>, k: K): (r: ODict<K, V>)
    requires d.Valid() && k in d.vals
    ensures r.Valid()
    ensures r.vals == d.vals - {k}
    ensures |r.keys| == |d.keys| - 1
    ensures DroppedAt(d.keys, k, r.keys)
  {
    WithoutMembers(d.keys, k);
    WithoutDistinct(d.keys, k);
    WithoutAt(d.keys, k);
    ODict(Without(d.keys, k), d.vals - {k})
  }

  lemma {:induction false} WithoutDistinct<K>(s: seq<K>, x: K)
    requires forall i, j :: 0 <= i < j < |s| ==> s[i] != s[j]
    ensures var r := Without(s, x);
      && (forall i, j :: 0 <= i < j < |r| ==> r[i] != r[j])
      && |r| == if x in s then |s| - 1 else |s|
  {
    if s != [] {
      WithoutDistinct(s[1..], x);
      if s[0] != x {
        var t := Without(s[1..], x);
        assert s[0] !in s[1..];
        assert s[0] !in t by { WithoutMembers(s[1..], x); }
        assert forall i, j :: 0 <= i < j < |[s[0]] + t| ==> ([s[0]] + t)[i] != ([s[0]] + t)[j] by {
          forall i, j | 0 <= i < j < |[s[0]] + t| ensures ([s[0]] + t)[i] != ([s[0]] + t)[j] {
            if i == 0 { assert ([s[0]] + t)[j] == t[j - 1]; assert t[j - 1] in t; }
          }
        }
      } else {
        assert x !in s[1..];
      }
    }
  }

  /** `after` is `before` with `k` taken out at one of its positions and
      every other element kept in order. */
  ghost predicate DroppedAt<K>(before: seq<K>, k: K, after: seq<K>) {
    exists i :: 0 <= i < |before| && before[i] == k && after == before[..i] + before[i + 1..]
  }

  /** Dropping a key that occurs once removes it at its position and keeps
      the others in order. */
  lemma WithoutAt<K>(s: seq<K>, x: K)
    requires Distinct(s) && x in s
    ensures DroppedAt(s, x, Without(s, x))
  {
    var i :| 0 <= i < |s| && s[i] == x;
    AbsentAround(s, i);
    assert s == s[..i] + [x] + s[i + 1..];
    WithoutSplice(s[..i], x, s[i + 1..]);
  }

  lemma WithoutSplice<K>(pre: seq<K>, x: K, post: seq<K>)
    requires x !in pre && x !in post
    ensures Without(pre + [x] + post, x) == pre + post
  {
    WithoutAbsent(pre, x);
    WithoutAbsent(post, x);
    assert pre + [x] + post == pre + ([x] + post);
    WithoutConcat(pre, [x] + post, x);
    assert ([x] + post)[1..] == post;
  }

  /** In distinct elements, `s[i]` occurs neither before nor after `i`. */
  lemma AbsentAround<K>(s: seq<K>, i: nat)
    requires Distinct(s) && i < |s|
    ensures s[i] !in s[..i] && s[i] !in s[i + 1..]
  {
    var pre, post := s[..i], s[i + 1..];
    forall j | 0 <= j < |pre| ensures pre[j] != s[i] { assert pre[j] == s[j]; }
    forall j | 0 <= j < |post| ensures post[j] != s[i] { assert post[j] == s[i + 1 + j]; }
  }

  lemma {:induction false} WithoutConcat<K>(a: seq<K>, b: seq<K>, x: K)
    ensures Without(a + b, x) == Without(a, x) + Without(b, x)
  {
    if a == [] {
      assert a + b == b;
    } else {
      assert (a + b)[1..] == a[1..] + b;
      WithoutConcat(a[1..], b, x);
    }
  }

  /** Assigns `src[k]` to every key of `ks`, in order. */
  function PutAll<K, V>(d: ODict<K, V>, ks: seq<K>, src: map<K, V>): (r: ODict<K, V>)
    requires forall i :: 0 <= i < |ks| ==> ks[i] in src
    ensures d.Valid() ==> r.Valid()
  {
    if ks == [] then d
    else Put(PutAll(d, ks[..|ks| - 1], src), ks[|ks| - 1], src[ks[|ks| - 1]])
  }

  /** `d.update(e)` */
  function Update<K, V>(d: ODict<K, V>, e: ODict<K, V>): (r: ODict<K, V>)
    requires e.Valid()
    ensures d.Valid() ==> r.Valid()
  {
    PutAll(d, e.keys, e.vals)
  }

  /** The values after PutAll: keys of `ks` take their value from `src`,
      every other key keeps its old one. */
  lemma {:induction false} PutAllVals<K, V>(d: ODict<K, V>, ks: seq<K>, src: map<K, V>)
    requires forall i :: 0 <= i < |ks| ==> ks[i] in src
    ensures forall k :: k in PutAll(d, ks, src).vals ==> k in d.vals || k in ks
    ensures forall k :: k in d.vals ==> k in PutAll(d, ks, src).vals
    ensures forall k :: k in d.vals && k !in ks ==> PutAll(d, ks, src).vals[k] == d.vals[k]
    ensures forall i :: 0 <= i < |ks| ==> ks[i] in PutAll(d, ks, src).vals && PutAll(d, ks, src).vals[ks[i]] == src[ks[i]]
  {
    if ks != [] {
      var init, last := ks[..|ks| - 1], ks[|ks| - 1];
      PutAllVals(d, init, src);
      assert ks == init + [last];
      var r := PutAll(d, ks, src);
      forall i | 0 <= i < |ks| ensures ks[i] in r.vals && r.vals[ks[i]] == src[ks[i]] {
        if i < |ks| - 1 && ks[i] != last { assert ks[i] == init[i]; }
      }
    }
  }

  /** The keys of `ks` that `present` does not hold, in the order of `ks`. */
  function Fresh<K, V>(ks: seq<K>, present: map<K, V>): (r: seq<K>)
    ensures forall i :: 0 <= i < |r| ==> r[i] in ks && r[i] !in present
    ensures forall i :: 0 <= i < |ks| && ks[i] !in present ==> ks[i] in r
  {
    if ks == [] then []
    else Fresh(ks[..|ks| - 1], present) + (if ks[|ks| - 1] in present then [] else [ks[|ks| - 1]])
  }

  /** The key order after PutAll of distinct keys: the old order, then the
      keys that were new, in the order they were assigned. */
  lemma {:induction false} PutAllKeys<K, V>(d: ODict<K, V>, ks: seq<K>, src: map<K, V>)
    requires Distinct(ks)
    requires forall i :: 0 <= i < |ks| ==> ks[i] in src
    ensures PutAll(d, ks, src).keys == d.keys + Fresh(ks, d.vals)
  {
    if ks != [] {
      var init, x := ks[..|ks| - 1], ks[|ks| - 1];
      var t := PutAll(d, init, src);
      assert t.keys == d.keys + Fresh(init, d.vals) by {
        DistinctInit(ks);
        PutAllKeys(d, init, src);
      }
      assert x in t.vals <==> x in d.vals by {
        DistinctInit(ks);
        PutAllVals(d, init, src);
      }
    }
  }

  /** `d.update(e)` keeps `d`'s key order and appends `e`'s new keys in
      `e`'s order. */
  lemma UpdateKeys<K, V>(d: ODict<K, V>, e: ODict<K, V>)
    requires e.Valid()
    ensures Update(d, e).keys == d.keys + Fresh(e.keys, d.vals)
  {
    PutAllKeys(d, e.keys, e.vals);
  }

  /** `d.update(e)` overrides: the new values are `d`'s overridden by `e`'s. */
  lemma UpdateVals<K, V>(d: ODict<K, V>, e: ODict<K, V>)
    requires e.Valid()
    ensures Update(d, e).vals == d.vals + e.vals
  {
    PutAllVals(d, e.keys, e.vals);
    var u := Update(d, e).vals;
    forall k | k in e.vals ensures k in u && u[k] == e.vals[k] {
      var i :| 0 <= i < |e.keys| && e.keys[i] == k;
    }
    forall k | k in u ensures k in d.vals + e.vals {
      if k !in d.vals { var i :| 0 <= i < |e.keys| && e.keys[i] == k; }
    }
  }

  /** The key order after PutAll keeps the old order as a prefix. */
  lemma {:induction false} PutAllKeepsOrder<K, V>(d: ODict<K, V>, ks: seq<K>, src: map<K, V>)
    requires forall i :: 0 <= i < |ks| ==> ks[i] in src
    ensures |d.keys| <= |PutAll(d, ks, src).keys|
    ensures PutAll(d, ks, src).keys[..|d.keys|] == d.keys
  {
    if ks != [] {
      PutAllKeepsOrder(d, ks[..|ks| - 1], src);
    }
  }

  /** Assigning every key of a dict to an empty dict rebuilds that dict. */
  lemma {:induction false} PutAllFromEmpty<K, V>(ks: seq<K>, src: map<K, V>)
    requires Distinct(ks)
    requires forall i :: 0 <= i < |ks| ==> ks[i] in src
    ensures PutAll(Empty(), ks, src).keys == ks
    ensures forall k :: k in PutAll(Empty(), ks, src).vals ==> k in ks
  {
    if ks != [] {
      var init, x := ks[..|ks| - 1], ks[|ks| - 1];
      var t := PutAll(Empty(), init, src);
      assert t.keys == init && x !in t.vals by {
        DistinctInit(ks);
        PutAllFromEmpty(init, src);
      }
      assert init + [x] == ks;
    }
  }

  ghost predicate Distinct<K>(s: seq<K>) {
    forall i, j :: 0 <= i < j < |s| ==> s[i] != s[j]
  }

  /** Dropping the last of distinct keys leaves distinct keys without it. */
  lemma DistinctInit<K>(ks: seq<K>)
    requires |ks| > 0 && Distinct(ks)
    ensures Distinct(ks[..|ks| - 1])
    ensures ks[|ks| - 1] !in ks[..|ks| - 1]
  {
    var init := ks[..|ks| - 1];
    forall i | 0 <= i < |init| ensures init[i] != ks[|ks| - 1] {
      assert init[i] == ks[i];
    }
  }

  /** Copying a dict into an empty dict gives the same dict back. */
  lemma UpdateEmpty<K, V>(e: ODict<K, V>)
    requires e.Valid()
    ensures Update(Empty(), e) == e
  {
    var u := Update(Empty(), e);
    assert u.keys == e.keys by {
      PutAllFromEmpty(e.keys, e.vals);
    }
    assert u.vals == e.vals by {
      UpdateVals(Empty(), e);
      assert map[] + e.vals == e.vals;
    }
  }

  /** Assigning values a dict already holds changes nothing. */
  lemma {:induction false} PutAllPresent<K, V>(d: ODict<K, V>, ks: seq<K>, src: map<K, V>)
    requires forall i :: 0 <= i < |ks| ==> ks[i] in src && ks[i] in d.vals && d.vals[ks[i]] == src[ks[i]]
    ensures PutAll(d, ks, src) == d
  {
    if ks != [] {
      PutAllPresent(d, ks[..|ks| - 1], src);
      assert d.vals[ks[|ks| - 1] := src[ks[|ks| - 1]]] == d.vals;
    }
  }

  /** `d.update(e)` is idempotent: a second update with the same `e` is a no-op. */
  lemma UpdateIdempotent<K, V>(d: ODict<K, V>, e: ODict<K, V>)
    requires e.Valid()
    ensures Update(Update(d, e), e) == Update(d, e)
  {
    var u := Update(d, e);
    UpdateVals(d, e);
    PutAllPresent(u, e.keys, e.vals);
  }

  /** Deleting a key that was just inserted fresh restores the dict. */
  lemma DeleteAfterPut<K, V>(d: ODict<K, V>, k: K, v: V)
    requires d.Valid() && k !in d.vals
    ensures Delete(Put(d, k, v), k) == d
  {
    assert k !in d.keys;
    WithoutSplice(d.keys, k, []);
    assert d.keys + [k] + [] == d.keys + [k] && d.keys + [] == d.keys;
    assert d.vals[k := v] - {k} == d.vals;
  }

  lemma {:induction false} WithoutAbsent<K>(s: seq<K>, x: K)
    requires x !in s
    ensures Without(s, x) == s
  {
    if s != [] {
      WithoutAbsent(s[1..], x);
    }
  }

  /** A dict whose key order starts with `ks` and that has no key outside
      `ks` has exactly the keys `ks`. */
  lemma KeysCoveredByPrefix<K, V>(d: ODict<K, V>, ks: seq<K>)
    requires d.Valid()
    requires |ks| <= |d.keys| && d.keys[..|ks|] == ks
    requires forall k :: k in d.vals ==> k in ks
    ensures d.keys == ks
  {
    if |d.keys| > |ks| {
      NextKeyIsNew(d, ks);
      assert false;
    }
    assert d.keys == d.keys[..|ks|];
  }

  /** A key after the prefix `ks` of a valid dict's order is not in `ks`. */
  lemma NextKeyIsNew<K, V>(d: ODict<K, V>, ks: seq<K>)
    ensures d.Valid() && |ks| < |d.keys| && d.keys[..|ks|] == ks ==> d.keys[|ks|] !in ks
  {
    if d.Valid() && |ks| < |d.keys| && d.keys[..|ks|] == ks {
      forall i | 0 <= i < |ks| ensures ks[i] != d.keys[|ks|] {
        assert ks[i] == d.keys[i];
      }
    }
  }
}
