/** Python's insertion-ordered `dict`, as a sequence of key/value pairs.
    Assigning to a key that is already present keeps the key where it is and
    replaces its value; a new key goes at the end. */
module Dicts {
  import opened Wrappers

  type Dict<K, V> = seq<(K, V)>

  function Keys<K, V>(d: Dict<K, V>): (ks: seq<K>)
    ensures |ks| == |d| && forall i :: 0 <= i < |d| ==> ks[i] == d[i].0
  {
    if d == [] then [] else [d[0].0] + Keys(d[1..])
  }

  predicate HasKey<K(==), V>(d: Dict<K, V>, k: K)
  {
    k in Keys(d)
  }

  /** Python dicts never hold a key twice. */
  predicate KeysUnique<K(==), V>(d: Dict<K, V>)
  {
    forall i, j :: 0 <= i < j < |d| ==> d[i].0 != d[j].0
  }

  /** `d.get(k)`: the value stored under `k` (its first occurrence), or None. */
  function Get<K(==), V>(d: Dict<K, V>, k: K): Option<V>
  {
    if d == [] then None
    else if d[0].0 == k then Some(d[0].1)
    else Get(d[1..], k)
  }

  /** `d[k] = v`. */
  function Put<K(==), V>(d: Dict<K, V>, k: K, v: V): Dict<K, V>
  {
    if d == [] then [(k, v)]
    else if d[0].0 == k then [(k, v)] + d[1..]
    else [d[0]] + Put(d[1..], k, v)
  }

  /** `del d[k]` (every occurrence goes). */
  function Remove<K(==), V>(d: Dict<K, V>, k: K): Dict<K, V>
  {
    if d == [] then []
    else if d[0].0 == k then Remove(d[1..], k)
    else [d[0]] + Remove(d[1..], k)
  }

  /** `dict(pairs)`: a later pair overwrites an earlier one in the earlier one's place. */
  function FromPairs<K(==), V>(pairs: seq<(K, V)>): Dict<K, V>
  {
    FromPairsInto([], pairs)
  }

  function FromPairsInto<K(==), V>(acc: Dict<K, V>, pairs: seq<(K, V)>): Dict<K, V>
    decreases |pairs|
  {
    if pairs == [] then acc else FromPairsInto(Put(acc, pairs[0].0, pairs[0].1), pairs[1..])
  }

  lemma KeysTail<K, V>(d: Dict<K, V>)
    requires d != []
    ensures Keys(d) == [d[0].0] + Keys(d[1..])
  {
  }

  /** `get` finds exactly the keys the dict holds, with a value stored under that key. */
  lemma {:induction false} GetSpec<K, V>(d: Dict<K, V>, k: K)
    ensures Get(d, k).Some? <==> HasKey(d, k)
    ensures Get(d, k).Some? ==> (k, Get(d, k).value) in d
  {
    if d != [] {
      KeysTail(d);
      GetSpec(d[1..], k);
    }
  }

  /** In a dict without repeated keys, every stored pair is what `get` returns. */
  lemma {:induction false} GetUnique<K, V>(d: Dict<K, V>, i: nat)
    requires KeysUnique(d) && i < |d|
    ensures Get(d, d[i].0) == Some(d[i].1)
  {
    if i > 0 {
      assert d[0].0 != d[i].0;
      assert KeysUnique(d[1..]) by {
        forall a, b | 0 <= a < b < |d[1..]| ensures d[1..][a].0 != d[1..][b].0 {
          assert d[a + 1].0 != d[b + 1].0;
        }
      }
      GetUnique(d[1..], i - 1);
    }
  }

  /** After `d[k] = v`, `k` maps to `v` and every other key is untouched. */
  lemma {:induction false} PutGet<K, V>(d: Dict<K, V>, k: K, v: V, k': K)
    ensures Get(Put(d, k, v), k') == if k' == k then Some(v) else Get(d, k')
  {
    if d != [] && d[0].0 != k {
      PutGet(d[1..], k, v, k');
    }
  }

  /** `d[k] = v` keeps every key where it was and appends only a new key. */
  lemma {:induction false} PutKeys<K, V>(d: Dict<K, V>, k: K, v: V)
    ensures HasKey(d, k) ==> Keys(Put(d, k, v)) == Keys(d)
    ensures !HasKey(d, k) ==> Put(d, k, v) == d + [(k, v)]
  {
    if d != [] {
      KeysTail(d);
      if d[0].0 != k {
        PutKeys(d[1..], k, v);
        KeysTail(Put(d, k, v));
      } else {
        KeysTail(Put(d, k, v));
      }
    }
  }

  lemma KeysUniqueByKeys<K, V>(d: Dict<K, V>, e: Dict<K, V>)
    requires Keys(d) == Keys(e) && KeysUnique(d)
    ensures KeysUnique(e)
  {
    forall i, j | 0 <= i < j < |e| ensures e[i].0 != e[j].0 {
      assert Keys(d)[i] == Keys(e)[i] && Keys(d)[j] == Keys(e)[j];
    }
  }

  /** Assignment never creates a repeated key. */
  lemma PutUnique<K, V>(d: Dict<K, V>, k: K, v: V)
    requires KeysUnique(d)
    ensures KeysUnique(Put(d, k, v))
  {
    PutKeys(d, k, v);
    if HasKey(d, k) {
      KeysUniqueByKeys(d, Put(d, k, v));
    } else {
      var r := Put(d, k, v);
      forall i, j | 0 <= i < j < |r| ensures r[i].0 != r[j].0 {
        if j == |d| {
          assert Keys(d)[i] == d[i].0;
        }
      }
    }
  }

  /** After `del d[k]`, `k` is gone and every other key is untouched. */
  lemma {:induction false} RemoveGet<K, V>(d: Dict<K, V>, k: K, k': K)
    ensures Get(Remove(d, k), k') == if k' == k then None else Get(d, k')
  {
    if d != [] {
      RemoveGet(d[1..], k, k');
    }
  }

  /** After `d[k] = v` every pair is an old one or the new one. */
  lemma {:induction false} PutMembers<K, V>(d: Dict<K, V>, k: K, v: V)
    ensures forall p :: p in Put(d, k, v) ==> p in d || p == (k, v)
  {
    if d != [] && d[0].0 != k {
      PutMembers(d[1..], k, v);
    }
  }

  /** `del` keeps the remaining pairs in their order and never creates a repeated key. */
  lemma {:induction false} RemoveSub<K, V>(d: Dict<K, V>, k: K)
    ensures |Remove(d, k)| <= |d|
    ensures forall p :: p in Remove(d, k) ==> p in d
    ensures KeysUnique(d) ==> KeysUnique(Remove(d, k))
  {
    if d != [] {
      RemoveSub(d[1..], k);
      var rest := Remove(d[1..], k);
      if KeysUnique(d) {
        assert KeysUnique(d[1..]) by {
          forall a, b | 0 <= a < b < |d[1..]| ensures d[1..][a].0 != d[1..][b].0 {
            assert d[a + 1].0 != d[b + 1].0;
          }
        }
        if d[0].0 != k {
          var r := Remove(d, k);
          forall i, j | 0 <= i < j < |r| ensures r[i].0 != r[j].0 {
            if i == 0 {
              assert r[j] in d[1..];
              var m :| 0 <= m < |d[1..]| && d[1..][m] == r[j];
              assert d[m + 1] == r[j];
            }
          }
        }
      }
    }
  }

  /** `dict(pairs)` holds each key once, exactly the keys of the pairs. */
  lemma {:induction false} FromPairsIntoSpec<K, V>(acc: Dict<K, V>, pairs: seq<(K, V)>)
    requires KeysUnique(acc)
    ensures KeysUnique(FromPairsInto(acc, pairs))
    ensures forall k :: HasKey(FromPairsInto(acc, pairs), k) <==> HasKey(acc, k) || HasKey(pairs, k)
    decreases |pairs|
  {
    if pairs != [] {
      var acc' := Put(acc, pairs[0].0, pairs[0].1);
      PutUnique(acc, pairs[0].0, pairs[0].1);
      FromPairsIntoSpec(acc', pairs[1..]);
      KeysTail(pairs);
      forall k ensures HasKey(acc', k) <==> HasKey(acc, k) || k == pairs[0].0 {
        PutGet(acc, pairs[0].0, pairs[0].1, k);
        GetSpec(acc, k);
        GetSpec(acc', k);
      }
    }
  }

  /** The value of the last pair with key `k`. */
  function LastValue<K(==), V>(pairs: seq<(K, V)>, k: K): Option<V>
  {
    if pairs == [] then None
    else
      var later := LastValue(pairs[1..], k);
      if later.Some? then later
      else if pairs[0].0 == k then Some(pairs[0].1)
      else None
  }

  function SeqSet<K>(s: seq<K>): set<K>
  {
    set x | x in s
  }

  /** The keys of `ks` that are not in `seen`, each at its first occurrence. */
  function FirstKeys<K(==)>(seen: set<K>, ks: seq<K>): seq<K>
    decreases |ks|
  {
    if ks == [] then []
    else if ks[0] in seen then FirstKeys(seen, ks[1..])
    else [ks[0]] + FirstKeys(seen + {ks[0]}, ks[1..])
  }

  lemma KeysConcat<K, V>(a: Dict<K, V>, b: Dict<K, V>)
    ensures Keys(a + b) == Keys(a) + Keys(b)
  {
  }

  lemma LastValueMeansKey<K, V>(pairs: seq<(K, V)>, k: K)
    ensures LastValue(pairs, k).Some? <==> HasKey(pairs, k)
  {
    if pairs != [] {
      KeysTail(pairs);
      LastValueMeansKey(pairs[1..], k);
    }
  }

  /** `dict(pairs)` on top of `acc`: a key's value is that of its last pair. */
  lemma {:induction false} FromPairsIntoGet<K, V>(acc: Dict<K, V>, pairs: seq<(K, V)>, k: K)
    ensures Get(FromPairsInto(acc, pairs), k)
      == if LastValue(pairs, k).Some? then LastValue(pairs, k) else Get(acc, k)
    decreases |pairs|
  {
    if pairs != [] {
      FromPairsIntoGet(Put(acc, pairs[0].0, pairs[0].1), pairs[1..], k);
      PutGet(acc, pairs[0].0, pairs[0].1, k);
    }
  }

  /** `dict(pairs)` on top of `acc`: the new keys come after the old ones, in
      the order of their first pair. */
  lemma {:induction false} FromPairsIntoKeys<K, V>(acc: Dict<K, V>, pairs: seq<(K, V)>)
    ensures Keys(FromPairsInto(acc, pairs)) == Keys(acc) + FirstKeys(SeqSet(Keys(acc)), Keys(pairs))
    decreases |pairs|
  {
    if pairs != [] {
      var k0, v0 := pairs[0].0, pairs[0].1;
      var acc' := Put(acc, k0, v0);
      FromPairsIntoKeys(acc', pairs[1..]);
      PutKeys(acc, k0, v0);
      KeysTail(pairs);
      if HasKey(acc, k0) {
        assert k0 in SeqSet(Keys(acc));
      } else {
        KeysConcat(acc, [(k0, v0)]);
        assert SeqSet(Keys(acc')) == SeqSet(Keys(acc)) + {k0};
        assert Keys(acc') == Keys(acc) + [k0];
      }
    }
  }

  /** Two dicts with the same keys in the same order and the same value under
      every key are the same dict. */
  lemma DictExt<K, V>(a: Dict<K, V>, b: Dict<K, V>)
    requires KeysUnique(a) && Keys(a) == Keys(b)
    requires forall k :: Get(a, k) == Get(b, k)
    ensures a == b
  {
    KeysUniqueByKeys(a, b);
    assert |a| == |Keys(a)| == |b|;
    forall i | 0 <= i < |a| ensures a[i] == b[i] {
      assert Keys(a)[i] == Keys(b)[i];
      GetUnique(a, i);
      GetUnique(b, i);
    }
  }

  lemma {:induction false} FirstKeysConcat<K>(seen: set<K>, a: seq<K>, b: seq<K>)
    ensures FirstKeys(seen, a + b) == FirstKeys(seen, a) + FirstKeys(seen + SeqSet(a), b)
    decreases |a|
  {
    if a == [] {
      assert a + b == b;
      assert seen + SeqSet(a) == seen;
    } else {
      assert (a + b)[1..] == a[1..] + b;
      assert SeqSet(a) == {a[0]} + SeqSet(a[1..]);
      if a[0] in seen {
        FirstKeysConcat(seen, a[1..], b);
        assert seen + SeqSet(a) == seen + SeqSet(a[1..]);
      } else {
        FirstKeysConcat(seen + {a[0]}, a[1..], b);
        assert seen + SeqSet(a) == seen + {a[0]} + SeqSet(a[1..]);
      }
    }
  }

  lemma {:induction false} FirstKeysSet<K>(seen: set<K>, ks: seq<K>)
    ensures SeqSet(FirstKeys(seen, ks)) == SeqSet(ks) - seen
    decreases |ks|
  {
    if ks != [] {
      assert SeqSet(ks) == {ks[0]} + SeqSet(ks[1..]);
      if ks[0] in seen {
        FirstKeysSet(seen, ks[1..]);
      } else {
        FirstKeysSet(seen + {ks[0]}, ks[1..]);
        assert SeqSet([ks[0]] + FirstKeys(seen + {ks[0]}, ks[1..]))
          == {ks[0]} + SeqSet(FirstKeys(seen + {ks[0]}, ks[1..]));
      }
    }
  }

  /** Taking first occurrences twice is taking them once. */
  lemma {:induction false} FirstKeysTwice<K>(seen: set<K>, inner: set<K>, ks: seq<K>)
    ensures FirstKeys(seen, FirstKeys(inner, ks)) == FirstKeys(seen + inner, ks)
    decreases |ks|
  {
    if ks != [] {
      var k := ks[0];
      if k in inner {
        FirstKeysTwice(seen, inner, ks[1..]);
      } else if k in seen {
        FirstKeysTwice(seen, inner + {k}, ks[1..]);
        assert seen + (inner + {k}) == seen + inner;
      } else {
        FirstKeysTwice(seen + {k}, inner + {k}, ks[1..]);
        assert seen + {k} + (inner + {k}) == seen + inner + {k};
      }
    }
  }

  lemma {:induction false} LastValueConcat<K, V>(a: seq<(K, V)>, b: seq<(K, V)>, k: K)
    ensures LastValue(a + b, k) == if LastValue(b, k).Some? then LastValue(b, k) else LastValue(a, k)
    decreases |a|
  {
    if a == [] {
      assert a + b == b;
    } else {
      assert (a + b)[1..] == a[1..] + b;
      LastValueConcat(a[1..], b, k);
    }
  }

  /** In a dict without repeated keys, the last pair of a key is its only one. */
  lemma {:induction false} LastValueUnique<K, V>(d: Dict<K, V>, k: K)
    requires KeysUnique(d)
    ensures LastValue(d, k) == Get(d, k)
  {
    if d != [] {
      assert KeysUnique(d[1..]) by {
        forall a, b | 0 <= a < b < |d[1..]| ensures d[1..][a].0 != d[1..][b].0 {
          assert d[a + 1].0 != d[b + 1].0;
        }
      }
      LastValueUnique(d[1..], k);
      if d[0].0 == k {
        LastValueMeansKey(d[1..], k);
        assert !HasKey(d[1..], k) by {
          forall i | 0 <= i < |d[1..]| ensures Keys(d[1..])[i] != k {
            assert d[i + 1].0 != d[0].0;
          }
        }
      }
    }
  }

  /** `dict(pairs)` looks up the last pair of each key. */
  lemma FromPairsGet<K, V>(pairs: seq<(K, V)>, k: K)
    ensures Get(FromPairs(pairs), k) == LastValue(pairs, k)
  {
    FromPairsIntoGet([], pairs, k);
  }

  /** `dict(pairs)` orders keys by their first pair. */
  lemma FromPairsKeys<K, V>(pairs: seq<(K, V)>)
    ensures Keys(FromPairs(pairs)) == FirstKeys({}, Keys(pairs))
  {
    FromPairsIntoKeys([], pairs);
    var empty: Dict<K, V> := [];
    assert SeqSet(Keys(empty)) == {};
  }

  lemma SeqSetConcat<K>(a: seq<K>, b: seq<K>)
    ensures SeqSet(a + b) == SeqSet(a) + SeqSet(b)
  {
    forall x ensures x in SeqSet(a + b) <==> x in SeqSet(a) + SeqSet(b) {
      assert x in a + b <==> x in a || x in b;
    }
  }

  lemma FirstKeysSplice<K>(kx: seq<K>, kb: seq<K>, ky: seq<K>)
    ensures FirstKeys({}, kx + FirstKeys({}, kb) + ky) == FirstKeys({}, kx + kb + ky)
  {
    var fkb := FirstKeys({}, kb);
    var sx := {} + SeqSet(kx);
    FirstKeysSet({}, kb);
    SeqSetConcat(kx, fkb);
    SeqSetConcat(kx, kb);
    assert SeqSet(kx + fkb) == SeqSet(kx + kb);
    calc {
      FirstKeys({}, kx + fkb + ky);
      { FirstKeysConcat({}, kx + fkb, ky); }
      FirstKeys({}, kx + fkb) + FirstKeys({} + SeqSet(kx + fkb), ky);
      { FirstKeysConcat({}, kx, fkb); }
      FirstKeys({}, kx) + FirstKeys(sx, fkb) + FirstKeys({} + SeqSet(kx + kb), ky);
      { FirstKeysTwice(sx, {}, kb); assert sx + {} == sx; }
      FirstKeys({}, kx) + FirstKeys(sx, kb) + FirstKeys({} + SeqSet(kx + kb), ky);
      { FirstKeysConcat({}, kx, kb); }
      FirstKeys({}, kx + kb) + FirstKeys({} + SeqSet(kx + kb), ky);
      { FirstKeysConcat({}, kx + kb, ky); }
      FirstKeys({}, kx + kb + ky);
    }
  }

  lemma SpliceKeys<K, V>(x: seq<(K, V)>, b: seq<(K, V)>, y: seq<(K, V)>)
    ensures Keys(FromPairs(x + FromPairs(b) + y)) == Keys(FromPairs(x + b + y))
  {
    var fb := FromPairs(b);
    FromPairsKeys(x + fb + y);
    FromPairsKeys(x + b + y);
    FromPairsKeys(b);
    KeysConcat(x + fb, y);
    KeysConcat(x, fb);
    KeysConcat(x + b, y);
    KeysConcat(x, b);
    FirstKeysSplice(Keys(x), Keys(b), Keys(y));
  }

  lemma SpliceGet<K, V>(x: seq<(K, V)>, b: seq<(K, V)>, y: seq<(K, V)>, k: K)
    ensures Get(FromPairs(x + FromPairs(b) + y), k) == Get(FromPairs(x + b + y), k)
  {
    var fb := FromPairs(b);
    FromPairsIntoSpec([], b);
    FromPairsGet(x + fb + y, k);
    FromPairsGet(x + b + y, k);
    LastValueConcat(x + fb, y, k);
    LastValueConcat(x, fb, k);
    LastValueConcat(x + b, y, k);
    LastValueConcat(x, b, k);
    LastValueUnique(fb, k);
    FromPairsGet(b, k);
  }

  /** Building a dict from pairs that include the items of an intermediate
      dict gives the same dict as using the intermediate pairs directly:
      `dict(x + list(dict(b).items()) + y) == dict(x + b + y)`. */
  lemma FromPairsSplice<K, V>(x: seq<(K, V)>, b: seq<(K, V)>, y: seq<(K, V)>)
    ensures FromPairs(x + FromPairs(b) + y) == FromPairs(x + b + y)
  {
    var lhs := FromPairs(x + FromPairs(b) + y);
    var rhs := FromPairs(x + b + y);
    FromPairsIntoSpec([], x + FromPairs(b) + y);
    SpliceKeys(x, b, y);
    forall k ensures Get(lhs, k) == Get(rhs, k) {
      SpliceGet(x, b, y, k);
    }
    DictExt(lhs, rhs);
  }

  /** `dict(d.items()) == d` for a dict without repeated keys. */
  lemma FromPairsOfDict<K, V>(d: Dict<K, V>)
    requires KeysUnique(d)
    ensures FromPairs(d) == d
  {
    FromPairsIntoSpec([], d);
    FromPairsKeys(d);
    FirstKeysOfDistinct({}, Keys(d));
    forall k ensures Get(FromPairs(d), k) == Get(d, k) {
      FromPairsGet(d, k);
      LastValueUnique(d, k);
    }
    DictExt(FromPairs(d), d);
  }

  lemma {:induction false} FirstKeysOfDistinct<K>(seen: set<K>, ks: seq<K>)
    requires forall i, j :: 0 <= i < j < |ks| ==> ks[i] != ks[j]
    requires forall i :: 0 <= i < |ks| ==> ks[i] !in seen
    ensures FirstKeys(seen, ks) == ks
    decreases |ks|
  {
    if ks != [] {
      FirstKeysOfDistinct(seen + {ks[0]}, ks[1..]);
    }
  }
}
