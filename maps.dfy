/**
 * Maps built from parallel lists of keys and values, as a loop that files
 * `vs[i]` under `ks[i]` one after the other leaves them.
 */
module Maps {

  /** The map filing `vs[i]` under `ks[i]`, later entries winning. */
  function Zip<V>(ks: seq<string>, vs: seq<V>): map<string, V>
    requires |ks| == |vs|
  {
    if ks == [] then map[] else Zip(ks[..|ks| - 1], vs[..|vs| - 1])[ks[|ks| - 1] := vs[|vs| - 1]]
  }

  /** The keys of `Zip(ks, vs)` are those listed in `ks`. */
  lemma {:induction false} ZipKeys<V>(ks: seq<string>, vs: seq<V>)
    requires |ks| == |vs|
    ensures forall k :: k in Zip(ks, vs) <==> k in ks
  {
    if ks != [] {
      var n := |ks| - 1;
      ZipKeys(ks[..n], vs[..n]);
      assert ks == ks[..n] + [ks[n]];
    }
  }

  /** A key that is not listed again later holds its own value. */
  lemma {:induction false} ZipAt<V>(ks: seq<string>, vs: seq<V>, i: nat)
    requires |ks| == |vs| && i < |ks|
    requires forall j :: i < j < |ks| ==> ks[j] != ks[i]
    ensures ks[i] in Zip(ks, vs) && Zip(ks, vs)[ks[i]] == vs[i]
  {
    var n := |ks| - 1;
    if i < n {
      ZipAt(ks[..n], vs[..n], i);
    }
  }

  /** Filing one more value extends the map by that entry. */
  lemma ZipExtend<V>(ks: seq<string>, vs: seq<V>, v: V)
    requires |vs| < |ks|
    ensures Zip(ks[..|vs| + 1], vs + [v]) == Zip(ks[..|vs|], vs)[ks[|vs|] := v]
  {
    var j := |vs|;
    var ks', vs' := ks[..j + 1], vs + [v];
    assert ks'[..j] == ks[..j] && vs'[..j] == vs;
    assert ks'[j] == ks[j] && vs'[j] == v;
    assert Zip(ks', vs') == Zip(ks'[..j], vs'[..j])[ks'[j] := vs'[j]];
  }

  /** Updating an overridden map updates the overriding part. */
  lemma OverrideUpdate<V>(m: map<string, V>, z: map<string, V>, k: string, v: V)
    ensures (m + z)[k := v] == m + z[k := v]
  {
  }

  /** Different keys hold different values. */
  ghost predicate Injective<V>(m: map<string, V>)
  {
    forall k1, k2 :: k1 in m && k2 in m && k1 != k2 ==> m[k1] != m[k2]
  }

  lemma InjectiveAdd<V>(m: map<string, V>, k: string, v: V)
    requires Injective(m) && k !in m
    requires forall j :: j in m ==> m[j] != v
    ensures Injective(m[k := v])
  {
  }

  /** Two-level filing: `v` goes under `t` in the inner map of `n` when
      that one exists and is not empty, and into a new inner map
      otherwise. */
  function File<V>(outer: map<string, map<string, V>>, n: string, t: string, v: V): (r: map<string, map<string, V>>)
    ensures r.Keys == outer.Keys + {n}
    ensures t in r[n] && r[n][t] == v
    ensures forall o :: o in outer && o != n ==> r[o] == outer[o]
  {
    if n in outer && outer[n] != map[] then outer[n := outer[n][t := v]] else outer[n := map[t := v]]
  }

  /** `outer` holds, under each outer and inner key, the value of `m` under
      the key that `ix` names there. */
  ghost predicate Mirrors<V>(outer: map<string, map<string, V>>, ix: map<string, map<string, string>>, m: map<string, V>)
  {
    outer.Keys == ix.Keys
    && (forall n :: n in outer ==> outer[n].Keys == ix[n].Keys)
    && forall n, t :: n in outer && t in outer[n] ==> ix[n][t] in m && outer[n][t] == m[ix[n][t]]
  }

  /** Filing a new value in both levels keeps them in step. */
  lemma MirrorsFile<V>(outer: map<string, map<string, V>>, ix: map<string, map<string, string>>, m: map<string, V>,
                       n: string, t: string, k: string, v: V)
    requires Mirrors(outer, ix, m) && k !in m
    ensures Mirrors(File(outer, n, t, v), File(ix, n, t, k), m[k := v])
  {
    var o2 := File(outer, n, t, v);
    var i2 := File(ix, n, t, k);
    var m2 := m[k := v];
    assert (n in outer && outer[n] != map[]) == (n in ix && ix[n] != map[]) by {
      if n in outer && outer[n] != map[] {
        var t0 :| t0 in outer[n];
        assert t0 in ix[n];
      }
    }
    forall a, b | a in o2 && b in o2[a]
      ensures i2[a][b] in m2 && o2[a][b] == m2[i2[a][b]]
    {
      if a != n || b != t {
        assert a in outer && b in outer[a] && ix[a][b] in m;
      }
    }
  }

  /** `list` holds the values of `m` under the keys of `order`, in that
      order. */
  ghost predicate Follows<V>(list: seq<V>, order: seq<string>, m: map<string, V>)
  {
    |list| == |order| && forall i :: 0 <= i < |list| ==> order[i] in m && list[i] == m[order[i]]
  }

  /** A new key and its value extend both lists. */
  lemma FollowsAppend<V>(list: seq<V>, order: seq<string>, m: map<string, V>, k: string, v: V)
    requires Follows(list, order, m) && k !in m
    ensures Follows(list + [v], order + [k], m[k := v])
  {
    forall i | 0 <= i < |list| + 1
      ensures (order + [k])[i] in m[k := v] && (list + [v])[i] == m[k := v][(order + [k])[i]]
    {
      if i < |list| {
        assert (order + [k])[i] == order[i] && (list + [v])[i] == list[i];
      }
    }
  }

  /** A prefix one element longer. */
  lemma PrefixStep<T>(s: seq<T>, i: nat)
    requires i < |s|
    ensures s[..i + 1] == s[..i] + [s[i]]
  {
  }

  /** The prefix of full length. */
  lemma PrefixAll<T>(s: seq<T>)
    ensures s[..|s|] == s
  {
  }

  /** The keys of a map, each once, in no particular order: the order in
      which a dictionary is iterated. */
  method KeyList<V>(m: map<string, V>) returns (ks: seq<string>)
    ensures |ks| == |m|
    ensures forall k :: k in m <==> k in ks
    ensures forall i, j :: 0 <= i < j < |ks| ==> ks[i] != ks[j]
  {
    ks := [];
    var remaining := m.Keys;
    while remaining != {}
      invariant forall k :: k in m <==> k in remaining || k in ks
      invariant forall k :: k in remaining ==> k !in ks
      invariant forall i, j :: 0 <= i < j < |ks| ==> ks[i] != ks[j]
      decreases remaining
    {
      var k :| k in remaining;
      ks := ks + [k];
      remaining := remaining - {k};
    }
    DistinctCard(ks, m.Keys);
  }

  /** A sequence without repeats whose elements are exactly a set is as
      long as the set is large. */
  lemma {:induction false} DistinctCard(s: seq<string>, keys: set<string>)
    requires forall i, j :: 0 <= i < j < |s| ==> s[i] != s[j]
    requires forall k :: k in keys <==> k in s
    ensures |s| == |keys|
    decreases |s|
  {
    if s != [] {
      var last := s[|s| - 1];
      var init := s[..|s| - 1];
      assert forall k :: k in keys - {last} <==> k in init by {
        forall k ensures k in keys - {last} <==> k in init {
          if k in init {
            var j :| 0 <= j < |init| && init[j] == k;
            assert s[j] == k;
          }
          if k in s && k != last {
            var j :| 0 <= j < |s| && s[j] == k;
            assert j < |s| - 1;
            assert init[j] == k;
          }
        }
      }
      DistinctCard(init, keys - {last});
    } else {
      assert forall k :: k !in keys;
      assert keys == {};
    }
  }
}
