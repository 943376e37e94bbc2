/** Repeated `dict.update`: the merge rule shared by the blob merger and the
    golden-table loader. */
module MapFold {

  /** `acc.update(ms[0]); acc.update(ms[1]); ...` */
  function Fold<K, V>(acc: map<K, V>, ms: seq<map<K, V>>): map<K, V> {
    if |ms| == 0 then acc else Fold(acc, ms[..|ms| - 1]) + ms[|ms| - 1]
  }

  /** Index of the last map holding `k`, or -1. */
  function LastIndexOf<K, V>(ms: seq<map<K, V>>, k: K): (r: int)
    ensures -1 <= r < |ms|
    ensures r >= 0 ==> k in ms[r]
    ensures forall j | r < j < |ms| :: k !in ms[j]
  {
    if |ms| == 0 then -1
    else if k in ms[|ms| - 1] then |ms| - 1
    else LastIndexOf(ms[..|ms| - 1], k)
  }

  /** A key of the fold comes from the start map or from some update, and its
      value is the one of the LAST update that holds it. */
  lemma {:induction false} LaterWins<K, V>(acc: map<K, V>, ms: seq<map<K, V>>, k: K)
    ensures k in Fold(acc, ms) <==> k in acc || exists i | 0 <= i < |ms| :: k in ms[i]
    ensures LastIndexOf(ms, k) >= 0 ==> Fold(acc, ms)[k] == ms[LastIndexOf(ms, k)][k]
    ensures LastIndexOf(ms, k) < 0 && k in acc ==> Fold(acc, ms)[k] == acc[k]
  {
    if |ms| > 0 {
      var init := ms[..|ms| - 1];
      LaterWins(acc, init, k);
      if exists i | 0 <= i < |ms| :: k in ms[i] {
        var i :| 0 <= i < |ms| && k in ms[i];
        if i < |ms| - 1 {
          assert k in init[i];
        }
      }
      if exists i | 0 <= i < |init| :: k in init[i] {
        var i :| 0 <= i < |init| && k in init[i];
        assert k in ms[i];
      }
    }
  }

  /** Every key the start map or an update holds survives the fold. */
  lemma KeysOnlyGrow<K, V>(acc: map<K, V>, ms: seq<map<K, V>>)
    ensures acc.Keys <= Fold(acc, ms).Keys
    ensures forall i | 0 <= i < |ms| :: ms[i].Keys <= Fold(acc, ms).Keys
  {
    forall k | k in acc {
      LaterWins(acc, ms, k);
    }
    forall i, k | 0 <= i < |ms| && k in ms[i]
      ensures k in Fold(acc, ms)
    {
      LaterWins(acc, ms, k);
    }
  }

  /** Folding a concatenation is folding the parts one after the other. */
  lemma {:induction false} FoldAppend<K, V>(acc: map<K, V>, xs: seq<map<K, V>>, ys: seq<map<K, V>>)
    ensures Fold(acc, xs + ys) == Fold(Fold(acc, xs), ys)
    decreases |ys|
  {
    if |ys| > 0 {
      assert (xs + ys)[..|xs + ys| - 1] == xs + ys[..|ys| - 1];
      FoldAppend(acc, xs, ys[..|ys| - 1]);
    } else {
      assert xs + ys == xs;
    }
  }

  /** Updating with a first map and then the rest. */
  lemma FoldCons<K, V>(acc: map<K, V>, m: map<K, V>, ms: seq<map<K, V>>)
    ensures Fold(acc, [m] + ms) == Fold(acc + m, ms)
  {
    FoldAppend(acc, [m], ms);
    assert [m][..0] == [];
  }

  predicate PairwiseDisjoint<K, V>(ms: seq<map<K, V>>) {
    forall i, j | 0 <= i < j < |ms| :: ms[i].Keys !! ms[j].Keys
  }

  /** Updates with pairwise-disjoint key sets commute: any reordering of them
      folds to the same map. */
  lemma OrderIndependent<K, V>(acc: map<K, V>, ms: seq<map<K, V>>, ns: seq<map<K, V>>)
    requires PairwiseDisjoint(ms)
    requires multiset(ms) == multiset(ns)
    ensures Fold(acc, ms) == Fold(acc, ns)
  {
    var f, g := Fold(acc, ms), Fold(acc, ns);
    forall k | k in f
      ensures k in g && f[k] == g[k]
    {
      SameAt(acc, ms, ns, k);
    }
    forall k | k in g
      ensures k in f
    {
      SameAt(acc, ms, ns, k);
    }
    assert f.Keys == g.Keys;
  }

  lemma SameAt<K, V>(acc: map<K, V>, ms: seq<map<K, V>>, ns: seq<map<K, V>>, k: K)
    requires PairwiseDisjoint(ms)
    requires multiset(ms) == multiset(ns)
    ensures k in Fold(acc, ms) <==> k in Fold(acc, ns)
    ensures k in Fold(acc, ms) ==> Fold(acc, ms)[k] == Fold(acc, ns)[k]
  {
    LaterWins(acc, ms, k);
    LaterWins(acc, ns, k);
    var a, b := LastIndexOf(ms, k), LastIndexOf(ns, k);
    if a >= 0 {
      assert ms[a] in multiset(ns);
      var j :| 0 <= j < |ns| && ns[j] == ms[a];
      assert k in ns[j];
    }
    if b >= 0 {
      assert ns[b] in multiset(ms);
      var i :| 0 <= i < |ms| && ms[i] == ns[b];
      assert k in ms[i];
      assert i == a;
    }
  }
}
