/** Ordered association lists: the model of a Python dict, whose iteration
    order is insertion order. Keys are kept distinct by the operations that
    build them. */
module AssocLists {
  import opened Wrappers

  /** The keys in list order, as `list(d.keys())`. */
  function Keys<K, V>(s: seq<(K, V)>): (ks: seq<K>)
    ensures |ks| == |s|
    ensures forall i :: 0 <= i < |s| ==> ks[i] == s[i].0
  {
    seq(|s|, i requires 0 <= i < |s| => s[i].0)
  }

  predicate Distinct<T(==)>(s: seq<T>) {
    forall i, j :: 0 <= i < j < |s| ==> s[i] != s[j]
  }

  predicate DistinctKeys<K(==), V>(s: seq<(K, V)>) {
    forall i, j :: 0 <= i < j < |s| ==> s[i].0 != s[j].0
  }

  /** Dict lookup `d.get(k)`: the value stored under the first entry with key `k`. */
  function Get<K(==), V>(s: seq<(K, V)>, k: K): (r: Option<V>)
    ensures r.None? <==> forall i :: 0 <= i < |s| ==> s[i].0 != k
    ensures r.Some? ==> exists i :: 0 <= i < |s| && s[i] == (k, r.value)
  {
    if s == [] then None
    else if s[0].0 == k then Some(s[0].1)
    else
      Get(s[1..], k)
  }

  /** With distinct keys every entry is found under its own key. */
  lemma {:induction false} GetEntry<K, V>(s: seq<(K, V)>, i: nat)
    requires DistinctKeys(s)
    requires i < |s|
    ensures Get(s, s[i].0) == Some(s[i].1)
  {
    if i > 0 {
      GetEntry(s[1..], i - 1);
    }
  }

  /** Where a key that `Get` finds sits in the list. */
  lemma {:induction false} GetIndex<K, V>(s: seq<(K, V)>, k: K) returns (i: nat)
    requires Get(s, k).Some?
    ensures i < |s| && s[i] == (k, Get(s, k).value)
  {
    if s[0].0 == k {
      i := 0;
    } else {
      var j := GetIndex(s[1..], k);
      i := j + 1;
    }
  }

  /** `d.get(k, dflt)` */
  function GetOr<K(==), V>(s: seq<(K, V)>, k: K, dflt: V): V
  {
    match Get(s, k)
    case Some(v) => v
    case None => dflt
  }

  /** `d[k] = f(d[k])` on a defaultdict whose default is `dflt`: an existing
      entry is rewritten in place, a new key is appended at the end. */
  function Update<K(==), V>(s: seq<(K, V)>, k: K, dflt: V, f: V -> V): seq<(K, V)>
  {
    if s == [] then [(k, f(dflt))]
    else if s[0].0 == k then [(k, f(s[0].1))] + s[1..]
    else [s[0]] + Update(s[1..], k, dflt, f)
  }

  /** `Update` keeps every key in place and appends an entry for `k` at the
      end exactly when `k` is new. */
  lemma {:induction false} UpdateKeys<K, V>(s: seq<(K, V)>, k: K, dflt: V, f: V -> V)
    ensures var r := Update(s, k, dflt, f);
            && (|r| == |s| || (|r| == |s| + 1 && r[|s|].0 == k && forall i :: 0 <= i < |s| ==> s[i].0 != k))
            && (|r| == |s| ==> exists i :: 0 <= i < |s| && s[i].0 == k)
            && (forall i :: 0 <= i < |s| ==> r[i].0 == s[i].0)
  {
    if s != [] && s[0].0 != k {
      UpdateKeys(s[1..], k, dflt, f);
      var r := Update(s, k, dflt, f);
      assert r == [s[0]] + Update(s[1..], k, dflt, f);
      if |r| == |s| {
        var i :| 0 <= i < |s[1..]| && s[1..][i].0 == k;
        assert s[i + 1].0 == k;
      }
    }
  }

  lemma UpdateDistinct<K, V>(s: seq<(K, V)>, k: K, dflt: V, f: V -> V)
    requires DistinctKeys(s)
    ensures DistinctKeys(Update(s, k, dflt, f))
  {
    UpdateKeys(s, k, dflt, f);
  }

  /** Lookup after `Update`: only the entry of `k` changes. */
  lemma {:induction false} UpdateGet<K, V>(s: seq<(K, V)>, k: K, dflt: V, f: V -> V, l: K)
    ensures Get(Update(s, k, dflt, f), l) == if l == k then Some(f(GetOr(s, k, dflt))) else Get(s, l)
  {
    var r := Update(s, k, dflt, f);
    if s == [] {
      assert r == [(k, f(dflt))] && r[1..] == [];
      if l != k {
        assert Get(r, l) == Get(r[1..], l);
      }
    } else if s[0].0 != k {
      UpdateGet(s[1..], k, dflt, f, l);
      assert r[1..] == Update(s[1..], k, dflt, f);
    } else {
      assert r[1..] == s[1..];
    }
  }
}
