/** Integer count vectors: the numpy arrays of the profiling code, whose float
    entries only ever hold integers (counts and integer weights). */
module Vectors {

  function Zeros(n: nat): (z: seq<int>)
    ensures |z| == n
    ensures forall i :: 0 <= i < n ==> z[i] == 0
  {
    seq(n, _ => 0)
  }

  function Sum(v: seq<int>): int
  {
    if v == [] then 0 else v[0] + Sum(v[1..])
  }

  lemma {:induction false} SumZeros(n: nat)
    ensures Sum(Zeros(n)) == 0
  {
    if n > 0 {
      assert Zeros(n)[1..] == Zeros(n - 1);
      SumZeros(n - 1);
    }
  }

  /** Adding `d` to one entry adds `d` to the total. */
  lemma {:induction false} SumBump(v: seq<int>, i: nat, d: int)
    requires i < |v|
    ensures Sum(v[i := v[i] + d]) == Sum(v) + d
  {
    if i == 0 {
      assert v[i := v[i] + d][1..] == v[1..];
    } else {
      assert v[i := v[i] + d][1..] == v[1..][i - 1 := v[i] + d];
      SumBump(v[1..], i - 1, d);
    }
  }

  /** `np.argmax` and Python's `max(..., key=...)`: the first index holding the
      maximum, found by a left-to-right scan that only moves on a strictly
      larger value. */
  function ArgMax(v: seq<int>): (i: nat)
    requires |v| > 0
    ensures i < |v|
    ensures forall j :: 0 <= j < |v| ==> v[j] <= v[i]
    ensures forall j :: 0 <= j < i ==> v[j] < v[i]
  {
    if |v| == 1 then 0
    else
      var k := ArgMax(v[..|v| - 1]);
      if v[|v| - 1] > v[k] then |v| - 1 else k
  }

  /** Entry `c` summed over a list of vectors. */
  function ColumnSum(vs: seq<seq<int>>, c: nat): int
    requires forall k :: 0 <= k < |vs| ==> c < |vs[k]|
  {
    if vs == [] then 0 else vs[0][c] + ColumnSum(vs[1..], c)
  }

  /** Elementwise sum of vectors of one length `n`. */
  function SumVectors(vs: seq<seq<int>>, n: nat): (s: seq<int>)
    requires forall k :: 0 <= k < |vs| ==> |vs[k]| == n
    ensures |s| == n
  {
    seq(n, c requires 0 <= c < n => ColumnSum(vs, c))
  }
}
