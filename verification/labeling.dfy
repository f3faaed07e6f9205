/** Cluster labelling (`label_clusters`) and the per-cluster matrix that
    `graph_clusters` draws. A cluster's label names the venue type at the
    first maximal coordinate of its centroid, the mean of its members'
    vectors. For a non-empty cluster that coordinate is the first maximal
    coordinate of the members' elementwise sum, so the model works on
    integer sums and proves the two choices agree. */
module Labeling {
  import opened Wrappers
  import opened AssocLists
  import opened Visits
  import opened Vectors
  import opened Clustering

  /** The exceptions: `user_vectors[user]` on a missing member (KeyError), a
      member list whose vectors numpy cannot stack or reshape (ValueError),
      and `venue_types[i]` past the list's end (IndexError). */
  datatype LabelError = MissingUser(user: UserId) | BadShape | VenueIndexOutOfRange(index: nat, length: nat)

  /** `[user_vectors[user] for user in users]` */
  function Gather(members: seq<UserId>, vectors: UserVectors): (r: Result<seq<seq<int>>, LabelError>)
    ensures r.Ok? ==> |r.value| == |members|
    ensures r.Ok? ==> forall i :: 0 <= i < |members| ==> Get(vectors, members[i]) == Some(r.value[i])
    ensures r.Err? ==> exists i :: 0 <= i < |members| && Get(vectors, members[i]).None? &&
                         r.error == MissingUser(members[i]) &&
                         forall j :: 0 <= j < i ==> Get(vectors, members[j]).Some?
    ensures r.Err? <==> exists i :: 0 <= i < |members| && Get(vectors, members[i]).None?
  {
    if members == [] then Ok([])
    else
      match Get(vectors, members[0])
      case None => Err(MissingUser(members[0]))
      case Some(v) =>
        var rest :- Gather(members[1..], vectors);
        Ok([v] + rest)
  }

  predicate SameLength(vs: seq<seq<int>>, n: nat)
  {
    forall k :: 0 <= k < |vs| ==> |vs[k]| == n
  }

  /** `np.argmax(np.mean(vectors, axis=0))` on the sum instead of the mean.
      The mean of no vectors is a NaN scalar, whose argmax is 0. */
  function Dominant(vecs: seq<seq<int>>): Result<nat, LabelError>
  {
    if vecs == [] then Ok(0)
    else if |vecs[0]| == 0 || !SameLength(vecs, |vecs[0]|) then Err(BadShape)
    else Ok(ArgMax(SumVectors(vecs, |vecs[0]|)))
  }

  function Upper(c: char): char
  {
    if 'a' <= c <= 'z' then (c as int - 32) as char else c
  }

  function Lower(c: char): char
  {
    if 'A' <= c <= 'Z' then (c as int + 32) as char else c
  }

  /** `str.capitalize` on ASCII text: the same letters up to case, the first
      one upper case and the rest lower case. */
  function Capitalize(s: string): (r: string)
    ensures |r| == |s|
    ensures forall i :: 0 <= i < |s| ==> Lower(r[i]) == Lower(s[i])
    ensures |r| > 0 ==> !('a' <= r[0] <= 'z')
    ensures forall i :: 0 < i < |r| ==> !('A' <= r[i] <= 'Z')
  {
    if s == [] then []
    else [Upper(s[0])] + seq(|s| - 1, i requires 0 <= i < |s| - 1 => Lower(s[i + 1]))
  }

  /** The label of one cluster: `f"{venue_types[i].capitalize()} Lovers"`. */
  function LabelOf(members: seq<UserId>, vectors: UserVectors, venueTypes: seq<string>): Result<string, LabelError>
  {
    var vecs :- Gather(members, vectors);
    var i :- Dominant(vecs);
    if i < |venueTypes| then Ok(Capitalize(venueTypes[i]) + " Lovers")
    else Err(VenueIndexOutOfRange(i, |venueTypes|))
  }

  /** `label_clusters`: one label per cluster id, in the clusters' order; the
      first cluster whose label raises aborts the call. */
  function LabelClusters(clusters: Clusters, vectors: UserVectors, venueTypes: seq<string>): (r: Result<seq<(int, string)>, LabelError>)
    ensures r.Ok? ==> Keys(r.value) == Keys(clusters)
    ensures r.Ok? ==> forall i :: 0 <= i < |clusters| ==> LabelOf(clusters[i].1, vectors, venueTypes) == Ok(r.value[i].1)
    ensures r.Err? <==> exists i :: 0 <= i < |clusters| && LabelOf(clusters[i].1, vectors, venueTypes).Err?
    ensures r.Err? ==> exists i :: 0 <= i < |clusters| && LabelOf(clusters[i].1, vectors, venueTypes) == Err(r.error) &&
                         forall j :: 0 <= j < i ==> LabelOf(clusters[j].1, vectors, venueTypes).Ok?
  {
    if clusters == [] then Ok([])
    else
      var s :- LabelOf(clusters[0].1, vectors, venueTypes);
      var rest :- LabelClusters(clusters[1..], vectors, venueTypes);
      Ok([(clusters[0].0, s)] + rest)
  }

  /** The clusters that `cluster_users` builds from a set of vectors name
      only users that have a vector there, so labelling them with those same
      vectors never raises KeyError. */
  lemma ClusteredMembersFound(vectors: UserVectors, k: int, labels: seq<int>, venueTypes: seq<string>)
    requires DistinctKeys(vectors) && |labels| == |vectors|
    requires ClusterUsers(vectors, k, labels).Some?
    ensures var g := ClusterUsers(vectors, k, labels).value;
            forall j :: 0 <= j < |g| ==> Gather(g[j].1, vectors).Ok?
  {
    var g := ClusterUsers(vectors, k, labels).value;
    ClusterUsersPartition(vectors, k, labels);
    forall j | 0 <= j < |g|
      ensures Gather(g[j].1, vectors).Ok?
    {
      forall i | 0 <= i < |g[j].1|
        ensures Get(vectors, g[j].1[i]).Some?
      {
        var u := g[j].1[i];
        assert u in Keys(vectors);
        var n :| 0 <= n < |Keys(vectors)| && Keys(vectors)[n] == u;
        assert vectors[n].0 == u;
      }
    }
  }

  // ---------------------------------------------------------------------
  // Reference: sums over the members, looked up one by one

  /** Entry c of the member's vector, 0 where there is none. */
  function Entry(vectors: UserVectors, u: UserId, c: nat): int
  {
    match Get(vectors, u)
    case Some(v) => if c < |v| then v[c] else 0
    case None => 0
  }

  /** Entry c summed over the members. */
  function MemberSum(members: seq<UserId>, vectors: UserVectors, c: nat): int
  {
    if members == [] then 0 else Entry(vectors, members[0], c) + MemberSum(members[1..], vectors, c)
  }

  /** Every member has a vector of length n. */
  predicate AllPresent(members: seq<UserId>, vectors: UserVectors, n: nat)
  {
    forall u :: u in members ==> Get(vectors, u).Some? && |Get(vectors, u).value| == n
  }

  /** The centroid: the elementwise mean of the member vectors, over the reals. */
  function Centroid(vecs: seq<seq<int>>, n: nat): (m: seq<real>)
    requires |vecs| > 0 && SameLength(vecs, n)
    ensures |m| == n
  {
    seq(n, c requires 0 <= c < n => (ColumnSum(vecs, c) as real) / (|vecs| as real))
  }

  /** i is where `np.argmax` lands on v: a maximum with nothing as large before it. */
  predicate IsFirstMax(v: seq<real>, i: nat)
  {
    && i < |v|
    && (forall j :: 0 <= j < |v| ==> v[j] <= v[i])
    && (forall j :: 0 <= j < i ==> v[j] < v[i])
  }

  lemma DivideMonotone(x: real, y: real, m: real)
    requires m > 0.0
    ensures x <= y ==> x / m <= y / m
    ensures x < y ==> x / m < y / m
  {
    assert y / m - x / m == (y - x) / m;
  }

  /** The argmax of the centroid is the argmax of the integer sum, and no
      other index is the centroid's first maximum. */
  lemma CentroidArgMax(vecs: seq<seq<int>>, n: nat)
    requires |vecs| > 0 && n > 0 && SameLength(vecs, n)
    ensures IsFirstMax(Centroid(vecs, n), ArgMax(SumVectors(vecs, n)))
    ensures forall i :: IsFirstMax(Centroid(vecs, n), i) ==> i == ArgMax(SumVectors(vecs, n))
  {
    var s := SumVectors(vecs, n);
    var m := Centroid(vecs, n);
    var a := ArgMax(s);
    var k := |vecs| as real;
    forall j | 0 <= j < n
      ensures m[j] <= m[a]
      ensures j < a ==> m[j] < m[a]
      ensures s[j] == s[a] ==> m[j] == m[a]
    {
      DivideMonotone(s[j] as real, s[a] as real, k);
    }
  }

  lemma {:induction false} GatherColumns(members: seq<UserId>, vectors: UserVectors, vecs: seq<seq<int>>, n: nat, c: nat)
    requires Gather(members, vectors) == Ok(vecs)
    requires SameLength(vecs, n) && c < n
    ensures ColumnSum(vecs, c) == MemberSum(members, vectors, c)
    decreases members
  {
    if members != [] {
      GatherColumns(members[1..], vectors, vecs[1..], n, c);
    }
  }

  lemma GatherPresent(members: seq<UserId>, vectors: UserVectors, n: nat)
    requires AllPresent(members, vectors, n)
    ensures Gather(members, vectors).Ok?
    ensures SameLength(Gather(members, vectors).value, n)
  {
  }

  /** The label of a non-empty cluster whose members all have n-entry
      vectors: d is the first index where the members' sum is largest, and
      the label is the d-th venue type, capitalised, with " Lovers" appended,
      unless d is past the end of `venueTypes`. */
  lemma LabelOfSpec(members: seq<UserId>, vectors: UserVectors, venueTypes: seq<string>, n: nat, d: nat)
    requires members != [] && n > 0 && AllPresent(members, vectors, n)
    requires d < n
    requires forall c :: 0 <= c < n ==> MemberSum(members, vectors, c) <= MemberSum(members, vectors, d)
    requires forall c :: 0 <= c < d ==> MemberSum(members, vectors, c) < MemberSum(members, vectors, d)
    ensures LabelOf(members, vectors, venueTypes) ==
            if d < |venueTypes| then Ok(Capitalize(venueTypes[d]) + " Lovers")
            else Err(VenueIndexOutOfRange(d, |venueTypes|))
  {
    GatherPresent(members, vectors, n);
    var vecs := Gather(members, vectors).value;
    var s := SumVectors(vecs, n);
    forall c | 0 <= c < n
      ensures s[c] == MemberSum(members, vectors, c)
    {
      GatherColumns(members, vectors, vecs, n, c);
    }
    assert ArgMax(s) == d;
  }

  /** A member without a vector makes the label raise KeyError, at the first such member. */
  lemma LabelOfMissing(members: seq<UserId>, vectors: UserVectors, venueTypes: seq<string>, i: nat)
    requires i < |members| && Get(vectors, members[i]).None?
    requires forall j :: 0 <= j < i ==> Get(vectors, members[j]).Some?
    ensures LabelOf(members, vectors, venueTypes) == Err(MissingUser(members[i]))
  {
    var r := Gather(members, vectors);
    assert r.Err?;
    var k :| 0 <= k < |members| && Get(vectors, members[k]).None? &&
      r.error == MissingUser(members[k]) &&
      forall j :: 0 <= j < k ==> Get(vectors, members[j]).Some?;
    assert k == i;
  }

  // ---------------------------------------------------------------------
  // The heat-map matrix of `graph_clusters`

  function AddVectors(a: seq<int>, b: seq<int>): (r: seq<int>)
    requires |a| == |b|
    ensures |r| == |a|
  {
    seq(|a|, i requires 0 <= i < |a| => a[i] + b[i])
  }

  /** The loop `cluster_matrix += user_vectors[user].reshape(rows, cols)`,
      on flattened matrices of `size` entries. */
  function SumMembers(members: seq<UserId>, vectors: UserVectors, size: nat): (r: Result<seq<int>, LabelError>)
    ensures r.Ok? ==> |r.value| == size
  {
    if members == [] then Ok(Zeros(size))
    else
      match Get(vectors, members[0])
      case None => Err(MissingUser(members[0]))
      case Some(v) =>
        if |v| != size then Err(BadShape)
        else
          var rest :- SumMembers(members[1..], vectors, size);
          Ok(AddVectors(v, rest))
  }

  lemma RowBound(r: nat, c: nat, rows: nat, cols: nat)
    requires r < rows && c < cols
    ensures r * cols + c < rows * cols
    ensures r * cols + cols <= rows * cols
  {
    assert (r + 1) * cols <= rows * cols by {
      assert r + 1 <= rows;
    }
  }

  /** `v.reshape(rows, cols)`: row-major. */
  function Reshape(v: seq<int>, rows: nat, cols: nat): (m: seq<seq<int>>)
    requires |v| == rows * cols
    ensures |m| == rows
    ensures forall r :: 0 <= r < rows ==> |m[r]| == cols
  {
    seq(rows, r requires 0 <= r < rows => RowSlice(v, rows, cols, r))
  }

  function RowSlice(v: seq<int>, rows: nat, cols: nat, r: nat): (row: seq<int>)
    requires |v| == rows * cols && r < rows
    ensures |row| == cols
  {
    if cols == 0 then []
    else
      RowBound(r, 0, rows, cols);
      v[r * cols .. r * cols + cols]
  }

  lemma ReshapeCell(v: seq<int>, rows: nat, cols: nat, r: nat, c: nat)
    requires |v| == rows * cols && r < rows && c < cols
    ensures r * cols + c < |v|
    ensures Reshape(v, rows, cols)[r][c] == v[r * cols + c]
  {
    RowBound(r, c, rows, cols);
  }

  /** The matrix `graph_clusters` draws for one cluster. */
  function ClusterMatrix(members: seq<UserId>, vectors: UserVectors, rows: nat, cols: nat): Result<seq<seq<int>>, LabelError>
  {
    var s :- SumMembers(members, vectors, rows * cols);
    Ok(Reshape(s, rows, cols))
  }

  lemma {:induction false} SumMembersSpec(members: seq<UserId>, vectors: UserVectors, size: nat)
    ensures SumMembers(members, vectors, size).Ok? <==> AllPresent(members, vectors, size)
    ensures SumMembers(members, vectors, size).Ok? ==>
              forall c :: 0 <= c < size ==> SumMembers(members, vectors, size).value[c] == MemberSum(members, vectors, c)
    decreases members
  {
    if members != [] {
      SumMembersSpec(members[1..], vectors, size);
      assert forall u :: u in members <==> u == members[0] || u in members[1..];
    }
  }

  /** Cell (r, c) of a cluster's matrix is the members' summed entry r*cols + c;
      the matrix exists exactly when every member has a rows*cols vector. */
  lemma ClusterMatrixSpec(members: seq<UserId>, vectors: UserVectors, rows: nat, cols: nat)
    ensures ClusterMatrix(members, vectors, rows, cols).Ok? <==> AllPresent(members, vectors, rows * cols)
    ensures ClusterMatrix(members, vectors, rows, cols).Ok? ==>
              var m := ClusterMatrix(members, vectors, rows, cols).value;
              && |m| == rows
              && (forall r :: 0 <= r < rows ==> |m[r]| == cols)
              && forall r, c :: 0 <= r < rows && 0 <= c < cols ==> m[r][c] == MemberSum(members, vectors, r * cols + c)
  {
    SumMembersSpec(members, vectors, rows * cols);
    var s := SumMembers(members, vectors, rows * cols);
    if s.Ok? {
      var m := Reshape(s.value, rows, cols);
      forall r, c | 0 <= r < rows && 0 <= c < cols
        ensures m[r][c] == MemberSum(members, vectors, r * cols + c)
      {
        ReshapeCell(s.value, rows, cols, r, c);
      }
    }
  }

  lemma {:induction false} MemberSumAppend(a: seq<UserId>, b: seq<UserId>, vectors: UserVectors, c: nat)
    ensures MemberSum(a + b, vectors, c) == MemberSum(a, vectors, c) + MemberSum(b, vectors, c)
    decreases a
  {
    if a == [] {
      assert a + b == b;
    } else {
      assert (a + b)[1..] == a[1..] + b;
      MemberSumAppend(a[1..], b, vectors, c);
    }
  }

  /** Taking member j out of the list takes its entry out of the sum. */
  lemma MemberSumRemove(b: seq<UserId>, j: nat, vectors: UserVectors, c: nat)
    requires j < |b|
    ensures MemberSum(b, vectors, c) == Entry(vectors, b[j], c) + MemberSum(b[..j] + b[j + 1..], vectors, c)
  {
    assert b == b[..j] + ([b[j]] + b[j + 1..]);
    MemberSumAppend(b[..j], [b[j]] + b[j + 1..], vectors, c);
    MemberSumAppend(b[..j], b[j + 1..], vectors, c);
    assert ([b[j]] + b[j + 1..])[1..] == b[j + 1..];
  }

  /** Taking element j out of a sequence takes one copy of it out of its multiset. */
  lemma MultisetRemove<T>(b: seq<T>, j: nat)
    requires j < |b|
    ensures multiset(b[..j] + b[j + 1..]) == multiset(b) - multiset{b[j]}
  {
    assert b == b[..j] + [b[j]] + b[j + 1..];
  }

  /** Summing over the members does not depend on their order. */
  lemma {:induction false} MemberSumPermutation(a: seq<UserId>, b: seq<UserId>, vectors: UserVectors, c: nat)
    requires multiset(a) == multiset(b)
    ensures MemberSum(a, vectors, c) == MemberSum(b, vectors, c)
    decreases |a|
  {
    if a != [] {
      var x := a[0];
      assert x in multiset(b);
      var j :| 0 <= j < |b| && b[j] == x;
      MemberSumRemove(b, j, vectors, c);
      MultisetRemove(b, j);
      assert a == [x] + a[1..];
      assert multiset(a[1..]) == multiset(a) - multiset{x};
      MemberSumPermutation(a[1..], b[..j] + b[j + 1..], vectors, c);
    }
  }

  /** Reordering a cluster's members leaves its matrix unchanged. */
  lemma ClusterMatrixOrderFree(a: seq<UserId>, b: seq<UserId>, vectors: UserVectors, rows: nat, cols: nat)
    requires multiset(a) == multiset(b)
    ensures ClusterMatrix(a, vectors, rows, cols).Ok? <==> ClusterMatrix(b, vectors, rows, cols).Ok?
    ensures ClusterMatrix(a, vectors, rows, cols).Ok? ==>
              ClusterMatrix(a, vectors, rows, cols).value == ClusterMatrix(b, vectors, rows, cols).value
  {
    assert forall u :: u in a <==> u in b by {
      forall u
        ensures u in a <==> u in b
      {
        assert u in a <==> u in multiset(a);
        assert u in b <==> u in multiset(b);
      }
    }
    ClusterMatrixSpec(a, vectors, rows, cols);
    ClusterMatrixSpec(b, vectors, rows, cols);
    if ClusterMatrix(a, vectors, rows, cols).Ok? {
      var ma := ClusterMatrix(a, vectors, rows, cols).value;
      var mb := ClusterMatrix(b, vectors, rows, cols).value;
      forall r | 0 <= r < rows
        ensures ma[r] == mb[r]
      {
        forall c | 0 <= c < cols
          ensures ma[r][c] == mb[r][c]
        {
          MemberSumPermutation(a, b, vectors, r * cols + c);
        }
      }
    }
  }

  /** Two members whose summed vector ties between "bar" and "pastery": the
      lower index wins, and the label is "Bar Lovers". */
  lemma TieGoesToLowerIndex()
    ensures LabelOf(["a", "b"], [("a", [1, 0, 3, 0, 0]), ("b", [0, 0, 0, 3, 0])], VenueTypes) == Ok("Bar Lovers")
  {
    var members := ["a", "b"];
    var vectors := [("a", [1, 0, 3, 0, 0]), ("b", [0, 0, 0, 3, 0])];
    TieSums();
    LabelOfSpec(members, vectors, VenueTypes, 5, 2);
    BarLovers();
  }

  lemma BarLovers()
    ensures Capitalize(VenueTypes[2]) + " Lovers" == "Bar Lovers"
  {
    assert VenueTypes[2] == "bar";
    assert Capitalize("bar") == "Bar";
  }

  lemma TieSums()
    ensures var members := ["a", "b"];
            var vectors := [("a", [1, 0, 3, 0, 0]), ("b", [0, 0, 0, 3, 0])];
            && AllPresent(members, vectors, 5)
            && forall c :: 0 <= c < 5 ==> MemberSum(members, vectors, c) == [1, 0, 3, 3, 0][c]
  {
    var members := ["a", "b"];
    var vectors := [("a", [1, 0, 3, 0, 0]), ("b", [0, 0, 0, 3, 0])];
    assert Get(vectors, "a") == Some([1, 0, 3, 0, 0]);
    assert Get(vectors, "b") == Some([0, 0, 0, 3, 0]);
    assert members[1..] == ["b"] && members[1..][1..] == [];
    forall c | 0 <= c < 5
      ensures MemberSum(members, vectors, c) == [1, 0, 3, 3, 0][c]
    {
      assert MemberSum(["b"], vectors, c) == Entry(vectors, "b", c) + MemberSum([], vectors, c);
      assert MemberSum(members, vectors, c) == Entry(vectors, "a", c) + MemberSum(["b"], vectors, c);
    }
  }
}
