/** The grouping step of `cluster_users`. KMeans itself is not modelled: its
    `labels_` come in as an arbitrary integer sequence, and its refusal of
    unusable input (fewer samples than clusters, no clusters, ragged or empty
    vectors) is the `None` path, as the source's `except` turns any raise into
    `None`. */
module Clustering {
  import opened Wrappers
  import opened AssocLists
  import opened Visits

  /** Cluster label to member list, in order of first appearance of the label. */
  type Clusters = seq<(int, seq<UserId>)>

  /** `clustered_users[label].append(user)` on a `defaultdict(list)`. */
  function AddMember(g: Clusters, cid: int, u: UserId): Clusters
  {
    Update(g, cid, [], AppendUser(u))
  }

  /** `list.append(u)` as a function on member lists. */
  function AppendUser(u: UserId): seq<UserId> -> seq<UserId>
  {
    us => us + [u]
  }

  /** The loop over `zip(labels, users)` after its first m pairs. */
  function Group(users: seq<UserId>, labels: seq<int>, m: nat): Clusters
    requires m <= |users| && m <= |labels|
  {
    if m == 0 then [] else AddMember(Group(users, labels, m - 1), labels[m - 1], users[m - 1])
  }

  /** `zip` stops at the shorter sequence. */
  function ZipLength(users: seq<UserId>, labels: seq<int>): (m: nat)
    ensures m <= |users| && m <= |labels|
    ensures m == |users| || m == |labels|
  {
    if |users| <= |labels| then |users| else |labels|
  }

  function GroupByLabel(users: seq<UserId>, labels: seq<int>): Clusters
  {
    Group(users, labels, ZipLength(users, labels))
  }

  /** What KMeans accepts: at least one cluster, no more clusters than
      samples, and a rectangular, non-empty sample matrix. */
  predicate KMeansAccepts(vectors: UserVectors, k: int)
  {
    && 1 <= k <= |vectors|
    && |vectors[0].1| > 0
    && forall i :: 0 <= i < |vectors| ==> |vectors[i].1| == |vectors[0].1|
  }

  /** `cluster_users(user_vectors, n_clusters)` where KMeans labels the
      vectors, in dict order, with `labels`. */
  function ClusterUsers(vectors: UserVectors, k: int, labels: seq<int>): Option<Clusters>
  {
    if KMeansAccepts(vectors, k) then Some(GroupByLabel(Keys(vectors), labels)) else None
  }

  // ---------------------------------------------------------------------
  // Reference: a cluster's members are the users carrying its cid

  /** The users among the first m whose cid is l, in input order. */
  function Members(users: seq<UserId>, labels: seq<int>, l: int, m: nat): seq<UserId>
    requires m <= |users| && m <= |labels|
  {
    if m == 0 then []
    else Members(users, labels, l, m - 1) + (if labels[m - 1] == l then [users[m - 1]] else [])
  }

  lemma {:induction false} MembersContain(users: seq<UserId>, labels: seq<int>, l: int, m: nat, u: UserId)
    requires m <= |users| && m <= |labels|
    ensures u in Members(users, labels, l, m) <==> exists i :: 0 <= i < m && users[i] == u && labels[i] == l
  {
    if m > 0 {
      MembersContain(users, labels, l, m - 1, u);
    }
  }

  /** No user among the first m carries a cid that none of the first m labels is. */
  lemma MembersAbsent(users: seq<UserId>, labels: seq<int>, l: int, m: nat)
    requires m <= |users| && m <= |labels| && l !in labels[..m]
    ensures Members(users, labels, l, m) == []
  {
    if Members(users, labels, l, m) != [] {
      MembersContain(users, labels, l, m, Members(users, labels, l, m)[0]);
    }
  }

  lemma {:induction false} GroupDistinct(users: seq<UserId>, labels: seq<int>, m: nat)
    requires m <= |users| && m <= |labels|
    ensures DistinctKeys(Group(users, labels, m))
  {
    if m > 0 {
      GroupDistinct(users, labels, m - 1);
      UpdateDistinct(Group(users, labels, m - 1), labels[m - 1], [], AppendUser(users[m - 1]));
    }
  }

  /** One pass of the loop: only the list of the pair's label changes, and
      it gains the pair's user at its end (an empty list if the label is new). */
  lemma GroupStep(users: seq<UserId>, labels: seq<int>, m: nat, l: int)
    requires 0 < m <= |users| && m <= |labels|
    ensures Get(Group(users, labels, m), l) ==
            if l == labels[m - 1] then Some(GetOr(Group(users, labels, m - 1), l, []) + [users[m - 1]])
            else Get(Group(users, labels, m - 1), l)
  {
    var prev := Group(users, labels, m - 1);
    UpdateGet(prev, labels[m - 1], [], AppendUser(users[m - 1]), l);
    assert AppendUser(users[m - 1])(GetOr(prev, labels[m - 1], [])) == GetOr(prev, labels[m - 1], []) + [users[m - 1]];
  }

  lemma {:induction false} GroupLookup(users: seq<UserId>, labels: seq<int>, m: nat, l: int)
    requires m <= |users| && m <= |labels|
    ensures DistinctKeys(Group(users, labels, m))
    ensures Get(Group(users, labels, m), l) ==
            if l in labels[..m] then Some(Members(users, labels, l, m)) else None
  {
    GroupDistinct(users, labels, m);
    if m > 0 {
      var prev := Group(users, labels, m - 1);
      var before := Members(users, labels, l, m - 1);
      GroupLookup(users, labels, m - 1, l);
      GroupStep(users, labels, m, l);
      assert labels[..m] == labels[..m - 1] + [labels[m - 1]];
      assert l in labels[..m] <==> l in labels[..m - 1] || l == labels[m - 1];
      if l == labels[m - 1] {
        if l !in labels[..m - 1] {
          MembersAbsent(users, labels, l, m - 1);
        }
        assert GetOr(prev, l, []) == before;
        assert Members(users, labels, l, m) == before + [users[m - 1]];
      } else {
        assert Members(users, labels, l, m) == before;
      }
    }
  }

  /** The clusters are keyed by the labels that occur, each once, and the
      list of cid l holds exactly the users labelled l, in input order. */
  lemma GroupByLabelSpec(users: seq<UserId>, labels: seq<int>, l: int)
    ensures DistinctKeys(GroupByLabel(users, labels))
    ensures var m := ZipLength(users, labels);
            Get(GroupByLabel(users, labels), l) ==
            if l in labels[..m] then Some(Members(users, labels, l, m)) else None
  {
    GroupLookup(users, labels, ZipLength(users, labels), l);
  }

  /** With one cid per user, the clusters partition the users: user i is
      in the list of cluster `labels[i]` and in no other list, and every
      listed member is one of the users. */
  lemma ClusterPartition(users: seq<UserId>, labels: seq<int>)
    requires Distinct(users) && |labels| == |users|
    ensures var g := GroupByLabel(users, labels);
            && (forall i, j :: 0 <= i < |users| && 0 <= j < |g| ==>
                  (users[i] in g[j].1 <==> g[j].0 == labels[i]))
            && (forall i :: 0 <= i < |users| ==> exists j :: 0 <= j < |g| && g[j].0 == labels[i])
            && (forall j, u :: 0 <= j < |g| && u in g[j].1 ==> u in users)
  {
    var g := GroupByLabel(users, labels);
    forall i, j | 0 <= i < |users| && 0 <= j < |g|
      ensures users[i] in g[j].1 <==> g[j].0 == labels[i]
    {
      ClusterEntry(users, labels, j);
      MembersContain(users, labels, g[j].0, |users|, users[i]);
    }
    forall i | 0 <= i < |users|
      ensures exists j :: 0 <= j < |g| && g[j].0 == labels[i]
    {
      assert labels[..|users|] == labels;
      GroupLookup(users, labels, |users|, labels[i]);
      var j := GetIndex(g, labels[i]);
    }
    forall j, u | 0 <= j < |g| && u in g[j].1
      ensures u in users
    {
      ClusterEntry(users, labels, j);
      MembersContain(users, labels, g[j].0, |users|, u);
    }
  }

  /** Entry j of the grouping holds the members of its own cid. */
  lemma ClusterEntry(users: seq<UserId>, labels: seq<int>, j: nat)
    requires |labels| == |users| && j < |GroupByLabel(users, labels)|
    ensures var g := GroupByLabel(users, labels);
            g[j].1 == Members(users, labels, g[j].0, |users|)
  {
    var g := GroupByLabel(users, labels);
    GroupLookup(users, labels, |users|, g[j].0);
    GetEntry(g, j);
  }

  /** What `cluster_users` promises. It returns None exactly when KMeans
      refuses its input: no clusters, more clusters than users, empty
      vectors or vectors of unequal length. Otherwise, given one label per
      user, the result partitions the users. Its cluster ids are distinct and
      are exactly the labels used. User i sits in the list of `labels[i]` and
      in no other list. Each list holds the users with that label, in the
      order of the input. */
  lemma ClusterUsersPartition(vectors: UserVectors, k: int, labels: seq<int>)
    requires DistinctKeys(vectors) && |labels| == |vectors|
    ensures ClusterUsers(vectors, k, labels).None? <==>
            || k < 1 || |vectors| < k || |vectors[0].1| == 0
            || (exists i :: 0 <= i < |vectors| && |vectors[i].1| != |vectors[0].1|)
    ensures ClusterUsers(vectors, k, labels).Some? ==>
            var g := ClusterUsers(vectors, k, labels).value;
            && DistinctKeys(g)
            && (forall i, j :: 0 <= i < |vectors| && 0 <= j < |g| ==>
                  (vectors[i].0 in g[j].1 <==> g[j].0 == labels[i]))
            && (forall i :: 0 <= i < |vectors| ==> exists j :: 0 <= j < |g| && g[j].0 == labels[i])
            && (forall j :: 0 <= j < |g| ==> g[j].0 in labels)
            && (forall j :: 0 <= j < |g| ==> g[j].1 == Members(Keys(vectors), labels, g[j].0, |vectors|))
            && (forall j, u :: 0 <= j < |g| && u in g[j].1 ==> u in Keys(vectors))
  {
    if KMeansAccepts(vectors, k) {
      var users := Keys(vectors);
      var g := GroupByLabel(users, labels);
      assert Distinct(users);
      assert labels[..|users|] == labels;
      GroupDistinct(users, labels, |users|);
      ClusterPartition(users, labels);
      forall j | 0 <= j < |g|
        ensures g[j].0 in labels
        ensures g[j].1 == Members(users, labels, g[j].0, |users|)
      {
        GetEntry(g, j);
        GroupLookup(users, labels, |users|, g[j].0);
        ClusterEntry(users, labels, j);
      }
    }
  }
}
