/** The weighted profile builder (`calculate_weighted_matrices`). One
    `(week, weight)` tracker runs across the whole traversal: the weight
    starts at 1 and rises by one whenever a visit's ISO week differs from the
    week of the visit before it, whoever that visit belonged to. Each visit
    adds the weight in effect to its venue type's entry of its user's vector.
    The vectors are as long as the log has users, a user without visits gets
    no vector, and an unknown venue or a venue index past the vector's end
    aborts the whole call. */
module Weighted {
  import opened Wrappers
  import opened AssocLists
  import opened Visits
  import opened Vectors

  /** `current_week` (None before the first visit) and `current_weight`. */
  datatype Tracker = Tracker(week: Option<nat>, weight: nat)

  const Start: Tracker := Tracker(None, 1)

  /** The exceptions the builder can raise: `venue_types.index` on an unknown
      venue (ValueError), and an index past the vector's end (IndexError). */
  datatype WeightError = UnknownVenue(venue: string) | IndexOutOfRange(index: nat, length: nat)

  /** The tracker after meeting a visit: the first visit only sets the week,
      a change of week also bumps the weight. */
  function Track(t: Tracker, x: Visit): Tracker
  {
    match t.week
    case None => Tracker(Some(x.isoWeek), t.weight)
    case Some(w) => if w != x.isoWeek then Tracker(Some(x.isoWeek), t.weight + 1) else t
  }

  /** The inner loop over one user's visits, from tracker `t` and running vector `vec`. */
  function WeighVisits(t: Tracker, vec: seq<int>, visits: seq<Visit>): Result<(Tracker, seq<int>), WeightError>
    decreases visits
  {
    if visits == [] then Ok((t, vec))
    else
      var x := visits[0];
      var t' := Track(t, x);
      match VenueIndex(x.venue)
      case None => Err(UnknownVenue(x.venue))
      case Some(v) =>
        if v < |vec| then WeighVisits(t', vec[v := vec[v] + t'.weight], visits[1..])
        else Err(IndexOutOfRange(v, |vec|))
  }

  /** The outer loop over users. The defaultdict creates a user's vector of
      length `n` at the user's first visit, so users without visits get none. */
  function WeighUsers(t: Tracker, n: nat, log: Log): Result<UserVectors, WeightError>
    decreases log
  {
    if log == [] then Ok([])
    else
      var p :- WeighVisits(t, Zeros(n), log[0].1);
      var rest :- WeighUsers(p.0, n, log[1..]);
      Ok(if log[0].1 == [] then rest else [(log[0].0, p.1)] + rest)
  }

  /** `calculate_weighted_matrices`: vectors are `len(data)` long. */
  function WeightedProfiles(log: Log): Result<UserVectors, WeightError>
  {
    WeighUsers(Start, |log|, log)
  }

  // ---------------------------------------------------------------------
  // Reference definitions, independent of the tracker

  /** Number of week changes between consecutive visits up to position i. */
  function Changes(vs: seq<Visit>, i: nat): nat
    requires i < |vs|
  {
    if i == 0 then 0
    else Changes(vs, i - 1) + (if vs[i].isoWeek != vs[i - 1].isoWeek then 1 else 0)
  }

  /** Weight in effect at the i-th visit of traversal `vs`. */
  function WeightAt(vs: seq<Visit>, i: nat): nat
    requires i < |vs|
  {
    1 + Changes(vs, i)
  }

  /** The error a visit raises in a builder whose vectors have length n, if any. */
  function VisitError(x: Visit, n: nat): Option<WeightError>
  {
    match VenueIndex(x.venue)
    case None => Some(UnknownVenue(x.venue))
    case Some(v) => if v < n then None else Some(IndexOutOfRange(v, n))
  }

  /** `e` is the error of the first failing visit of `vs`. */
  predicate IsFirstError(vs: seq<Visit>, n: nat, e: WeightError)
  {
    exists i :: 0 <= i < |vs| && VisitError(vs[i], n) == Some(e) &&
      forall j :: 0 <= j < i ==> VisitError(vs[j], n) == None
  }

  /** Users with at least one visit, in log order. */
  function ActiveUsers(log: Log): seq<UserId>
  {
    if log == [] then []
    else (if log[0].1 == [] then [] else [log[0].0]) + ActiveUsers(log[1..])
  }

  /** Sum of the weights `ws[j]` of the visits `vs[j]` to venue type `c`. */
  function WeightedCount(vs: seq<Visit>, ws: seq<nat>, c: nat): int
    requires |ws| == |vs|
  {
    if vs == [] then 0
    else (if VenueIndex(vs[0].venue) == Some(c) then ws[0] else 0) + WeightedCount(vs[1..], ws[1..], c)
  }

  /** The weights in effect at user k's visits, read off the global traversal. */
  function UserWeights(log: Log, k: nat): (ws: seq<nat>)
    requires k < |log|
    ensures |ws| == |log[k].1|
  {
    TraversalSlice(log, k);
    var off := |Traversal(log[..k])|;
    seq<nat>(|log[k].1|, j requires 0 <= j < |log[k].1| => WeightAt(Traversal(log), off + j))
  }

  // ---------------------------------------------------------------------
  // The tracker as a fold

  function TrackAll(t: Tracker, vs: seq<Visit>): Tracker
    decreases vs
  {
    if vs == [] then t else TrackAll(Track(t, vs[0]), vs[1..])
  }

  /** Weight in effect at each visit of `vs` when the tracker starts at `t`. */
  function WeightsFrom(t: Tracker, vs: seq<Visit>): (ws: seq<nat>)
    ensures |ws| == |vs|
    decreases vs
  {
    if vs == [] then [] else [Track(t, vs[0]).weight] + WeightsFrom(Track(t, vs[0]), vs[1..])
  }

  lemma {:induction false} TrackAllAppend(t: Tracker, a: seq<Visit>, b: seq<Visit>)
    ensures TrackAll(t, a + b) == TrackAll(TrackAll(t, a), b)
    decreases a
  {
    if a != [] {
      assert (a + b)[1..] == a[1..] + b;
      TrackAllAppend(Track(t, a[0]), a[1..], b);
    } else {
      assert a + b == b;
    }
  }

  lemma {:induction false} WeightsFromAppend(t: Tracker, a: seq<Visit>, b: seq<Visit>)
    ensures WeightsFrom(t, a + b) == WeightsFrom(t, a) + WeightsFrom(TrackAll(t, a), b)
    decreases a
  {
    if a != [] {
      assert (a + b)[1..] == a[1..] + b;
      WeightsFromAppend(Track(t, a[0]), a[1..], b);
    } else {
      assert a + b == b;
    }
  }

  /** Counting changes from the second visit on. */
  lemma {:induction false} ChangesTail(vs: seq<Visit>, i: nat)
    requires 1 <= i < |vs|
    ensures Changes(vs, i) == (if vs[1].isoWeek != vs[0].isoWeek then 1 else 0) + Changes(vs[1..], i - 1)
  {
    if i > 1 {
      ChangesTail(vs, i - 1);
    }
  }

  /** A tracker that has seen week w meets `vs`. */
  lemma {:induction false} WeightsFromTracked(t: Tracker, vs: seq<Visit>, i: nat)
    requires t.week.Some? && i < |vs|
    ensures WeightsFrom(t, vs)[i] ==
            t.weight + (if vs[0].isoWeek != t.week.value then 1 else 0) + Changes(vs, i)
    decreases i
  {
    if i > 0 {
      var t1 := Track(t, vs[0]);
      WeightsFromTracked(t1, vs[1..], i - 1);
      ChangesTail(vs, i);
    }
  }

  /** The tracker the builder threads through the loops hands every visit
      the closed-form weight `1 + number of week changes so far`. */
  lemma TrackerWeights(vs: seq<Visit>, i: nat)
    requires i < |vs|
    ensures WeightsFrom(Start, vs)[i] == WeightAt(vs, i)
  {
    if i > 0 {
      WeightsFromTracked(Track(Start, vs[0]), vs[1..], i - 1);
      ChangesTail(vs, i);
    }
  }

  // ---------------------------------------------------------------------
  // Properties of the weights

  /** The weight starts at 1; from one visit to the next it rises by exactly
      one on a change of ISO week and stays put otherwise. */
  lemma WeightSteps(vs: seq<Visit>, i: nat)
    requires i + 1 < |vs|
    ensures WeightsFrom(Start, vs)[0] == 1
    ensures WeightsFrom(Start, vs)[i + 1] ==
            WeightsFrom(Start, vs)[i] + (if vs[i + 1].isoWeek != vs[i].isoWeek then 1 else 0)
  {
    TrackerWeights(vs, 0);
    TrackerWeights(vs, i);
    TrackerWeights(vs, i + 1);
  }

  /** Never reset between users, the weight never decreases along the traversal. */
  lemma {:induction false} WeightsNonDecreasing(vs: seq<Visit>, i: nat, j: nat)
    requires i <= j < |vs|
    ensures WeightsFrom(Start, vs)[i] <= WeightsFrom(Start, vs)[j]
    decreases j - i
  {
    if i < j {
      WeightsNonDecreasing(vs, i, j - 1);
      WeightSteps(vs, j - 1);
    }
  }

  // ---------------------------------------------------------------------
  // Failure

  lemma {:induction false} FirstErrorExtend(a: seq<Visit>, b: seq<Visit>, n: nat, e: WeightError)
    requires AllValid(a, n)
    requires IsFirstError(b, n, e)
    ensures IsFirstError(a + b, n, e)
  {
    var i :| 0 <= i < |b| && VisitError(b[i], n) == Some(e) &&
      forall j :: 0 <= j < i ==> VisitError(b[j], n) == None;
    assert (a + b)[|a| + i] == b[i];
    assert forall j :: 0 <= j < |a| + i ==> VisitError((a + b)[j], n) == None by {
      forall j | 0 <= j < |a| + i
        ensures VisitError((a + b)[j], n) == None
      {
        if j >= |a| {
          assert (a + b)[j] == b[j - |a|];
        }
      }
    }
  }

  lemma {:induction false} FirstErrorPrefix(a: seq<Visit>, b: seq<Visit>, n: nat, e: WeightError)
    requires IsFirstError(a, n, e)
    ensures IsFirstError(a + b, n, e)
  {
    var i :| 0 <= i < |a| && VisitError(a[i], n) == Some(e) &&
      forall j :: 0 <= j < i ==> VisitError(a[j], n) == None;
    assert (a + b)[i] == a[i];
    assert forall j :: 0 <= j < i ==> (a + b)[j] == a[j];
  }

  /** No visit of `vs` raises in a builder whose vectors have length n. */
  predicate AllValid(vs: seq<Visit>, n: nat)
  {
    forall i :: 0 <= i < |vs| ==> VisitError(vs[i], n) == None
  }

  lemma AllValidAppend(a: seq<Visit>, b: seq<Visit>, n: nat)
    ensures AllValid(a + b, n) <==> AllValid(a, n) && AllValid(b, n)
  {
    if AllValid(a, n) && AllValid(b, n) {
      forall i | 0 <= i < |a + b|
        ensures VisitError((a + b)[i], n) == None
      {
        if i >= |a| {
          assert (a + b)[i] == b[i - |a|];
        }
      }
    }
    if AllValid(a + b, n) {
      forall i | 0 <= i < |b|
        ensures VisitError(b[i], n) == None
      {
        assert (a + b)[|a| + i] == b[i];
      }
      forall i | 0 <= i < |a|
        ensures VisitError(a[i], n) == None
      {
        assert (a + b)[i] == a[i];
      }
    }
  }

  lemma AllValidCons(vs: seq<Visit>, n: nat)
    requires vs != []
    ensures AllValid(vs, n) <==> VisitError(vs[0], n).None? && AllValid(vs[1..], n)
  {
    if VisitError(vs[0], n).None? && AllValid(vs[1..], n) {
      forall i | 1 <= i < |vs|
        ensures VisitError(vs[i], n) == None
      {
        assert vs[i] == vs[1..][i - 1];
      }
    }
  }

  /** A first visit that raises stops the inner loop with its error. */
  lemma WeighVisitsRaises(t: Tracker, vec: seq<int>, vs: seq<Visit>)
    requires vs != [] && VisitError(vs[0], |vec|).Some?
    ensures WeighVisits(t, vec, vs) == Err(VisitError(vs[0], |vec|).value)
  {
  }

  /** A first visit that does not raise adds its weight and the loop moves on. */
  lemma WeighVisitsMoves(t: Tracker, vec: seq<int>, vs: seq<Visit>, v: nat)
    requires vs != [] && VenueIndex(vs[0].venue) == Some(v) && v < |vec|
    ensures WeighVisits(t, vec, vs) ==
            WeighVisits(Track(t, vs[0]), vec[v := vec[v] + Track(t, vs[0]).weight], vs[1..])
  {
  }

  lemma {:induction false} WeighVisitsOk(t: Tracker, vec: seq<int>, vs: seq<Visit>)
    ensures WeighVisits(t, vec, vs).Ok? <==> AllValid(vs, |vec|)
    decreases vs
  {
    if vs != [] {
      var x := vs[0];
      AllValidCons(vs, |vec|);
      if VisitError(x, |vec|).Some? {
        WeighVisitsRaises(t, vec, vs);
      } else {
        var v := VenueIndex(x.venue).value;
        var t' := Track(t, x);
        WeighVisitsMoves(t, vec, vs, v);
        WeighVisitsOk(t', vec[v := vec[v] + t'.weight], vs[1..]);
      }
    }
  }

  lemma {:induction false} WeighVisitsFirstError(t: Tracker, vec: seq<int>, vs: seq<Visit>)
    requires WeighVisits(t, vec, vs).Err?
    ensures IsFirstError(vs, |vec|, WeighVisits(t, vec, vs).error)
    decreases vs
  {
    var x := vs[0];
    if VisitError(x, |vec|).Some? {
      WeighVisitsRaises(t, vec, vs);
      assert VisitError(vs[0], |vec|) == Some(WeighVisits(t, vec, vs).error);
    } else {
      var v := VenueIndex(x.venue).value;
      var t' := Track(t, x);
      WeighVisitsMoves(t, vec, vs, v);
      WeighVisitsFirstError(t', vec[v := vec[v] + t'.weight], vs[1..]);
      assert vs == [x] + vs[1..];
      assert AllValid([x], |vec|);
      FirstErrorExtend([x], vs[1..], |vec|, WeighVisits(t, vec, vs).error);
    }
  }

  lemma {:induction false} WeighUsersFailure(t: Tracker, n: nat, log: Log)
    ensures WeighUsers(t, n, log).Ok? <==> AllValid(Traversal(log), n)
    ensures WeighUsers(t, n, log).Err? ==> IsFirstError(Traversal(log), n, WeighUsers(t, n, log).error)
    decreases log
  {
    if log != [] {
      var vs := log[0].1;
      var rest := Traversal(log[1..]);
      assert Traversal(log) == vs + rest;
      AllValidAppend(vs, rest, n);
      WeighVisitsOk(t, Zeros(n), vs);
      var first := WeighVisits(t, Zeros(n), vs);
      if first.Err? {
        WeighVisitsFirstError(t, Zeros(n), vs);
        FirstErrorPrefix(vs, rest, n, first.error);
      } else {
        WeighUsersFailure(first.value.0, n, log[1..]);
        if WeighUsers(t, n, log).Err? {
          FirstErrorExtend(vs, rest, n, WeighUsers(t, n, log).error);
        }
      }
    }
  }

  /** The builder fails exactly when some visit has a venue outside the five
      types or a venue index at or past the number of users, and then with
      the error of the first such visit in traversal order. */
  lemma WeightedFailure(log: Log)
    ensures WeightedProfiles(log).Ok? <==> AllValid(Traversal(log), |log|)
    ensures WeightedProfiles(log).Err? ==>
            IsFirstError(Traversal(log), |log|, WeightedProfiles(log).error)
  {
    WeighUsersFailure(Start, |log|, log);
  }

  // ---------------------------------------------------------------------
  // Content of the vectors

  lemma {:induction false} WeighVisitsContent(t: Tracker, vec: seq<int>, vs: seq<Visit>)
    requires WeighVisits(t, vec, vs).Ok?
    ensures WeighVisits(t, vec, vs).value.0 == TrackAll(t, vs)
    ensures |WeighVisits(t, vec, vs).value.1| == |vec|
    ensures forall c :: 0 <= c < |vec| ==>
              WeighVisits(t, vec, vs).value.1[c] == vec[c] + WeightedCount(vs, WeightsFrom(t, vs), c)
    ensures Sum(WeighVisits(t, vec, vs).value.1) == Sum(vec) + Sum(WeightsFrom(t, vs))
    decreases vs
  {
    if vs != [] {
      var x := vs[0];
      var t' := Track(t, x);
      var v := VenueIndex(x.venue).value;
      var vec' := vec[v := vec[v] + t'.weight];
      WeighVisitsContent(t', vec', vs[1..]);
      SumBump(vec, v, t'.weight);
      var ws := WeightsFrom(t, vs);
      assert ws[0] == t'.weight && ws[1..] == WeightsFrom(t', vs[1..]);
      assert Sum(ws) == t'.weight + Sum(WeightsFrom(t', vs[1..]));
    }
  }

  lemma {:induction false} WeighUsersContent(t: Tracker, n: nat, log: Log, k: nat)
    requires DistinctKeys(log)
    requires WeighUsers(t, n, log).Ok?
    requires k < |log| && log[k].1 != []
    ensures Get(WeighUsers(t, n, log).value, log[k].0).Some?
    ensures var vec := Get(WeighUsers(t, n, log).value, log[k].0).value;
            var ws := WeightsFrom(TrackAll(t, Traversal(log[..k])), log[k].1);
            && |vec| == n
            && (forall c :: 0 <= c < n ==> vec[c] == WeightedCount(log[k].1, ws, c))
            && Sum(vec) == Sum(ws)
    decreases log
  {
    var p := WeighVisits(t, Zeros(n), log[0].1).value;
    var rest := WeighUsers(p.0, n, log[1..]).value;
    var r := WeighUsers(t, n, log).value;
    WeighVisitsContent(t, Zeros(n), log[0].1);
    if k == 0 {
      assert log[..0] == [];
      SumZeros(n);
    } else {
      WeighUsersContent(p.0, n, log[1..], k - 1);
      assert log[..k] == [log[0]] + log[1..][..k - 1];
      TraversalAppend([log[0]], log[1..][..k - 1]);
      assert Traversal([log[0]]) == log[0].1 + Traversal([]);
      TrackAllAppend(t, log[0].1, Traversal(log[1..][..k - 1]));
      if log[0].1 != [] {
        assert r == [(log[0].0, p.1)] + rest;
        assert log[0].0 != log[k].0;
        assert r[1..] == rest;
      }
    }
  }

  lemma {:induction false} WeighUsersKeys(t: Tracker, n: nat, log: Log)
    requires WeighUsers(t, n, log).Ok?
    ensures Keys(WeighUsers(t, n, log).value) == ActiveUsers(log)
    ensures forall i :: 0 <= i < |WeighUsers(t, n, log).value| ==> |WeighUsers(t, n, log).value[i].1| == n
    decreases log
  {
    if log != [] {
      var p := WeighVisits(t, Zeros(n), log[0].1).value;
      WeighVisitsContent(t, Zeros(n), log[0].1);
      WeighUsersKeys(p.0, n, log[1..]);
      var rest := WeighUsers(p.0, n, log[1..]).value;
      if log[0].1 != [] {
        assert Keys([(log[0].0, p.1)] + rest) == [log[0].0] + Keys(rest);
      }
    }
  }

  /** On success the result has an entry, `len(data)` long, for exactly the
      users with visits, in log order. */
  lemma WeightedKeys(log: Log)
    requires WeightedProfiles(log).Ok?
    ensures Keys(WeightedProfiles(log).value) == ActiveUsers(log)
    ensures forall i :: 0 <= i < |WeightedProfiles(log).value| ==> |WeightedProfiles(log).value[i].1| == |log|
  {
    WeighUsersKeys(Start, |log|, log);
  }

  /** Started from the tracker the builder holds when it reaches user k, the
      fold hands that user's visits exactly their weights in the global traversal. */
  lemma TrackerReachesUser(log: Log, k: nat)
    requires k < |log|
    ensures WeightsFrom(TrackAll(Start, Traversal(log[..k])), log[k].1) == UserWeights(log, k)
  {
    var pre := Traversal(log[..k]);
    var vs := log[k].1;
    var all := Traversal(log);
    TraversalSlice(log, k);
    var post := Traversal(log[k + 1..]);
    assert all == pre + (vs + post);
    WeightsFromAppend(Start, pre, vs + post);
    WeightsFromAppend(TrackAll(Start, pre), vs, post);
    var ws := WeightsFrom(TrackAll(Start, pre), vs);
    forall j | 0 <= j < |vs|
      ensures ws[j] == UserWeights(log, k)[j]
    {
      assert WeightsFrom(Start, all)[|pre| + j] == ws[j];
      TrackerWeights(all, |pre| + j);
    }
  }

  /** On success, the vector of a user with visits holds, at venue type c,
      the sum of the global weights in effect at that user's visits to c, and
      its entries add up to the weights in effect at all that user's visits. */
  lemma WeightedVector(log: Log, k: nat)
    requires DistinctKeys(log)
    requires WeightedProfiles(log).Ok?
    requires k < |log| && log[k].1 != []
    ensures Get(WeightedProfiles(log).value, log[k].0).Some?
    ensures var vec := Get(WeightedProfiles(log).value, log[k].0).value;
            && |vec| == |log|
            && (forall c :: 0 <= c < |log| ==> vec[c] == WeightedCount(log[k].1, UserWeights(log, k), c))
            && Sum(vec) == Sum(UserWeights(log, k))
  {
    WeighUsersContent(Start, |log|, log, k);
    TrackerReachesUser(log, k);
  }

  /** A user without visits has no vector at all, not a zero vector. */
  lemma WeightedSkipsIdleUsers(log: Log, k: nat)
    requires DistinctKeys(log)
    requires WeightedProfiles(log).Ok?
    requires k < |log| && log[k].1 == []
    ensures Get(WeightedProfiles(log).value, log[k].0).None?
  {
    WeightedKeys(log);
    ActiveUsersExclude(log, k);
  }

  lemma {:induction false} ActiveUsersFrom(log: Log, x: UserId)
    requires x in ActiveUsers(log)
    ensures exists i :: 0 <= i < |log| && log[i].0 == x && log[i].1 != []
    decreases log
  {
    if log[0].1 != [] && x == log[0].0 {
      assert log[0].0 == x;
    } else {
      ActiveUsersFrom(log[1..], x);
      var i :| 0 <= i < |log[1..]| && log[1..][i].0 == x && log[1..][i].1 != [];
      assert log[i + 1] == log[1..][i];
    }
  }

  lemma ActiveUsersExclude(log: Log, k: nat)
    requires DistinctKeys(log)
    requires k < |log| && log[k].1 == []
    ensures log[k].0 !in ActiveUsers(log)
  {
    if log[k].0 in ActiveUsers(log) {
      ActiveUsersFrom(log, log[k].0);
    }
  }

  // ---------------------------------------------------------------------
  // The vector length: `len(data)` as written, one entry per venue type as intended

  /** As written, a lone user's "wine" visit (venue index 1) falls outside
      a vector of length 1, the number of users. */
  lemma WineVisitOutOfRange()
    ensures WeightedProfiles([("u", [Visit("wine", 10, 0, 1)])]) == Err(IndexOutOfRange(1, 1))
  {
  }

  /** As written, a lone user's two "pub" visits in one ISO week give the
      one-entry vector [2] rather than [2, 0, 0, 0, 0]. */
  lemma SameWeekPubsAsWritten()
    ensures var x := Visit("pub", 10, 0, 7);
            WeightedProfiles([("u", [x, x])]) == Ok([("u", [2])])
  {
    var x := Visit("pub", 10, 0, 7);
    var t := Tracker(Some(7), 1);
    assert VenueIndex("pub") == Some(0);
    assert Zeros(1) == [0];
    assert Track(Start, x) == t && Track(t, x) == t;
    WeighVisitsMoves(Start, [0], [x, x], 0);
    assert [x, x][1..] == [x] && [0][0 := 1] == [1];
    WeighVisitsMoves(t, [1], [x], 0);
    assert [x][1..] == [] && [1][0 := 2] == [2];
    assert WeighVisits(t, [2], []) == Ok((t, [2]));
    assert WeighVisits(Start, [0], [x, x]) == Ok((t, [2]));
    var log := [("u", [x, x])];
    assert log[0] == ("u", [x, x]) && log[1..] == [] && WeighUsers(t, 1, []) == Ok([]);
    assert WeighVisits(Start, Zeros(|log|), log[0].1) == Ok((t, [2]));
    assert WeighUsers(Start, 1, log) == Ok([("u", [2])] + []);
    assert [("u", [2])] + [] == [("u", [2])];
    assert WeightedProfiles(log) == WeighUsers(Start, 1, log);
  }

  /** The builder with a vector entry per venue type, as the comment "apply
      the weight to the corresponding venue type" and the five-element
      venue list call for. */
  function WeightedByVenue(log: Log): Result<UserVectors, WeightError>
  {
    WeighUsers(Start, |VenueTypes|, log)
  }

  /** With one entry per venue type the index can never run past the end:
      the corrected builder fails exactly on an unknown venue, with the
      first one in traversal order, and otherwise gives every user with
      visits a five-entry vector. */
  lemma WeightedByVenueFailure(log: Log)
    ensures WeightedByVenue(log).Ok? <==> forall x :: x in Traversal(log) ==> x.venue in VenueTypes
    ensures WeightedByVenue(log).Err? ==>
            WeightedByVenue(log).error.UnknownVenue? && IsFirstError(Traversal(log), |VenueTypes|, WeightedByVenue(log).error)
    ensures WeightedByVenue(log).Ok? ==>
            Keys(WeightedByVenue(log).value) == ActiveUsers(log) &&
            forall i :: 0 <= i < |WeightedByVenue(log).value| ==> |WeightedByVenue(log).value[i].1| == |VenueTypes|
  {
    var n := |VenueTypes|;
    var vs := Traversal(log);
    WeighUsersFailure(Start, n, log);
    forall i | 0 <= i < |vs|
      ensures VisitError(vs[i], n) == None <==> vs[i].venue in VenueTypes
    {
    }
    if WeightedByVenue(log).Ok? {
      WeighUsersKeys(Start, n, log);
    } else {
      var e := WeightedByVenue(log).error;
      var i :| 0 <= i < |vs| && VisitError(vs[i], n) == Some(e) && forall j :: 0 <= j < i ==> VisitError(vs[j], n) == None;
    }
  }

  /** The corrected builder's vector of a user with visits holds, at venue
      type c, the global weights in effect at that user's visits to c. */
  lemma WeightedByVenueVector(log: Log, k: nat)
    requires DistinctKeys(log)
    requires WeightedByVenue(log).Ok?
    requires k < |log| && log[k].1 != []
    ensures Get(WeightedByVenue(log).value, log[k].0).Some?
    ensures var vec := Get(WeightedByVenue(log).value, log[k].0).value;
            && |vec| == |VenueTypes|
            && (forall c :: 0 <= c < |VenueTypes| ==> vec[c] == WeightedCount(log[k].1, UserWeights(log, k), c))
            && Sum(vec) == Sum(UserWeights(log, k))
  {
    WeighUsersContent(Start, |VenueTypes|, log, k);
    TrackerReachesUser(log, k);
  }

  /** The corrected builder on two "pub" visits in one ISO week and a third
      in the next: weights 1, 1 and 2 give the pub entry 4. */
  lemma PubsOverTwoWeeks()
    ensures var x := Visit("pub", 10, 0, 7);
            var y := Visit("pub", 10, 0, 8);
            WeightedByVenue([("u", [x, x, y])]) == Ok([("u", [4, 0, 0, 0, 0])])
  {
    var x := Visit("pub", 10, 0, 7);
    var y := Visit("pub", 10, 0, 8);
    var t := Tracker(Some(7), 1);
    assert VenueIndex("pub") == Some(0);
    assert Zeros(5) == [0, 0, 0, 0, 0];
    var t' := Tracker(Some(8), 2);
    assert Track(Start, x) == t && Track(t, x) == t && Track(t, y) == t';
    WeighVisitsMoves(Start, [0, 0, 0, 0, 0], [x, x, y], 0);
    assert [x, x, y][1..] == [x, y] && [0, 0, 0, 0, 0][0 := 1] == [1, 0, 0, 0, 0];
    WeighVisitsMoves(t, [1, 0, 0, 0, 0], [x, y], 0);
    assert [x, y][1..] == [y] && [1, 0, 0, 0, 0][0 := 2] == [2, 0, 0, 0, 0];
    WeighVisitsMoves(t, [2, 0, 0, 0, 0], [y], 0);
    assert [y][1..] == [] && [2, 0, 0, 0, 0][0 := 4] == [4, 0, 0, 0, 0];
    assert WeighVisits(t', [4, 0, 0, 0, 0], []) == Ok((t', [4, 0, 0, 0, 0]));
    var log := [("u", [x, x, y])];
    assert log[0] == ("u", [x, x, y]) && log[1..] == [] && WeighUsers(t', 5, []) == Ok([]);
    assert WeighVisits(Start, Zeros(5), log[0].1) == Ok((t', [4, 0, 0, 0, 0]));
    assert WeighUsers(Start, 5, log) == Ok([("u", [4, 0, 0, 0, 0])] + []);
    assert [("u", [4, 0, 0, 0, 0])] + [] == [("u", [4, 0, 0, 0, 0])];
    assert WeighVisits(Start, [0, 0, 0, 0, 0], [x, x, y]) == Ok((Tracker(Some(8), 2), [4, 0, 0, 0, 0]));
  }
}
