/** The visit log the profiling code consumes. Timestamp parsing and calendar
    arithmetic stay outside the model: a visit carries the hour, weekday and
    ISO week number that the code reads off its timestamp. */
module Visits {
  import opened Wrappers
  import opened AssocLists

  type UserId = string

  /** `timestamp.hour` */
  type Hour = h: int | 0 <= h < 24

  /** `timestamp.weekday()`: 0 is Monday, 6 is Sunday. */
  type Weekday = d: int | 0 <= d < 7

  datatype Visit = Visit(venue: string, hour: Hour, weekday: Weekday, isoWeek: nat)

  /** The input dict: user id to that user's visits, in dict order. */
  type Log = seq<(UserId, seq<Visit>)>

  /** A dict from user id to a numeric vector. */
  type UserVectors = seq<(UserId, seq<int>)>

  /** The fixed venue-type list; its order fixes the vector indexing. */
  const VenueTypes: seq<string> := ["pub", "wine", "bar", "pastery", "cafe"]

  /** `venue_types.index(venue)`, None where that raises ValueError. The
      list has no repeats, so the position found is the only one. */
  function VenueIndex(venue: string): (r: Option<nat>)
    ensures r.Some? ==> r.value < |VenueTypes| && VenueTypes[r.value] == venue
    ensures r.None? <==> venue !in VenueTypes
  {
    if venue == "pub" then Some(0)
    else if venue == "wine" then Some(1)
    else if venue == "bar" then Some(2)
    else if venue == "pastery" then Some(3)
    else if venue == "cafe" then Some(4)
    else None
  }

  /** Every visit of the log in the order the nested loops meet them. */
  function Traversal(log: Log): seq<Visit>
  {
    if log == [] then [] else log[0].1 + Traversal(log[1..])
  }

  lemma {:induction false} TraversalAppend(a: Log, b: Log)
    ensures Traversal(a + b) == Traversal(a) + Traversal(b)
  {
    if a == [] {
      assert a + b == b;
    } else {
      assert (a + b)[1..] == a[1..] + b;
      TraversalAppend(a[1..], b);
    }
  }

  /** User k's visits sit in the traversal right after the visits of the users before it. */
  lemma TraversalSlice(log: Log, k: nat)
    requires k < |log|
    ensures |Traversal(log[..k])| + |log[k].1| <= |Traversal(log)|
    ensures Traversal(log) == Traversal(log[..k]) + log[k].1 + Traversal(log[k + 1..])
  {
    assert log == log[..k] + ([log[k]] + log[k + 1..]);
    TraversalAppend(log[..k], [log[k]] + log[k + 1..]);
    assert ([log[k]] + log[k + 1..])[1..] == log[k + 1..];
  }
}
