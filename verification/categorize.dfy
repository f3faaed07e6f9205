/** The three rule-based categorizers: time of day, weekday versus weekend,
    and favourite venue type. Each tags every user by a majority count over
    that user's visits, with an explicit tie-break. */
module Categorize {
  import opened Wrappers
  import opened AssocLists
  import opened Visits
  import opened Vectors

  const SunLover: string := "Güneş Aşığı"
  const MoonLover: string := "Ay Aşığı"
  const WeekdayLover: string := "Hafta İçi Aşığı"
  const WeekendLover: string := "Hafta Sonu Aşığı"

  /** Daytime for this categorizer is [6, 18): a different split from the
      profile builder's time buckets. */
  predicate IsDaytime(x: Visit) { 6 <= x.hour < 18 }

  predicate IsNighttime(x: Visit) { !IsDaytime(x) }

  /** `weekday() < 5`: Monday to Friday. */
  predicate IsWeekday(x: Visit) { x.weekday < 5 }

  predicate IsWeekend(x: Visit) { !IsWeekday(x) }

  /** Number of visits for which `p` holds. */
  function Count(vs: seq<Visit>, p: Visit -> bool): nat
  {
    if vs == [] then 0 else (if p(vs[0]) then 1 else 0) + Count(vs[1..], p)
  }

  /** A visit satisfies either `p` or its negation, so the two counts share out all visits. */
  lemma {:induction false} CountSplit(vs: seq<Visit>, p: Visit -> bool, q: Visit -> bool)
    requires forall x :: q(x) == !p(x)
    ensures Count(vs, p) + Count(vs, q) == |vs|
  {
    if vs != [] {
      CountSplit(vs[1..], p, q);
    }
  }

  // ---------------------------------------------------------------------
  // Time of day

  /** The counting loop of `categorize_time_of_day`. */
  function TallyDayNight(vs: seq<Visit>, day: nat, night: nat): (nat, nat)
  {
    if vs == [] then (day, night)
    else if IsDaytime(vs[0]) then TallyDayNight(vs[1..], day + 1, night)
    else TallyDayNight(vs[1..], day, night + 1)
  }

  lemma {:induction false} TallyDayNightCounts(vs: seq<Visit>, day: nat, night: nat)
    ensures TallyDayNight(vs, day, night) == (day + Count(vs, IsDaytime), night + Count(vs, IsNighttime))
  {
    if vs != [] {
      TallyDayNightCounts(vs[1..], if IsDaytime(vs[0]) then day + 1 else day, if IsDaytime(vs[0]) then night else night + 1);
    }
  }

  /** One user's tag: day lover when daytime visits are at least as many as
      night visits (so a tie, and a user without visits, count as day). */
  function TimeOfDayTag(vs: seq<Visit>): (tag: string)
    ensures tag == SunLover <==> Count(vs, IsDaytime) >= Count(vs, IsNighttime)
    ensures tag == MoonLover <==> Count(vs, IsDaytime) < Count(vs, IsNighttime)
    ensures tag == SunLover <==> 2 * Count(vs, IsDaytime) >= |vs|
  {
    TallyDayNightCounts(vs, 0, 0);
    CountSplit(vs, IsDaytime, IsNighttime);
    var (day, night) := TallyDayNight(vs, 0, 0);
    if day >= night then SunLover else MoonLover
  }

  /** `categorize_time_of_day`: every user is tagged, in input order, as a
      day lover exactly when at least half of their visits are in daytime
      and as a night lover otherwise. */
  function CategorizeTimeOfDay(log: Log): (r: seq<(UserId, string)>)
    ensures |r| == |log|
    ensures forall i :: 0 <= i < |r| ==> r[i].0 == log[i].0 && r[i].1 == TimeOfDayTag(log[i].1)
    ensures forall i :: 0 <= i < |r| ==>
              && (r[i].1 == SunLover || r[i].1 == MoonLover)
              && (r[i].1 == SunLover <==> 2 * Count(log[i].1, IsDaytime) >= |log[i].1|)
  {
    seq(|log|, i requires 0 <= i < |log| => (log[i].0, TimeOfDayTag(log[i].1)))
  }

  // ---------------------------------------------------------------------
  // Weekday versus weekend

  /** The counting loop of `categorize_weekday_vs_weekend`. */
  function TallyWeek(vs: seq<Visit>, weekday: nat, weekend: nat): (nat, nat)
  {
    if vs == [] then (weekday, weekend)
    else if IsWeekday(vs[0]) then TallyWeek(vs[1..], weekday + 1, weekend)
    else TallyWeek(vs[1..], weekday, weekend + 1)
  }

  lemma {:induction false} TallyWeekCounts(vs: seq<Visit>, weekday: nat, weekend: nat)
    ensures TallyWeek(vs, weekday, weekend) == (weekday + Count(vs, IsWeekday), weekend + Count(vs, IsWeekend))
  {
    if vs != [] {
      TallyWeekCounts(vs[1..], if IsWeekday(vs[0]) then weekday + 1 else weekday, if IsWeekday(vs[0]) then weekend else weekend + 1);
    }
  }

  /** One user's tag: weekday lover when weekday visits are at least as many
      as weekend visits (ties and users without visits included). */
  function WeekTag(vs: seq<Visit>): (tag: string)
    ensures tag == WeekdayLover <==> Count(vs, IsWeekday) >= Count(vs, IsWeekend)
    ensures tag == WeekendLover <==> Count(vs, IsWeekday) < Count(vs, IsWeekend)
    ensures tag == WeekdayLover <==> 2 * Count(vs, IsWeekday) >= |vs|
  {
    TallyWeekCounts(vs, 0, 0);
    CountSplit(vs, IsWeekday, IsWeekend);
    var (weekday, weekend) := TallyWeek(vs, 0, 0);
    if weekday >= weekend then WeekdayLover else WeekendLover
  }

  /** `categorize_weekday_vs_weekend`: every user is tagged, in input order,
      as a weekday lover exactly when at least half of their visits fall on
      weekdays and as a weekend lover otherwise. */
  function CategorizeWeekdayVsWeekend(log: Log): (r: seq<(UserId, string)>)
    ensures |r| == |log|
    ensures forall i :: 0 <= i < |r| ==> r[i].0 == log[i].0 && r[i].1 == WeekTag(log[i].1)
    ensures forall i :: 0 <= i < |r| ==>
              && (r[i].1 == WeekdayLover || r[i].1 == WeekendLover)
              && (r[i].1 == WeekdayLover <==> 2 * Count(log[i].1, IsWeekday) >= |log[i].1|)
  {
    seq(|log|, i requires 0 <= i < |log| => (log[i].0, WeekTag(log[i].1)))
  }

  // ---------------------------------------------------------------------
  // Favourite venue

  /** `venue_counts`: visits per venue, keys in order of first visit. */
  type Tally = seq<(string, nat)>

  /** The counting loop of `categorize_venue_preference` over a prefix of the visits. */
  function TallyVenues(vs: seq<Visit>): Tally
  {
    if vs == [] then []
    else Update<string, nat>(TallyVenues(vs[..|vs| - 1]), vs[|vs| - 1].venue, 0, Succ)
  }

  function Succ(k: nat): nat { k + 1 }

  function Counts(t: Tally): (cs: seq<int>)
    ensures |cs| == |t|
    ensures forall i :: 0 <= i < |t| ==> cs[i] == t[i].1
  {
    seq(|t|, i requires 0 <= i < |t| => t[i].1)
  }

  /** `max(venue_counts, key=venue_counts.get)`: the first key with the
      largest count; None where `max` of an empty mapping raises. */
  function FavoriteVenue(vs: seq<Visit>): Option<string>
  {
    var t := TallyVenues(vs);
    if t == [] then None else Some(t[ArgMax(Counts(t))].0)
  }

  /** `max` on a user without visits raises ValueError. */
  datatype PreferenceError = NoVisits(user: UserId)

  /** `categorize_venue_preference`. Its `venue_types` parameter is never read. */
  function CategorizeVenuePreference(log: Log, venueTypes: seq<string>): (r: Result<seq<(UserId, string)>, PreferenceError>)
    ensures r.Err? <==> exists i :: 0 <= i < |log| && log[i].1 == []
    ensures r.Err? ==> exists i :: 0 <= i < |log| && log[i].1 == [] && r.error == NoVisits(log[i].0) &&
                         forall j :: 0 <= j < i ==> log[j].1 != []
    ensures r.Ok? ==> |r.value| == |log|
    ensures r.Ok? ==> forall i :: 0 <= i < |log| ==> r.value[i].0 == log[i].0 && Some(r.value[i].1) == FavoriteVenue(log[i].1)
  {
    if log == [] then Ok([])
    else
      FavoriteNone(log[0].1);
      match FavoriteVenue(log[0].1)
      case None => Err(NoVisits(log[0].0))
      case Some(f) =>
        var rest :- CategorizeVenuePreference(log[1..], venueTypes);
        Ok([(log[0].0, f)] + rest)
  }

  // Reference definitions

  /** Number of visits to `venue`. */
  function Occurrences(vs: seq<Visit>, venue: string): nat
  {
    if vs == [] then 0 else (if vs[0].venue == venue then 1 else 0) + Occurrences(vs[1..], venue)
  }

  /** Position of the first visit to `venue`, `|vs|` when there is none. */
  function FirstVisit(vs: seq<Visit>, venue: string): (i: nat)
    ensures i <= |vs|
  {
    if vs == [] then 0 else if vs[0].venue == venue then 0 else 1 + FirstVisit(vs[1..], venue)
  }

  lemma {:induction false} OccurrencesSnoc(vs: seq<Visit>, x: Visit, venue: string)
    ensures Occurrences(vs + [x], venue) == Occurrences(vs, venue) + (if x.venue == venue then 1 else 0)
  {
    if vs == [] {
      assert [x][1..] == [];
    } else {
      assert (vs + [x])[1..] == vs[1..] + [x];
      OccurrencesSnoc(vs[1..], x, venue);
    }
  }

  lemma {:induction false} FirstVisitSnoc(vs: seq<Visit>, x: Visit, venue: string)
    ensures FirstVisit(vs + [x], venue) ==
            if FirstVisit(vs, venue) < |vs| then FirstVisit(vs, venue)
            else if x.venue == venue then |vs| else |vs| + 1
  {
    if vs == [] {
      assert [x][1..] == [];
    } else {
      assert (vs + [x])[1..] == vs[1..] + [x];
      FirstVisitSnoc(vs[1..], x, venue);
    }
  }

  /** A venue is visited exactly when its first visit lies inside the sequence. */
  lemma {:induction false} OccurrencesPositive(vs: seq<Visit>, venue: string)
    ensures Occurrences(vs, venue) > 0 <==> FirstVisit(vs, venue) < |vs|
  {
    if vs != [] {
      OccurrencesPositive(vs[1..], venue);
    }
  }

  /** What the counting loop builds: one entry per visited venue, holding
      its number of visits, keys ordered by first visit. */
  ghost predicate TallyOf(t: Tally, vs: seq<Visit>)
  {
    && DistinctKeys(t)
    && (forall i :: 0 <= i < |t| ==> t[i].1 == Occurrences(vs, t[i].0) && FirstVisit(vs, t[i].0) < |vs|)
    && (forall v {:trigger Get(t, v)} :: FirstVisit(vs, v) < |vs| ==> Get(t, v).Some?)
    && (forall i, j :: 0 <= i < j < |t| ==> FirstVisit(vs, t[i].0) < FirstVisit(vs, t[j].0))
  }

  /** How one more visit moves the reference counts of a venue. */
  lemma SnocFacts(pre: seq<Visit>, x: Visit, v: string)
    ensures FirstVisit(pre + [x], v) ==
            if FirstVisit(pre, v) < |pre| then FirstVisit(pre, v) else if x.venue == v then |pre| else |pre| + 1
    ensures Occurrences(pre + [x], v) == Occurrences(pre, v) + (if x.venue == v then 1 else 0)
  {
    FirstVisitSnoc(pre, x, v);
    OccurrencesSnoc(pre, x, v);
  }

  lemma StepCounts(t0: Tally, pre: seq<Visit>, x: Visit)
    requires TallyOf(t0, pre)
    ensures var t := Update<string, nat>(t0, x.venue, 0, Succ);
            forall i :: 0 <= i < |t| ==> t[i].1 == Occurrences(pre + [x], t[i].0) && FirstVisit(pre + [x], t[i].0) < |pre + [x]|
  {
    var t := Update<string, nat>(t0, x.venue, 0, Succ);
    UpdateKeys(t0, x.venue, 0, Succ);
    UpdateDistinct(t0, x.venue, 0, Succ);
    forall i | 0 <= i < |t|
      ensures t[i].1 == Occurrences(pre + [x], t[i].0) && FirstVisit(pre + [x], t[i].0) < |pre + [x]|
    {
      var v := t[i].0;
      SnocFacts(pre, x, v);
      GetEntry(t, i);
      UpdateGet(t0, x.venue, 0, Succ, v);
      if v != x.venue {
        GetEntry(t0, i);
      } else if Get(t0, v).Some? {
        var i0 := GetIndex(t0, v);
      } else {
        OccurrencesPositive(pre, v);
      }
    }
  }

  lemma StepCovers(t0: Tally, pre: seq<Visit>, x: Visit)
    requires TallyOf(t0, pre)
    ensures var t := Update<string, nat>(t0, x.venue, 0, Succ);
            forall v :: FirstVisit(pre + [x], v) < |pre + [x]| ==> Get(t, v).Some?
  {
    forall v | FirstVisit(pre + [x], v) < |pre + [x]|
      ensures Get(Update<string, nat>(t0, x.venue, 0, Succ), v).Some?
    {
      SnocFacts(pre, x, v);
      UpdateGet(t0, x.venue, 0, Succ, v);
    }
  }

  /** A venue already in the tally keeps its first visit when a visit is added. */
  lemma FirstVisitKept(t0: Tally, pre: seq<Visit>, x: Visit, i: nat)
    requires TallyOf(t0, pre) && i < |t0|
    ensures FirstVisit(pre, t0[i].0) < |pre|
    ensures FirstVisit(pre + [x], t0[i].0) == FirstVisit(pre, t0[i].0)
  {
    SnocFacts(pre, x, t0[i].0);
  }

  /** A venue new to the tally is first visited by the added visit. */
  lemma FirstVisitNew(t0: Tally, pre: seq<Visit>, x: Visit)
    requires TallyOf(t0, pre) && Get(t0, x.venue).None?
    ensures FirstVisit(pre + [x], x.venue) == |pre|
  {
    SnocFacts(pre, x, x.venue);
  }

  lemma StepOrdered(t0: Tally, pre: seq<Visit>, x: Visit)
    requires TallyOf(t0, pre)
    ensures var t := Update<string, nat>(t0, x.venue, 0, Succ);
            forall i, j :: 0 <= i < j < |t| ==> FirstVisit(pre + [x], t[i].0) < FirstVisit(pre + [x], t[j].0)
  {
    var t := Update<string, nat>(t0, x.venue, 0, Succ);
    UpdateKeys(t0, x.venue, 0, Succ);
    forall i, j | 0 <= i < j < |t|
      ensures FirstVisit(pre + [x], t[i].0) < FirstVisit(pre + [x], t[j].0)
    {
      assert t[i].0 == t0[i].0;
      FirstVisitKept(t0, pre, x, i);
      if j < |t0| {
        assert t[j].0 == t0[j].0;
        FirstVisitKept(t0, pre, x, j);
      } else {
        assert t[j].0 == x.venue && Get(t0, x.venue).None?;
        FirstVisitNew(t0, pre, x);
      }
    }
  }

  /** Counting one more visit keeps the tally faithful. */
  lemma TallyStep(t0: Tally, pre: seq<Visit>, x: Visit)
    requires TallyOf(t0, pre)
    ensures TallyOf(Update<string, nat>(t0, x.venue, 0, Succ), pre + [x])
  {
    UpdateDistinct(t0, x.venue, 0, Succ);
    StepCounts(t0, pre, x);
    StepCovers(t0, pre, x);
    StepOrdered(t0, pre, x);
  }

  lemma {:induction false} TallyVenuesSpec(vs: seq<Visit>)
    ensures TallyOf(TallyVenues(vs), vs)
    ensures |TallyVenues(vs)| == 0 <==> vs == []
  {
    if vs != [] {
      var pre := vs[..|vs| - 1];
      var x := vs[|vs| - 1];
      assert vs == pre + [x];
      TallyVenuesSpec(pre);
      TallyStep(TallyVenues(pre), pre, x);
      UpdateKeys(TallyVenues(pre), x.venue, 0, Succ);
    }
  }

  lemma FavoriteNone(vs: seq<Visit>)
    ensures FavoriteVenue(vs).None? <==> vs == []
  {
    TallyVenuesSpec(vs);
  }

  /** The favourite venue of a user with visits is visited, has the most
      visits, and every venue first visited before it has strictly fewer:
      ties go to the venue met first in the user's own visit order. */
  lemma FavoriteVenueSpec(vs: seq<Visit>)
    requires vs != []
    ensures FavoriteVenue(vs).Some?
    ensures var f := FavoriteVenue(vs).value;
            && FirstVisit(vs, f) < |vs|
            && (forall v :: Occurrences(vs, v) <= Occurrences(vs, f))
            && (forall v :: FirstVisit(vs, v) < FirstVisit(vs, f) ==> Occurrences(vs, v) < Occurrences(vs, f))
  {
    TallyVenuesSpec(vs);
    var t := TallyVenues(vs);
    var a := ArgMax(Counts(t));
    assert FavoriteVenue(vs) == Some(t[a].0);
    forall v
      ensures Occurrences(vs, v) <= Occurrences(vs, t[a].0)
      ensures FirstVisit(vs, v) < FirstVisit(vs, t[a].0) ==> Occurrences(vs, v) < Occurrences(vs, t[a].0)
    {
      MaxEntryBeats(vs, t, a, v);
    }
  }

  /** The entry at the first maximal count of a faithful tally beats every
      venue: no venue has more visits, and one first visited earlier has fewer. */
  lemma MaxEntryBeats(vs: seq<Visit>, t: Tally, a: nat, v: string)
    requires TallyOf(t, vs) && |t| > 0 && a == ArgMax(Counts(t))
    ensures Occurrences(vs, v) <= Occurrences(vs, t[a].0)
    ensures FirstVisit(vs, v) < FirstVisit(vs, t[a].0) ==> Occurrences(vs, v) < Occurrences(vs, t[a].0)
  {
    var f := t[a].0;
    assert t[a].1 == Occurrences(vs, f) && FirstVisit(vs, f) < |vs|;
    OccurrencesPositive(vs, v);
    if FirstVisit(vs, v) < |vs| {
      assert Get(t, v).Some?;
      var i := GetIndex(t, v);
      assert t[i].1 == Occurrences(vs, v);
      assert Counts(t)[i] <= Counts(t)[a];
      if FirstVisit(vs, v) < FirstVisit(vs, f) {
        assert i < a;
        assert Counts(t)[i] < Counts(t)[a];
      }
    }
  }

  /** "bar" and "pub" are each visited twice; "bar" comes first in the
      user's visits and wins, although "pub" comes first in the venue list. */
  lemma TieGoesToFirstVisited()
    ensures var b := Visit("bar", 20, 4, 1);
            var p := Visit("pub", 20, 4, 1);
            FavoriteVenue([b, p, p, b]) == Some("bar")
  {
    var b := Visit("bar", 20, 4, 1);
    var p := Visit("pub", 20, 4, 1);
    var vs := [b, p, p, b];
    FavoriteVenueSpec(vs);
    var f := FavoriteVenue(vs).value;
    assert vs[1..] == [p, p, b] && vs[2..] == [p, b] && vs[3..] == [b] && vs[4..] == [];
    assert Occurrences(vs[3..], "bar") == 1 && Occurrences(vs[3..], "pub") == 0;
    assert Occurrences(vs[2..], "bar") == 1 && Occurrences(vs[2..], "pub") == 1;
    assert Occurrences(vs[1..], "bar") == 1 && Occurrences(vs[1..], "pub") == 2;
    assert Occurrences(vs, "bar") == 2 && Occurrences(vs, "pub") == 2;
    assert FirstVisit(vs, "bar") == 0;
    assert FirstVisit(vs, "pub") == 1;
    assert Occurrences(vs[3..], f) == (if f == "bar" then 1 else 0);
    assert Occurrences(vs[2..], f) == (if f == "bar" || f == "pub" then 1 else 0);
    assert Occurrences(vs, f) == (if f == "bar" || f == "pub" then 2 else 0);
  }
}
