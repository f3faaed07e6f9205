# Visit-profiling core, modelled in Dafny

This project models the algorithmic core of a small venue-visit analytics
service (`app/crud.py` and the labelling part of `app/visualization.py`).
The service turns per-user visit logs into numeric profiles, groups users
by KMeans cluster labels, names each cluster after its dominant venue type,
and tags users with three rule-based categories. The model is a set of pure
functions over immutable data, with lemmas that pin down what each
operation computes.

The model's data:
- **Log**: a Python dict from user id to a list of visits. It is modelled as
  an ordered association list `seq<(UserId, seq<Visit>)>`, because the
  weighted builder depends on the dict's iteration order.
- **Visit**: a venue string, an hour (0..23), a weekday (0..6, Monday = 0)
  and an ISO week number. These are what the code reads from a timestamp
  through `.hour`, `.weekday()` and `.isocalendar()[1]`.
- **Profiles and matrices**: integer sequences. The numpy float arrays only
  ever hold integers in this code.
- **Exceptions**: the `Err` side of a `Result`. This covers
  `list.index` on an unknown venue, an index past a vector's end, a missing
  dict key, and `max` of an empty mapping.

Modules:
- `Wrappers`: `Option` and `Result`.
- `AssocLists`: dict lookup and defaultdict update on association lists.
- `Visits`: the visit record, the venue list, and the traversal of a log.
- `Vectors`: sums and the first-index argmax.
- `Profiles`: the time buckets and `process_data`.
- `Weighted`: `calculate_weighted_matrices`.
- `Clustering`: the grouping step of `cluster_users`.
- `Labeling`: `label_clusters` and the heat-map matrix of `graph_clusters`.
- `Categorize`: the three categorizers.

Behaviours of the code worth noting:
- The weighted builder's vectors have `len(data)` entries (the number of
  users), not one per venue type. `Weighted.WeightedProfiles` models this
  as written; `Weighted.WeightedByVenue` is the five-entry version (see
  "Findings").
- The weighted builder raises on a venue outside the five types; it does
  not skip it as `process_data` does.
- The venue-preference categorizer raises on a user without visits, since
  `max` of an empty mapping fails; the other two categorizers tag such a
  user as a day lover and a weekday lover.

## Model

| member | source | states |
|---|---|---|
| `Vectors.ArgMax` | app/visualization.py:12 | `np.argmax` on a non-empty vector: an index holding a maximal entry, with every earlier entry strictly smaller |
| `Visits.VenueIndex` | app/crud.py:79-81 | `venue_types.index` finds a venue's position in the five-element list, and fails exactly when the venue is not in the list |
| `Profiles.TimeBucket` | app/crud.py:14-23 | every hour falls in exactly one bucket: morning iff 5 <= h < 12, afternoon iff 12 <= h < 17, evening iff 17 <= h < 21, night iff h < 5 or h >= 21 |
| `Profiles.CellOfBounds` | app/crud.py:28-37 | each (venue, bucket) cell of the 5 x 4 matrix has a flat index in 0..19 from which its row and column are recovered, so the flattening is one-to-one |
| `Profiles.CellOfInverse` | app/crud.py:28-37 | every flat index in 0..19 is the flattening of some (venue, bucket) cell, so the flattening is onto |
| `Profiles.AddVisit` | app/crud.py:29-36 | one iteration of the inner loop; what it does to each cell and to the total is stated by `Profiles.AccumulateCounts` and `Profiles.AddVisitSum` |
| `Profiles.AddVisitSum` | app/crud.py:33-36 | one iteration raises the total by one exactly when the venue is one of the five types |
| `Profiles.Accumulate` | app/crud.py:29-36 | the inner loop over one user's visits; its cell counts and total are stated by `Profiles.AccumulateCounts` and `Profiles.AccumulateSum` |
| `Profiles.Profile` | app/crud.py:28-37 | one user's flattened 20-entry matrix, from zeros; its contents are stated by `Profiles.ProcessDataCounts` |
| `Profiles.AccumulateCounts` | app/crud.py:29-36 | the inner loop adds to cell (v, b) exactly the number of visits to venue type v in bucket b |
| `Profiles.AccumulateSum` | app/crud.py:29-36 | the inner loop raises the total by the number of visits to known venues; unknown venues are skipped |
| `Profiles.ProcessData` | app/crud.py:25-39 | `process_data`, one profile per user in input order; its contents are stated by `Profiles.ProcessDataCounts` |
| `Profiles.ProcessDataCounts` | app/crud.py:27-37 | every profile has 20 entries; cell v*4+b counts the user's visits to venue v in bucket b; no entry is negative; the entries sum to the user's visits to known venues |
| `Weighted.Track` | app/crud.py:71-77 | one step of the `(current_week, current_weight)` tracker; its weights are stated by `Weighted.WeightSteps` and, in closed form, `Weighted.TrackerWeights` |
| `Weighted.WeighVisits` | app/crud.py:69-82 | the inner loop over one user's visits; its failure and content are stated by `Weighted.WeighVisitsOk`, `Weighted.WeighVisitsFirstError` and `Weighted.WeighVisitsContent` |
| `Weighted.WeighUsers` | app/crud.py:68-84 | the outer loop over the users with the tracker carried across them; stated by `Weighted.WeighUsersFailure`, `Weighted.WeighUsersContent` and `Weighted.WeighUsersKeys` |
| `Weighted.WeightedProfiles` | app/crud.py:61-84 | `calculate_weighted_matrices` with vectors of `len(data)` entries; stated by `Weighted.WeightedFailure`, `Weighted.WeightedKeys` and `Weighted.WeightedVector` |
| `Weighted.TrackerWeights` | app/crud.py:65-77 | the `(current_week, current_weight)` tracker gives the i-th visit of the whole traversal the weight 1 + (number of week changes between consecutive visits up to i) |
| `Weighted.WeightSteps` | app/crud.py:65-77 | the first visit gets weight 1 and only sets the week; each later visit's weight is the previous one plus 1 when its ISO week differs from the previous visit's, and equal otherwise |
| `Weighted.WeightsNonDecreasing` | app/crud.py:65-77 | the weight never decreases along the traversal, including across users, since it is never reset |
| `Weighted.WeighVisitsOk` | app/crud.py:69-82 | a user's inner loop succeeds iff none of the user's visits has an unknown venue or a venue index at or past the vector length |
| `Weighted.WeighVisitsFirstError` | app/crud.py:69-82 | a failing inner loop fails with the error of its first failing visit |
| `Weighted.WeighUsersFailure` | app/crud.py:68-84 | the outer loop, from any tracker, succeeds iff every visit of the traversal is valid, and otherwise fails with the first invalid visit's error |
| `Weighted.WeightedFailure` | app/crud.py:62-84 | `calculate_weighted_matrices` fails exactly when a visit has a venue outside the five types (ValueError) or a venue index >= the number of users (IndexError), with the first such visit's error |
| `Weighted.WeighVisitsContent` | app/crud.py:69-82 | on success the inner loop leaves the tracker where the fold over the visits leaves it, and adds to each entry the weights of the visits to that venue type |
| `Weighted.WeighUsersContent` | app/crud.py:62-84 | on success every user with visits has a vector of the requested length whose entry c sums the weights in effect at that user's visits to venue type c |
| `Weighted.WeighUsersKeys` | app/crud.py:62-84 | on success the result's keys are exactly the users with visits, in log order, and every vector has the requested length |
| `Weighted.WeightedKeys` | app/crud.py:62-84 | on success only users with visits get an entry, in log order, and every vector has `len(data)` entries |
| `Weighted.TrackerReachesUser` | app/crud.py:65-77 | the tracker the builder carries into user k gives that user's visits exactly their weights in the global traversal |
| `Weighted.WeightedVector` | app/crud.py:62-84 | on success a user with visits has a vector of `len(data)` entries whose entry c sums the global weights of the user's visits to venue type c, so its entries add up to the weights in effect at all the user's visits |
| `Weighted.WeightedSkipsIdleUsers` | app/crud.py:62-84 | a user without visits gets no entry at all, not a zero vector |
| `Weighted.WineVisitOutOfRange` | app/crud.py:62-82 | as written, a lone user's "wine" visit fails with an index 1 past a vector of length 1 |
| `Weighted.SameWeekPubsAsWritten` | app/crud.py:62-82 | as written, a lone user's two same-week "pub" visits give the vector [2], not [2, 0, 0, 0, 0] |
| `Weighted.WeightedByVenueFailure` | app/crud.py:62-82 | with one entry per venue type, the builder fails exactly on an unknown venue, never on an index, and gives every user with visits a five-entry vector |
| `Weighted.WeightedByVenueVector` | app/crud.py:62-82 | with one entry per venue type, entry c of a user's vector sums the global weights of the user's visits to venue type c |
| `Weighted.PubsOverTwoWeeks` | app/crud.py:62-82 | with one entry per venue type, two same-week "pub" visits and a third in the next week give [4, 0, 0, 0, 0] |
| `Clustering.GroupByLabel` | app/crud.py:50-52 | the `defaultdict(list)` loop over `zip(labels, users)`; its result is stated by `Clustering.GroupByLabelSpec` |
| `Clustering.KMeansAccepts` | app/crud.py:43-47 | the inputs KMeans fits without raising; the None path it decides is stated by `Clustering.ClusterUsersPartition` |
| `Clustering.ClusterUsers` | app/crud.py:41-58 | `cluster_users` with KMeans's labels as an input; stated by `Clustering.ClusterUsersPartition` |
| `Clustering.MembersContain` | app/crud.py:51-52 | a user is in the reference member list of cluster l iff some position pairs that user with label l |
| `Clustering.GroupLookup` | app/crud.py:50-52 | after m pairs the defaultdict has distinct keys, and holds a list for cluster l iff l occurs among the first m labels, namely the users labelled l in input order |
| `Clustering.GroupByLabelSpec` | app/crud.py:50-54 | the grouping zips to the shorter input; each label that occurs is a key exactly once, and its list holds exactly the users with that label, in input order |
| `Clustering.ClusterPartition` | app/crud.py:50-54 | with one label per distinct user, user i is in cluster j's list iff cluster j's id is label i; every user's label has a cluster; every listed member is a user |
| `Clustering.ClusterUsersPartition` | app/crud.py:41-58 | None exactly when KMeans refuses its input (no clusters, more clusters than users, empty or ragged vectors); otherwise, with one label per user, the cluster ids are distinct and are exactly the labels used, user i is in the list of `labels[i]` and in no other, each list holds that label's users in input order, and every listed member is a key of the input |
| `Labeling.LabelOf` | app/visualization.py:11-14 | the label of one cluster; stated by `Labeling.LabelOfSpec` and `Labeling.LabelOfMissing` |
| `Labeling.Dominant` | app/visualization.py:11-12 | `np.argmax(np.mean(...))` computed on the integer sum; its agreement with the mean is `Labeling.CentroidArgMax` |
| `Labeling.Capitalize` | app/visualization.py:14 | `str.capitalize`: the same letters up to case and the same length, the first letter not lower case and no later letter upper case |
| `Labeling.Gather` | app/visualization.py:11 | collecting the members' vectors succeeds iff every member has one, keeps member order, and otherwise fails at the first missing member with KeyError |
| `Labeling.CentroidArgMax` | app/visualization.py:11-12 | for a non-empty cluster, the first maximal coordinate of the real-valued mean is exactly the first maximal coordinate of the integer sum |
| `Labeling.LabelOfSpec` | app/visualization.py:11-14 | a non-empty cluster whose members all have n-entry vectors is labelled "<Venue> Lovers" after the first index of the maximal summed coordinate; an index past `venue_types` fails with IndexError |
| `Labeling.LabelOfMissing` | app/visualization.py:11 | a member without a vector makes the label fail with KeyError at the first such member |
| `Labeling.LabelClusters` | app/visualization.py:8-15 | on success there is one label per cluster id, in cluster order, each the label of that cluster; the call fails iff some cluster's label fails, and then with the error of the first failing cluster |
| `Labeling.ClusteredMembersFound` | app/visualization.py:11 | labelling the clusters that `cluster_users` built from the same vectors never raises KeyError: every member has a vector |
| `Labeling.TieGoesToLowerIndex` | app/visualization.py:12-14 | a tie between "bar" and "pastery" in the summed vector yields "Bar Lovers", the lower index |
| `Labeling.SumMembers` | app/visualization.py:26-30 | the `cluster_matrix += vector` loop on flat vectors; stated by `Labeling.SumMembersSpec` |
| `Labeling.Reshape` | app/visualization.py:29 | `reshape(rows, cols)`; its cell layout is `Labeling.ReshapeCell` |
| `Labeling.ClusterMatrix` | app/visualization.py:25-30 | one cluster's heat-map matrix; stated by `Labeling.ClusterMatrixSpec` and `Labeling.ClusterMatrixOrderFree` |
| `Labeling.SumMembersSpec` | app/visualization.py:28-30 | the summation loop succeeds iff every member has a vector of the matrix size, and then entry c is the members' summed entry c |
| `Labeling.ReshapeCell` | app/visualization.py:29 | `reshape(rows, cols)` is row-major: cell (r, c) is flat entry r*cols + c |
| `Labeling.ClusterMatrixSpec` | app/visualization.py:26-30 | a cluster's matrix has rows x cols cells, cell (r, c) is the members' summed entry r*cols + c, and it exists exactly when every member has a rows*cols vector |
| `Labeling.MemberSumPermutation` | app/visualization.py:28-30 | the summed entry does not depend on the order of the members |
| `Labeling.ClusterMatrixOrderFree` | app/visualization.py:26-30 | reordering a cluster's members changes neither whether its matrix exists nor the matrix |
| `Categorize.CountSplit` | app/crud.py:96-99 | every visit is counted on exactly one side of the split, so the two counts add up to the number of visits |
| `Categorize.TallyDayNight` | app/crud.py:89-99 | the day/night counting loop; stated by `Categorize.TallyDayNightCounts` |
| `Categorize.TallyDayNightCounts` | app/crud.py:89-99 | the counting loop ends with the number of daytime visits (hour in [6, 18)) and of the other visits |
| `Categorize.TimeOfDayTag` | app/crud.py:100-103 | the sun tag iff daytime visits >= night visits, so ties, including a user without visits, give the sun tag; the moon tag iff strictly fewer; equivalently, the sun tag iff at least half the visits are in daytime |
| `Categorize.CategorizeTimeOfDay` | app/crud.py:86-104 | every input user gets exactly one of the two tags, in input order: the sun tag iff at least half of their own visits are in daytime |
| `Categorize.TallyWeek` | app/crud.py:109-117 | the weekday/weekend counting loop; stated by `Categorize.TallyWeekCounts` |
| `Categorize.TallyWeekCounts` | app/crud.py:109-117 | the counting loop ends with the number of Monday-to-Friday visits (weekday < 5) and of weekend visits |
| `Categorize.WeekTag` | app/crud.py:118-121 | the weekday tag iff weekday visits >= weekend visits, so ties give the weekday tag; the weekend tag iff strictly fewer; equivalently, the weekday tag iff at least half the visits are on weekdays |
| `Categorize.CategorizeWeekdayVsWeekend` | app/crud.py:106-122 | every input user gets exactly one of the two tags, in input order: the weekday tag iff at least half of their own visits fall on weekdays |
| `Categorize.TallyVenues` | app/crud.py:127-130 | the `venue_counts[venue_type] += 1` loop; stated by `Categorize.TallyVenuesSpec` |
| `Categorize.FavoriteVenue` | app/crud.py:131 | `max(venue_counts, key=venue_counts.get)`; stated by `Categorize.FavoriteVenueSpec` and `Categorize.FavoriteNone` |
| `Categorize.TallyStep` | app/crud.py:128-130 | counting one more visit keeps the tally faithful: one entry per visited venue, holding its visit count, keys in order of first visit |
| `Categorize.TallyVenuesSpec` | app/crud.py:127-130 | the `venue_counts` defaultdict has distinct keys, exactly the visited venues, each with its number of visits, in order of first visit; it is empty iff there are no visits |
| `Categorize.FavoriteNone` | app/crud.py:131 | `max` has no answer exactly when the user has no visits |
| `Categorize.FavoriteVenueSpec` | app/crud.py:127-131 | the favourite venue was visited and has the most visits; every venue first visited before it has strictly fewer, so ties go to the venue met first in the user's own visits |
| `Categorize.TieGoesToFirstVisited` | app/crud.py:127-131 | with "bar" and "pub" visited twice each and "bar" first, the favourite is "bar", although "pub" comes first in `venue_types` |
| `Categorize.CategorizeVenuePreference` | app/crud.py:124-133 | the call fails iff some user has no visits, at the first such user; otherwise every user, in input order, gets their favourite venue |

## Left out

- `app/main.py`, the FastAPI routes, JSON loading and `strptime` parsing: I/O glue. A timestamp that does not parse is therefore not modelled.
- Calendar arithmetic (`.hour`, `.weekday()`, `.isocalendar()`): these are library computations. They are inputs in the `Visit` record.
- KMeans fitting: an sklearn call with randomised initialisation and floating-point iteration. Its labels are an arbitrary input sequence, and only its refusal of unusable input is modelled, as the `None` result. Because the labels are an input, they may differ in length from the users; `zip` then truncates, as in Python.
- Floating point: profiles and sums are integers. The mean of `label_clusters` appears only in `Labeling.CentroidArgMax`, which is over the reals, and float rounding is not modelled.
- Labeling.Capitalize: models `str.capitalize` on ASCII letters only. Non-ASCII case mapping is not modelled; the venue names are ASCII.
- Labeling.Dominant: a cluster with no members is modelled as numpy's NaN mean, whose argmax is 0. The grouping never produces an empty cluster.
- The plotting in `graph_clusters`, `plot_clusters` and the `plot_*` functions: matplotlib and seaborn side effects. Only the per-cluster matrix summation is modelled.
- The defaultdict that `calculate_weighted_matrices` returns: the model returns a plain association list. Looking up an absent user in the real result creates and returns a zero vector of `len(data)` entries, where `Labeling.Gather` models a plain dict's KeyError. The one caller that passes this result to `label_clusters` (`app/main.py:107-111`) clusters the same dict, so its members are all keys (`Labeling.ClusteredMembersFound`) and the difference does not arise there.
- The `print` of the exception in `cluster_users`'s handler (`app/crud.py:56-57`): console output. Only the `None` result is modelled.
- The `venue_types` parameter of `categorize_venue_preference` is never read. The model takes it and ignores it too.
- Concurrency and global state: none exists; each call is a pure function of its input.

## Findings

| source | as written | input that shows it | evidently intended | confidence | as-written member | corrected member |
|---|---|---|---|---|---|---|
| app/crud.py:62 | the defaultdict creates vectors of `len(data.values())` entries, one per user | one user with one "wine" visit: index 1 is past a vector of length 1 and raises IndexError; one user with two same-week "pub" visits gets [2] | one entry per venue type (`len(venue_types)`, 5), as the weighting comment and the index into the five-element venue list imply | medium, not executed | `Weighted.WineVisitOutOfRange` | `Weighted.WeightedByVenueFailure` |
