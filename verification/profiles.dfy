/** The count profile builder (`process_data`): every user's visits become a
    5 x 4 matrix of counts over (venue type, time bucket), flattened row-major
    into 20 entries. Visits to venues outside the five types are skipped. */
module Profiles {
  import opened Wrappers
  import opened AssocLists
  import opened Visits
  import opened Vectors

  datatype Bucket = Morning | Afternoon | Evening | Night

  /** The bucket list, whose order fixes the matrix columns. */
  const TimeBuckets: seq<Bucket> := [Morning, Afternoon, Evening, Night]

  /** Number of cells of a profile: venue types times buckets. */
  const NumCells: nat := 20

  /** `get_time_bucket`: four half-open hour ranges that cover the day. */
  function TimeBucket(hour: Hour): (b: Bucket)
    ensures b == Morning <==> 5 <= hour < 12
    ensures b == Afternoon <==> 12 <= hour < 17
    ensures b == Evening <==> 17 <= hour < 21
    ensures b == Night <==> hour < 5 || 21 <= hour
  {
    if 5 <= hour < 12 then Morning
    else if 12 <= hour < 17 then Afternoon
    else if 17 <= hour < 21 then Evening
    else Night
  }

  /** `time_buckets.index(b)`: the column of a bucket. */
  function BucketIndex(b: Bucket): (i: nat)
    ensures i < |TimeBuckets| && TimeBuckets[i] == b
  {
    match b
    case Morning => 0
    case Afternoon => 1
    case Evening => 2
    case Night => 3
  }

  /** Flattened row-major index of matrix cell (venue row v, bucket column b). */
  function CellOf(v: nat, b: nat): nat
  {
    v * 4 + b
  }

  /** Every cell (v, b) of the 5 x 4 matrix has its own flat index in 0..19,
      from which the row and the column are recovered. */
  lemma CellOfBounds(v: nat, b: nat)
    requires v < |VenueTypes| && b < |TimeBuckets|
    ensures CellOf(v, b) < NumCells
    ensures CellOf(v, b) / 4 == v && CellOf(v, b) % 4 == b
  {
  }

  /** Every flat index in 0..19 is the index of a cell: the row-major layout
      is onto, so with `CellOfBounds` it is a bijection. */
  lemma CellOfInverse(c: nat)
    requires c < NumCells
    ensures c / 4 < |VenueTypes| && c % 4 < |TimeBuckets| && CellOf(c / 4, c % 4) == c
  {
  }

  /** A visit belongs in cell (v, b) when its venue is the v-th type and its hour falls in the b-th bucket. */
  predicate InCell(x: Visit, v: nat, b: nat)
  {
    VenueIndex(x.venue) == Some(v) && BucketIndex(TimeBucket(x.hour)) == b
  }

  /** Number of visits that belong in cell (v, b). */
  function CellCount(visits: seq<Visit>, v: nat, b: nat): nat
  {
    if visits == [] then 0
    else (if InCell(visits[0], v, b) then 1 else 0) + CellCount(visits[1..], v, b)
  }

  /** Number of visits whose venue is one of the five types. */
  function KnownCount(visits: seq<Visit>): nat
  {
    if visits == [] then 0
    else (if visits[0].venue in VenueTypes then 1 else 0) + KnownCount(visits[1..])
  }

  /** One iteration of the inner loop: bump the visit's cell, or skip an unknown venue. */
  function AddVisit(vec: seq<int>, x: Visit): (r: seq<int>)
    requires |vec| == NumCells
    ensures |r| == NumCells
  {
    var b := TimeBucket(x.hour);
    match VenueIndex(x.venue)
    case None => vec
    case Some(v) =>
      var c := CellOf(v, BucketIndex(b));
      vec[c := vec[c] + 1]
  }

  /** The inner loop over one user's visits, from the running matrix `vec`. */
  function Accumulate(vec: seq<int>, visits: seq<Visit>): (r: seq<int>)
    requires |vec| == NumCells
    ensures |r| == NumCells
    decreases visits
  {
    if visits == [] then vec else Accumulate(AddVisit(vec, visits[0]), visits[1..])
  }

  /** One user's flattened count matrix. */
  function Profile(visits: seq<Visit>): (r: seq<int>)
    ensures |r| == NumCells
  {
    Accumulate(Zeros(NumCells), visits)
  }

  /** `process_data`: one profile per user, keys in input order. */
  function ProcessData(log: Log): (r: UserVectors)
    ensures |r| == |log|
    ensures forall i :: 0 <= i < |r| ==> r[i].0 == log[i].0 && r[i].1 == Profile(log[i].1)
  {
    seq(|log|, i requires 0 <= i < |log| => (log[i].0, Profile(log[i].1)))
  }

  lemma {:induction false} AccumulateCounts(vec: seq<int>, visits: seq<Visit>, v: nat, b: nat)
    requires |vec| == NumCells && v < |VenueTypes| && b < |TimeBuckets|
    ensures Accumulate(vec, visits)[CellOf(v, b)] == vec[CellOf(v, b)] + CellCount(visits, v, b)
    decreases visits
  {
    if visits != [] {
      var x := visits[0];
      var c := CellOf(v, b);
      assert AddVisit(vec, x)[c] == vec[c] + (if InCell(x, v, b) then 1 else 0) by {
        match VenueIndex(x.venue)
        case None =>
        case Some(v') =>
          CellOfBounds(v', BucketIndex(TimeBucket(x.hour)));
          CellOfBounds(v, b);
      }
      AccumulateCounts(AddVisit(vec, x), visits[1..], v, b);
    }
  }

  /** One iteration adds one to the total exactly when the venue is known. */
  lemma AddVisitSum(vec: seq<int>, x: Visit)
    requires |vec| == NumCells
    ensures Sum(AddVisit(vec, x)) == Sum(vec) + (if x.venue in VenueTypes then 1 else 0)
  {
    var b := BucketIndex(TimeBucket(x.hour));
    if VenueIndex(x.venue).Some? {
      var v := VenueIndex(x.venue).value;
      var c := CellOf(v, b);
      CellOfBounds(v, b);
      assert AddVisit(vec, x) == vec[c := vec[c] + 1];
      SumBump(vec, c, 1);
    } else {
      assert AddVisit(vec, x) == vec;
    }
  }

  lemma {:induction false} AccumulateSum(vec: seq<int>, visits: seq<Visit>)
    requires |vec| == NumCells
    ensures Sum(Accumulate(vec, visits)) == Sum(vec) + KnownCount(visits)
    decreases visits
  {
    if visits != [] {
      AddVisitSum(vec, visits[0]);
      AccumulateSum(AddVisit(vec, visits[0]), visits[1..]);
    }
  }


  /** What `process_data` promises for every user: a 20-entry vector whose cell
      (v, b) counts that user's visits to venue type v in bucket b, no entry
      negative, and a total equal to the number of visits to known venues. */
  lemma ProcessDataCounts(log: Log)
    ensures |ProcessData(log)| == |log|
    ensures forall i :: 0 <= i < |log| ==> ProcessData(log)[i].0 == log[i].0
    ensures forall i :: 0 <= i < |log| ==> |ProcessData(log)[i].1| == NumCells
    ensures forall i, v, b :: 0 <= i < |log| && 0 <= v < |VenueTypes| && 0 <= b < |TimeBuckets| ==>
              ProcessData(log)[i].1[CellOf(v, b)] == CellCount(log[i].1, v, b)
    ensures forall i, c :: 0 <= i < |log| && 0 <= c < NumCells ==> ProcessData(log)[i].1[c] >= 0
    ensures forall i :: 0 <= i < |log| ==> Sum(ProcessData(log)[i].1) == KnownCount(log[i].1)
  {
    var r := ProcessData(log);
    forall i, v, b | 0 <= i < |log| && 0 <= v < |VenueTypes| && 0 <= b < |TimeBuckets|
      ensures r[i].1[CellOf(v, b)] == CellCount(log[i].1, v, b)
    {
      AccumulateCounts(Zeros(NumCells), log[i].1, v, b);
    }
    forall i, c | 0 <= i < |log| && 0 <= c < NumCells
      ensures r[i].1[c] >= 0
    {
      CellOfInverse(c);
      AccumulateCounts(Zeros(NumCells), log[i].1, c / 4, c % 4);
    }
    forall i | 0 <= i < |log|
      ensures Sum(r[i].1) == KnownCount(log[i].1)
    {
      SumZeros(NumCells);
      AccumulateSum(Zeros(NumCells), log[i].1);
    }
  }
}
