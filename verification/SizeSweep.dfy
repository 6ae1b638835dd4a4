/**
 The throughput gate of benchmarks/_harness.py: where a size's throughput fell against the fastest
 smaller size, on medians alone (`dips`) or beyond what the samples overlap (`cliffs`), and the word the
 report prints beside each row. Floats are `real`.
 */
module SizeSweep {
  import opened Wrappers
  import opened Sorting

  const MIB := 1048576.0

  datatype SizePoint = SizePoint(sizeBytes: int, walls: seq<real>)

  /** What the constructor of a point insists on. */
  predicate IsPoint(p: SizePoint) {
    p.sizeBytes > 0 && p.walls != [] && forall w :: w in p.walls ==> w > 0.0
  }

  ghost predicate IsSweep(points: seq<SizePoint>) {
    && |points| >= 2
    && (forall p :: p in points ==> IsPoint(p))
    && (forall i, j :: 0 <= i < j < |points| ==> points[i].sizeBytes < points[j].sizeBytes)
  }

  // --- samples ----------------------------------------------------------------------------------------

  function Least(s: seq<real>): (m: real)
    requires s != []
    ensures m in s && forall x :: x in s ==> m <= x
  {
    if |s| == 1 then s[0]
    else
      assert s == [s[0]] + s[1..];
      var rest := Least(s[1..]);
      if s[0] <= rest then s[0] else rest
  }

  function Greatest(s: seq<real>): (m: real)
    requires s != []
    ensures m in s && forall x :: x in s ==> x <= m
  {
    if |s| == 1 then s[0]
    else
      assert s == [s[0]] + s[1..];
      var rest := Greatest(s[1..]);
      if s[0] >= rest then s[0] else rest
  }

  /** Python's `statistics.median`. */
  function Median(s: seq<real>): real
    requires s != []
  {
    var sorted := Sort((a: real, b: real) => a <= b, s);
    var n := |s|;
    if n % 2 == 1 then sorted[n / 2] else (sorted[n / 2 - 1] + sorted[n / 2]) / 2.0
  }

  /** The middle of the samples lies between the least and the greatest of them. */
  lemma MedianLiesBetween(s: seq<real>)
    requires s != []
    ensures Least(s) <= Median(s) <= Greatest(s)
  {
    var leq := (a: real, b: real) => a <= b;
    var sorted := Sort(leq, s);
    SortKeepsMembers(leq, s);
    forall i | 0 <= i < |sorted| ensures Least(s) <= sorted[i] <= Greatest(s) {
      assert sorted[i] in sorted;
    }
  }

  /** How many samples are below `v`, and how many are not above it. */
  ghost function Below(s: seq<real>, v: real): nat {
    if s == [] then 0 else (if s[0] < v then 1 else 0) + Below(s[1..], v)
  }

  ghost function UpTo(s: seq<real>, v: real): nat {
    if s == [] then 0 else (if s[0] <= v then 1 else 0) + UpTo(s[1..], v)
  }

  /** `v` is the sample of rank `k`, counting from 0: at most `k` are below it, and more than `k` are not above. */
  ghost predicate HasRank(s: seq<real>, v: real, k: nat) {
    v in s && Below(s, v) <= k < UpTo(s, v)
  }

  lemma {:induction false} CountsOfInsert(x: real, s: seq<real>, v: real)
    ensures var t := Insert((a: real, b: real) => a <= b, x, s);
            && Below(t, v) == Below([x] + s, v) && UpTo(t, v) == UpTo([x] + s, v)
  {
    var leq := (a: real, b: real) => a <= b;
    assert ([x] + s)[1..] == s;
    if s != [] && !(x <= s[0]) {
      CountsOfInsert(x, s[1..], v);
      var rest := Insert(leq, x, s[1..]);
      assert ([s[0]] + rest)[1..] == rest && ([x] + s[1..])[1..] == s[1..];
    }
  }

  lemma {:induction false} CountsOfSort(s: seq<real>, v: real)
    ensures var t := Sort((a: real, b: real) => a <= b, s);
            Below(t, v) == Below(s, v) && UpTo(t, v) == UpTo(s, v)
  {
    if s != [] {
      var leq := (a: real, b: real) => a <= b;
      CountsOfSort(s[1..], v);
      CountsOfInsert(s[0], Sort(leq, s[1..]), v);
      assert ([s[0]] + Sort(leq, s[1..]))[1..] == Sort(leq, s[1..]);
    }
  }

  lemma {:induction false} CountsWhenSorted(t: seq<real>, v: real, k: nat)
    requires SortedBy((a: real, b: real) => a <= b, t) && k < |t|
    ensures v == t[k] ==> Below(t, v) <= k < UpTo(t, v)
    ensures t[k] <= v ==> k < UpTo(t, v)
    ensures v <= t[k] ==> Below(t, v) <= k
  {
    var rest := t[1..];
    if k > 0 {
      CountsWhenSorted(rest, v, k - 1);
    } else if v <= t[0] {
      NoneBelow(t, v);
    }
  }

  lemma {:induction false} NoneBelow(t: seq<real>, v: real)
    requires forall x :: x in t ==> v <= x
    ensures Below(t, v) == 0
  {
    if t != [] {
      assert t[0] in t && forall x :: x in t[1..] ==> x in t;
      NoneBelow(t[1..], v);
    }
  }

  ghost predicate TwoInTheMiddle(s: seq<real>, low: real, high: real) {
    s != [] && |s| % 2 == 0 && HasRank(s, low, |s| / 2 - 1) && HasRank(s, high, |s| / 2)
  }

  /** The median is the sample in the middle, or half way between the two in the middle. */
  lemma MedianIsTheMiddle(s: seq<real>)
    requires s != []
    ensures |s| % 2 == 1 ==> HasRank(s, Median(s), |s| / 2)
    ensures |s| % 2 == 0 ==>
              exists low, high :: TwoInTheMiddle(s, low, high) && Median(s) * 2.0 == low + high
  {
    var leq := (a: real, b: real) => a <= b;
    var sorted := Sort(leq, s);
    SortSorts(leq, s);
    SortKeepsMembers(leq, s);
    forall k | 0 <= k < |s| ensures HasRank(s, sorted[k], k) {
      CountsWhenSorted(sorted, sorted[k], k);
      CountsOfSort(s, sorted[k]);
      assert sorted[k] in sorted;
    }
    if |s| % 2 == 0 {
      var low, high := sorted[|s| / 2 - 1], sorted[|s| / 2];
      assert TwoInTheMiddle(s, low, high) && Median(s) * 2.0 == low + high;
    }
  }

  // --- throughputs ---------------------------------------------------------------------------------------

  function Mib(p: SizePoint): real { p.sizeBytes as real / MIB }

  lemma WallsArePositive(p: SizePoint)
    requires IsPoint(p)
    ensures 0.0 < Least(p.walls) <= Median(p.walls) <= Greatest(p.walls)
    ensures Mib(p) > 0.0
  {
    MedianLiesBetween(p.walls);
  }

  function Throughput(p: SizePoint): real
    requires IsPoint(p)
  {
    WallsArePositive(p);
    Mib(p) / Median(p.walls)
  }

  /** The fastest run's, the most flattering. */
  function Best(p: SizePoint): real
    requires IsPoint(p)
  {
    Mib(p) / Least(p.walls)
  }

  /** The slowest run's, the least flattering. */
  function Worst(p: SizePoint): real
    requires IsPoint(p)
  {
    WallsArePositive(p);
    Mib(p) / Greatest(p.walls)
  }

  lemma Dividing(m: real, small: real, large: real)
    requires m > 0.0 && 0.0 < small <= large
    ensures 0.0 < m / large <= m / small
  {
    var a, b := m / large, m / small;
    assert a * large == m == b * small;
    if b < a {
      assert b * small < a * small <= a * large;
    }
  }

  lemma ThroughputLiesBetween(p: SizePoint)
    requires IsPoint(p)
    ensures 0.0 < Worst(p) <= Throughput(p) <= Best(p)
  {
    WallsArePositive(p);
    Dividing(Mib(p), Median(p.walls), Greatest(p.walls));
    Dividing(Mib(p), Least(p.walls), Median(p.walls));
  }

  /** What one sample of a point makes of it, in MiB of 1048576 bytes a second. */
  function SampleThroughput(p: SizePoint, wall: real): real
    requires wall > 0.0
  {
    p.sizeBytes as real / 1048576.0 / wall
  }

  lemma SampleOverWall(p: SizePoint, wall: real)
    requires wall > 0.0
    ensures SampleThroughput(p, wall) == Mib(p) / wall
  {
  }

  /** The throughput is the median sample's; the best and the worst bound every sample's and are some sample's. */
  lemma ThroughputsOfTheSamples(p: SizePoint)
    requires IsPoint(p)
    ensures Median(p.walls) > 0.0 && Throughput(p) == SampleThroughput(p, Median(p.walls))
    ensures forall w :: w in p.walls ==> Worst(p) <= SampleThroughput(p, w) <= Best(p)
    ensures exists w :: w in p.walls && Best(p) == SampleThroughput(p, w)
    ensures exists w :: w in p.walls && Worst(p) == SampleThroughput(p, w)
  {
    hide SampleThroughput, Mib;
    WallsArePositive(p);
    forall w: real ensures w > 0.0 ==> SampleThroughput(p, w) == Mib(p) / w {
      if w > 0.0 {
        SampleOverWall(p, w);
      }
    }
    forall w | w in p.walls ensures Worst(p) <= SampleThroughput(p, w) <= Best(p) {
      Dividing(Mib(p), w, Greatest(p.walls));
      Dividing(Mib(p), Least(p.walls), w);
    }
    assert Best(p) == SampleThroughput(p, Least(p.walls));
    assert Worst(p) == SampleThroughput(p, Greatest(p.walls));
  }

  // --- the two gates ----------------------------------------------------------------------------------------

  predicate AllPoints(points: seq<SizePoint>) {
    forall p :: p in points ==> IsPoint(p)
  }

  /** The earliest of the greatest. */
  function FirstGreatest(s: seq<real>): (k: nat)
    requires s != []
    ensures k < |s| && forall j :: 0 <= j < |s| ==> s[j] <= s[k]
    ensures forall j :: 0 <= j < k ==> s[j] < s[k]
  {
    var n := |s| - 1;
    if n == 0 then 0
    else
      var k := FirstGreatest(s[..n]);
      if s[n] > s[k] then n else k
  }

  function Throughputs(points: seq<SizePoint>): (r: seq<real>)
    requires AllPoints(points)
    ensures |r| == |points| && forall i :: 0 <= i < |r| ==> r[i] == Throughput(points[i])
  {
    seq(|points|, i requires 0 <= i < |points| => Throughput(points[i]))
  }

  /** Which of the first `index` points a fall is measured from. Python's `max` keeps the earliest on a tie. */
  function FastestBelow(points: seq<SizePoint>, index: nat): (k: Option<nat>)
    requires index <= |points| && AllPoints(points)
    ensures k.None? <==> index == 0
    ensures k.Some? ==> k.value < index
  {
    if index == 0 then None else Some(FirstGreatest(Throughputs(points)[..index]))
  }

  lemma FastestBelowIsFastest(points: seq<SizePoint>, index: nat)
    requires 0 < index <= |points| && AllPoints(points)
    ensures var k := FastestBelow(points, index).value;
            && (forall j :: 0 <= j < index ==> Throughput(points[j]) <= Throughput(points[k]))
            && (forall j :: 0 <= j < k ==> Throughput(points[j]) < Throughput(points[k]))
  {
    hide Throughput;
    var below := Throughputs(points)[..index];
    forall j | 0 <= j < index
      ensures Throughput(points[j]) <= Throughput(points[FirstGreatest(below)])
      ensures j < FirstGreatest(below) ==> Throughput(points[j]) < Throughput(points[FirstGreatest(below)])
    {
      assert below[j] == Throughput(points[j]);
    }
  }

  predicate FellBelow(p: SizePoint, reference: SizePoint, fraction: real)
    requires IsPoint(p) && IsPoint(reference)
  {
    Best(p) < fraction * Worst(reference)
  }

  predicate Dipped(p: SizePoint, reference: SizePoint, fraction: real)
    requires IsPoint(p) && IsPoint(reference)
  {
    Throughput(p) < fraction * Throughput(reference)
  }

  ghost predicate EverySampleBelow(p: SizePoint, reference: SizePoint, fraction: real)
    requires IsPoint(p) && IsPoint(reference)
  {
    forall v, w :: v in p.walls && w in reference.walls ==>
      SampleThroughput(p, v) < fraction * SampleThroughput(reference, w)
  }

  /** Even the luckiest sample fell short of the unluckiest of the reference: so every one did of every other. */
  lemma FellBelowIsEverySample(p: SizePoint, reference: SizePoint, fraction: real)
    requires IsPoint(p) && IsPoint(reference) && fraction > 0.0
    ensures FellBelow(p, reference, fraction) <==> EverySampleBelow(p, reference, fraction)
  {
    hide Best, Worst, SampleThroughput, Throughput, Median;
    ThroughputsOfTheSamples(p);
    ThroughputsOfTheSamples(reference);
    if FellBelow(p, reference, fraction) {
      forall v, w | v in p.walls && w in reference.walls
        ensures SampleThroughput(p, v) < fraction * SampleThroughput(reference, w)
      {
        Chained(fraction, SampleThroughput(p, v), Best(p), Worst(reference), SampleThroughput(reference, w));
      }
    } else {
      var best :| best in p.walls && Best(p) == SampleThroughput(p, best);
      var worst :| worst in reference.walls && Worst(reference) == SampleThroughput(reference, worst);
      assert !(SampleThroughput(p, best) < fraction * SampleThroughput(reference, worst));
    }
  }

  lemma Chained(t: real, a: real, b: real, c: real, d: real)
    requires t > 0.0 && a <= b && b < t * c && c <= d
    ensures a < t * d
  {
    Scaled(t, c, d);
  }

  /** Falling below the fastest smaller size on medians is falling below some smaller size. */
  lemma DipIsBelowSomeSmaller(points: seq<SizePoint>, index: nat, tolerance: real)
    requires index < |points| && AllPoints(points) && tolerance > 0.0
    ensures Fell(points, index, tolerance, false) <==>
              exists j :: 0 <= j < index && Throughput(points[index]) < tolerance * Throughput(points[j])
  {
    hide Throughput, FastestBelow;
    if index > 0 {
      FastestBelowIsFastest(points, index);
      var k := FastestBelow(points, index).value;
      forall j | 0 <= j < index ensures tolerance * Throughput(points[j]) <= tolerance * Throughput(points[k]) {
        Scaled(tolerance, Throughput(points[j]), Throughput(points[k]));
      }
    }
  }

  datatype Cliff = Cliff(point: SizePoint, reference: SizePoint)

  predicate Fell(points: seq<SizePoint>, index: nat, tolerance: real, separable: bool)
    requires index < |points| && AllPoints(points)
  {
    var k := FastestBelow(points, index);
    k.Some? && if separable then FellBelow(points[index], points[k.value], tolerance)
               else Dipped(points[index], points[k.value], tolerance)
  }

  /** The falls among the first `n` points, in order. */
  function FallsAmong(points: seq<SizePoint>, tolerance: real, separable: bool, n: nat): seq<Cliff>
    requires n <= |points| && AllPoints(points)
  {
    if n == 0 then []
    else
      FallsAmong(points, tolerance, separable, n - 1)
      + if Fell(points, n - 1, tolerance, separable)
        then [Cliff(points[n - 1], points[FastestBelow(points, n - 1).value])] else []
  }

  function Cliffs(points: seq<SizePoint>, tolerance: real): seq<Cliff>
    requires AllPoints(points)
  {
    FallsAmong(points, tolerance, true, |points|)
  }

  function Dips(points: seq<SizePoint>, tolerance: real): seq<Cliff>
    requires AllPoints(points)
  {
    FallsAmong(points, tolerance, false, |points|)
  }

  /** `None` is the `ValueError` for a tolerance outside (0, 1]. */
  method Falls(points: seq<SizePoint>, tolerance: real, separable: bool) returns (r: Option<seq<Cliff>>)
    requires IsSweep(points)
    ensures r.None? <==> !(0.0 < tolerance <= 1.0)
    ensures r.Some? ==> r.value == if separable then Cliffs(points, tolerance) else Dips(points, tolerance)
  {
    hide FellBelow;
    hide Dipped;
    hide FastestBelow;
    if !(0.0 < tolerance <= 1.0) {
      return None;
    }
    var found: seq<Cliff> := [];
    for index := 0 to |points|
      invariant found == FallsAmong(points, tolerance, separable, index)
    {
      var reference := FastestBelow(points, index);
      if reference.None? {
        continue;
      }
      var fell := if separable then FellBelow(points[index], points[reference.value], tolerance)
                  else Dipped(points[index], points[reference.value], tolerance);
      if fell {
        found := found + [Cliff(points[index], points[reference.value])];
      }
    }
    return Some(found);
  }

  /** A fall the samples separate is a fall of the medians: the median is between the extremes. */
  lemma SeparatedMeansDipped(p: SizePoint, reference: SizePoint, fraction: real)
    requires IsPoint(p) && IsPoint(reference) && fraction > 0.0
    requires FellBelow(p, reference, fraction)
    ensures Dipped(p, reference, fraction)
  {
    hide Best;
    hide Worst;
    hide Throughput;
    ThroughputLiesBetween(p);
    ThroughputLiesBetween(reference);
    Scaled(fraction, Worst(reference), Throughput(reference));
  }

  lemma Scaled(t: real, a: real, b: real)
    requires t > 0.0 && a <= b
    ensures t * a <= t * b
  {
  }

  lemma {:induction false} FallsAreWhatFell(points: seq<SizePoint>, tolerance: real, separable: bool, n: nat)
    requires n <= |points| && AllPoints(points)
    ensures forall c :: c in FallsAmong(points, tolerance, separable, n) <==>
              exists i :: 0 <= i < n && Fell(points, i, tolerance, separable)
                          && c == Cliff(points[i], points[FastestBelow(points, i).value])
  {
    hide FellBelow;
    hide Dipped;
    hide FastestBelow;
    if n > 0 {
      FallsAreWhatFell(points, tolerance, separable, n - 1);
      var last := Cliff(points[n - 1], if n > 1 then points[FastestBelow(points, n - 1).value] else points[0]);
      assert FallsAmong(points, tolerance, separable, n)
             == FallsAmong(points, tolerance, separable, n - 1)
                + if Fell(points, n - 1, tolerance, separable) then [last] else [];
    }
  }

  ghost predicate Climb(falls: seq<Cliff>) {
    forall i, j :: 0 <= i < j < |falls| ==> falls[i].point.sizeBytes < falls[j].point.sizeBytes
  }

  /** Each size is reported at most once, in the order of the sweep. */
  lemma {:induction false} FallsInOrder(points: seq<SizePoint>, tolerance: real, separable: bool, n: nat)
    requires n <= |points| && AllPoints(points)
    requires forall i, j :: 0 <= i < j < |points| ==> points[i].sizeBytes < points[j].sizeBytes
    ensures Climb(FallsAmong(points, tolerance, separable, n))
    ensures forall c :: c in FallsAmong(points, tolerance, separable, n) ==>
              exists i :: 0 <= i < n && c.point == points[i]
  {
    hide Fell, FastestBelow;
    if n > 0 {
      FallsInOrder(points, tolerance, separable, n - 1);
      var before, all := FallsAmong(points, tolerance, separable, n - 1), FallsAmong(points, tolerance, separable, n);
      assert before <= all && |all| <= |before| + 1;
      assert |all| > |before| ==> all == before + [all[|before|]] && all[|before|].point == points[n - 1];
      forall i, j | 0 <= i < j < |all| ensures all[i].point.sizeBytes < all[j].point.sizeBytes {
        assert all[i] == before[i] && before[i] in before;
      }
    }
  }

  /** Every cliff is also a dip, with the same reference. */
  lemma EveryCliffIsADip(points: seq<SizePoint>, tolerance: real, c: Cliff)
    requires AllPoints(points) && tolerance > 0.0
    requires c in Cliffs(points, tolerance)
    ensures c in Dips(points, tolerance)
  {
    hide FellBelow;
    hide Dipped;
    hide FastestBelow;
    FallsAreWhatFell(points, tolerance, true, |points|);
    FallsAreWhatFell(points, tolerance, false, |points|);
    var i :| 0 <= i < |points| && Fell(points, i, tolerance, true)
             && c == Cliff(points[i], points[FastestBelow(points, i).value]);
    SeparatedMeansDipped(points[i], points[FastestBelow(points, i).value], tolerance);
    assert Fell(points, i, tolerance, false);
  }

  // --- the word beside the row --------------------------------------------------------------------------------

  datatype Shape = NoReference | Rising | FellOff(ratio: real) | Slower(ratio: real, overlapping: bool)

  function ShapeOf(points: seq<SizePoint>, index: nat, tolerance: real): Shape
    requires index < |points| && AllPoints(points)
  {
    var k := FastestBelow(points, index);
    if k.None? then NoReference
    else
      var reference := points[k.value];
      ThroughputLiesBetween(reference);
      var ratio := Throughput(points[index]) / Throughput(reference);
      if ratio >= 1.0 then Rising
      else if FellBelow(points[index], reference, tolerance) then FellOff(ratio)
      else Slower(ratio, !FellBelow(points[index], reference, 1.0))
  }

  /** What each label of a row says, against the sizes before it. */
  lemma ShapeWrittenOut(points: seq<SizePoint>, index: nat, tolerance: real)
    requires AllPoints(points) && index < |points|
    ensures ShapeOf(points, index, tolerance).NoReference? <==> index == 0
    ensures index > 0 ==>
              var reference := points[FastestBelow(points, index).value];
              && (forall j :: 0 <= j < index ==> Throughput(points[j]) <= Throughput(reference))
              && match ShapeOf(points, index, tolerance)
                 case NoReference => false
                 case Rising => Throughput(points[index]) >= Throughput(reference)
                 case FellOff(ratio) =>
                   && Throughput(points[index]) == ratio * Throughput(reference)
                   && Throughput(points[index]) < Throughput(reference)
                   && FellBelow(points[index], reference, tolerance)
                 case Slower(ratio, overlapping) =>
                   && Throughput(points[index]) == ratio * Throughput(reference)
                   && Throughput(points[index]) < Throughput(reference)
                   && !FellBelow(points[index], reference, tolerance)
                   && (overlapping <==> !FellBelow(points[index], reference, 1.0))
  {
    hide FellBelow, FastestBelow, Throughput;
    if index > 0 {
      FastestBelowIsFastest(points, index);
      var reference := points[FastestBelow(points, index).value];
      ThroughputLiesBetween(reference);
      RatioBelowOne(Throughput(points[index]), Throughput(reference));
    }
  }

  lemma RatioBelowOne(a: real, b: real)
    requires b > 0.0
    ensures a / b < 1.0 <==> a < b
    ensures a == (a / b) * b
  {
    var q := a / b;
    assert a == q * b;
    if q < 1.0 {
      assert (1.0 - q) * b > 0.0;
    } else {
      assert (q - 1.0) * b >= 0.0;
    }
  }

  lemma ReportedRowFell(points: seq<SizePoint>, index: nat, tolerance: real)
    requires IsSweep(points) && index < |points|
    ensures Fell(points, index, tolerance, true)
            <==> exists c :: c in Cliffs(points, tolerance) && c.point == points[index]
  {
    hide FellBelow, Dipped, FastestBelow;
    FallsAreWhatFell(points, tolerance, true, |points|);
    if Fell(points, index, tolerance, true) {
      var c := Cliff(points[index], points[FastestBelow(points, index).value]);
      assert c in Cliffs(points, tolerance);
    }
    forall c | c in Cliffs(points, tolerance) && c.point == points[index] ensures Fell(points, index, tolerance, true) {
      var i :| 0 <= i < |points| && Fell(points, i, tolerance, true)
               && c == Cliff(points[i], points[FastestBelow(points, i).value]);
      assert points[i].sizeBytes == points[index].sizeBytes;
    }
  }

  /** For a tolerance the gate accepts, a row reads CLIFF exactly when the gate reports that row. */
  lemma LabelledCliffExactlyWhenReported(points: seq<SizePoint>, index: nat, tolerance: real)
    requires IsSweep(points) && index < |points| && 0.0 < tolerance <= 1.0
    ensures ShapeOf(points, index, tolerance).FellOff?
            <==> exists c :: c in Cliffs(points, tolerance) && c.point == points[index]
  {
    hide FellBelow, FastestBelow, Cliffs;
    ReportedRowFell(points, index, tolerance);
    var k := FastestBelow(points, index);
    if k.Some? {
      CliffIsNotRising(points[index], points[k.value], tolerance);
    }
  }

  lemma CliffIsNotRising(p: SizePoint, reference: SizePoint, tolerance: real)
    requires IsPoint(p) && IsPoint(reference) && 0.0 < tolerance <= 1.0
    ensures Throughput(reference) > 0.0
    ensures FellBelow(p, reference, tolerance) ==> Throughput(p) / Throughput(reference) < 1.0
  {
    hide Throughput;
    hide FellBelow;
    ThroughputLiesBetween(reference);
    if FellBelow(p, reference, tolerance) {
      SeparatedMeansDipped(p, reference, tolerance);
      assert tolerance * Throughput(reference) <= 1.0 * Throughput(reference);
    }
    RatioBelowOne(Throughput(p), Throughput(reference));
  }

  /** A row marked as overlapping is one whose samples do not separate it, and such a row is never a cliff. */
  lemma OverlappingRowsAreNotCliffs(points: seq<SizePoint>, index: nat, tolerance: real)
    requires AllPoints(points) && index < |points| && 0.0 < tolerance <= 1.0
    requires ShapeOf(points, index, tolerance).Slower? && ShapeOf(points, index, tolerance).overlapping
    ensures FastestBelow(points, index).Some?
    ensures forall t :: 0.0 < t <= 1.0 ==> !Fell(points, index, t, true)
  {
    var reference := points[FastestBelow(points, index).value];
    forall t | 0.0 < t <= 1.0 ensures !FellBelow(points[index], reference, t) {
      if FellBelow(points[index], reference, t) {
        LooserFractionStillFell(points[index], reference, t, 1.0);
      }
    }
  }

  lemma LooserFractionStillFell(p: SizePoint, reference: SizePoint, tight: real, loose: real)
    requires IsPoint(p) && IsPoint(reference) && 0.0 < tight <= loose
    requires FellBelow(p, reference, tight)
    ensures FellBelow(p, reference, loose)
  {
    hide Best;
    hide Worst;
    ThroughputLiesBetween(reference);
    Scaled(Worst(reference), tight, loose);
  }
}
