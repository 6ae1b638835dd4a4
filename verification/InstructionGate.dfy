/**
 The superlinearity gate of benchmarks/_instructions.py: the marginal cost of the bytes between
 adjacent rungs, each step held against the cheapest step below it. Floats are `real`.
 */
module InstructionGate {
  import opened Wrappers

  const MIB := 1048576.0

  datatype Rung = Rung(sizeBytes: int, instructions: int)

  datatype Step = Step(smaller: Rung, larger: Rung)

  /** What the rung and ladder constructors insist on. */
  ghost predicate IsLadder(rungs: seq<Rung>) {
    && |rungs| >= 2
    && (forall i :: 0 <= i < |rungs| ==> rungs[i].sizeBytes > 0 && rungs[i].instructions > 0)
    && Ascending(rungs)
  }

  ghost predicate Ascending(rungs: seq<Rung>) {
    forall i, j :: 0 <= i < j < |rungs| ==> rungs[i].sizeBytes < rungs[j].sizeBytes
  }

  function Size(r: Rung): real { r.sizeBytes as real }

  function Cost(r: Rung): real { r.instructions as real }

  function AddedMib(s: Step): real {
    (Size(s.larger) - Size(s.smaller)) / MIB
  }

  /** The marginal cost of a step: what it added in instructions over what it added in MiB. */
  function PerMib(s: Step): real
    requires s.smaller.sizeBytes < s.larger.sizeBytes
  {
    (Cost(s.larger) - Cost(s.smaller)) / AddedMib(s)
  }

  function Eligible(rungs: seq<Rung>, floorBytes: int): seq<Rung> {
    if rungs == [] then []
    else (if rungs[0].sizeBytes >= floorBytes then [rungs[0]] else []) + Eligible(rungs[1..], floorBytes)
  }

  lemma {:induction false} EligibleIsAscending(rungs: seq<Rung>, floorBytes: int)
    requires Ascending(rungs)
    ensures Ascending(Eligible(rungs, floorBytes))
    ensures forall r :: r in Eligible(rungs, floorBytes) <==> r in rungs && r.sizeBytes >= floorBytes
  {
    if rungs == [] {
    } else {
      EligibleIsAscending(rungs[1..], floorBytes);
      assert rungs == [rungs[0]] + rungs[1..];
      forall r | r in Eligible(rungs[1..], floorBytes) ensures rungs[0].sizeBytes < r.sizeBytes {
        assert r in rungs[1..];
      }
    }
  }

  /** Every adjacent pair of the eligible rungs. */
  function StepsOf(eligible: seq<Rung>): (r: seq<Step>)
    ensures |r| == if |eligible| == 0 then 0 else |eligible| - 1
  {
    seq(if |eligible| == 0 then 0 else |eligible| - 1,
        i requires 0 <= i < |eligible| - 1 => Step(eligible[i], eligible[i + 1]))
  }

  predicate Upward(steps: seq<Step>) {
    forall s :: s in steps ==> s.smaller.sizeBytes < s.larger.sizeBytes
  }

  lemma StepsGoUp(eligible: seq<Rung>)
    requires Ascending(eligible)
    ensures Upward(StepsOf(eligible))
  {
  }

  /** The gate's comparison of one step's cost with a reference's. */
  predicate Over(tolerance: real, cost: real, reference: real) {
    cost > tolerance * reference
  }

  lemma OverACheaperOne(tolerance: real, cost: real, reference: real, cheaper: real)
    requires tolerance >= 0.0 && cheaper <= reference && Over(tolerance, cost, reference)
    ensures Over(tolerance, cost, cheaper)
  {
    Scale(tolerance, cheaper, reference);
  }

  lemma Scale(t: real, a: real, b: real)
    requires t >= 0.0 && a <= b
    ensures t * a <= t * b
  {
  }

  // --- the gate -----------------------------------------------------------------------------------------

  datatype Rise = Rise(step: Step, reference: Step)

  /** Python's `min` by cost over the first `n` steps: the earliest of the cheapest. */
  function Cheapest(steps: seq<Step>, n: nat): (k: nat)
    requires 0 < n <= |steps| && Upward(steps)
    ensures k < n && forall j :: 0 <= j < n ==> PerMib(steps[k]) <= PerMib(steps[j])
    ensures forall j :: 0 <= j < k ==> PerMib(steps[k]) < PerMib(steps[j])
  {
    if n == 1 then 0
    else
      var k := Cheapest(steps, n - 1);
      if PerMib(steps[n - 1]) < PerMib(steps[k]) then n - 1 else k
  }

  /** The rises among the first `n` steps, in order. */
  function RisesAmong(steps: seq<Step>, tolerance: real, n: nat): seq<Rise>
    requires n <= |steps| && Upward(steps)
  {
    if n <= 1 then []
    else
      var reference := steps[Cheapest(steps, n - 1)];
      var step := steps[n - 1];
      RisesAmong(steps, tolerance, n - 1)
      + if Over(tolerance, PerMib(step), PerMib(reference)) then [Rise(step, reference)] else []
  }

  lemma FewStepsDoNotRise(steps: seq<Step>, tolerance: real)
    requires Upward(steps)
    ensures forall n :: 0 <= n <= 1 && n <= |steps| ==> RisesAmong(steps, tolerance, n) == []
  {
  }

  lemma OneMoreStep(steps: seq<Step>, tolerance: real, n: nat)
    requires 1 <= n < |steps| && Upward(steps)
    ensures var reference := steps[Cheapest(steps, n)];
            RisesAmong(steps, tolerance, n + 1)
            == RisesAmong(steps, tolerance, n)
               + if Over(tolerance, PerMib(steps[n]), PerMib(reference)) then [Rise(steps[n], reference)] else []
  {
    hide PerMib, Over, Cheapest;
  }

  /** `None` is the `ValueError` for a tolerance below one. */
  method Rises(rungs: seq<Rung>, tolerance: real, floorBytes: int) returns (r: Option<seq<Rise>>)
    requires IsLadder(rungs)
    ensures r.None? <==> tolerance < 1.0
    ensures Upward(StepsOf(Eligible(rungs, floorBytes)))
    ensures r.Some? ==>
              var steps := StepsOf(Eligible(rungs, floorBytes));
              r.value == RisesAmong(steps, tolerance, |steps|)
  {
    hide PerMib, Over, AddedMib, Eligible, StepsOf, RisesAmong;
    EligibleIsAscending(rungs, floorBytes);
    StepsGoUp(Eligible(rungs, floorBytes));
    if tolerance < 1.0 {
      return None;
    }
    var steps := StepsOf(Eligible(rungs, floorBytes));
    var found: seq<Rise> := [];
    var index := 1;
    FewStepsDoNotRise(steps, tolerance);
    while index < |steps|
      invariant 1 <= index && (index <= |steps| || |steps| == 0)
      invariant found == RisesAmong(steps, tolerance, if |steps| == 0 then 0 else index)
    {
      OneMoreStep(steps, tolerance, index);
      var step := steps[index];
      var reference := steps[Cheapest(steps, index)];
      if Over(tolerance, PerMib(step), PerMib(reference)) {
        found := found + [Rise(step, reference)];
      }
      index := index + 1;
    }
    return Some(found);
  }

  /** Some earlier step costs less than `1 / tolerance` of this one. */
  ghost predicate Outgrown(steps: seq<Step>, tolerance: real, i: nat)
    requires i < |steps| && Upward(steps)
  {
    exists j :: 0 <= j < i && Over(tolerance, PerMib(steps[i]), PerMib(steps[j]))
  }

  lemma OutgrownMeansTheCheapest(steps: seq<Step>, tolerance: real, i: nat)
    requires 0 < i < |steps| && Upward(steps) && tolerance >= 1.0
    ensures Outgrown(steps, tolerance, i)
            <==> Over(tolerance, PerMib(steps[i]), PerMib(steps[Cheapest(steps, i)]))
  {
    hide PerMib;
    hide Over;
    var k := Cheapest(steps, i);
    if Outgrown(steps, tolerance, i) {
      var j :| 0 <= j < i && Over(tolerance, PerMib(steps[i]), PerMib(steps[j]));
      OverACheaperOne(tolerance, PerMib(steps[i]), PerMib(steps[j]), PerMib(steps[k]));
    }
  }

  /** What is reported is exactly the outgrown steps, each against the cheapest step below it. */
  lemma {:induction false} ReportsExactlyTheOutgrown(steps: seq<Step>, tolerance: real, n: nat)
    requires n <= |steps| && Upward(steps) && tolerance >= 1.0
    ensures forall x :: x in RisesAmong(steps, tolerance, n) <==>
              exists i :: 0 < i < n && Outgrown(steps, tolerance, i)
                          && x == Rise(steps[i], steps[Cheapest(steps, i)])
    ensures RisesAmong(steps, tolerance, n) == [] <==> forall i :: 0 < i < n ==> !Outgrown(steps, tolerance, i)
  {
    hide PerMib, Over, Outgrown, Cheapest;
    if n > 1 {
      ReportsExactlyTheOutgrown(steps, tolerance, n - 1);
      OutgrownMeansTheCheapest(steps, tolerance, n - 1);
      var before, all := RisesAmong(steps, tolerance, n - 1), RisesAmong(steps, tolerance, n);
      var last := Rise(steps[n - 1], steps[Cheapest(steps, n - 1)]);
      assert all == before + if Outgrown(steps, tolerance, n - 1) then [last] else [];
    }
  }

  ghost predicate Climb(rises: seq<Rise>) {
    forall i, j :: 0 <= i < j < |rises| ==> rises[i].step.larger.sizeBytes < rises[j].step.larger.sizeBytes
  }

  /** Each step is reported at most once, in ladder order. */
  lemma {:induction false} RisesInOrder(steps: seq<Step>, tolerance: real, n: nat)
    requires n <= |steps| && Upward(steps)
    requires forall i, j :: 0 <= i < j < |steps| ==> steps[i].larger.sizeBytes < steps[j].larger.sizeBytes
    ensures Climb(RisesAmong(steps, tolerance, n))
    ensures forall x :: x in RisesAmong(steps, tolerance, n) ==> x.step in steps[..n]
  {
    hide PerMib, Over, Cheapest;
    if n > 1 {
      RisesInOrder(steps, tolerance, n - 1);
      var before, all := RisesAmong(steps, tolerance, n - 1), RisesAmong(steps, tolerance, n);
      var last := Rise(steps[n - 1], steps[Cheapest(steps, n - 1)]);
      assert all == before || all == before + [last];
      assert steps[..n] == steps[..n - 1] + [steps[n - 1]];
      forall i, j | 0 <= i < j < |all| ensures all[i].step.larger.sizeBytes < all[j].step.larger.sizeBytes {
        assert all[i] == before[i] && before[i] in before;
      }
    }
  }

  /** The steps of a ladder go up in their larger rung, so the report of the gate is in that order. */
  lemma ReportIsInLadderOrder(rungs: seq<Rung>, tolerance: real, floorBytes: int)
    requires Ascending(rungs)
    ensures Upward(StepsOf(Eligible(rungs, floorBytes)))
    ensures var steps := StepsOf(Eligible(rungs, floorBytes));
            Climb(RisesAmong(steps, tolerance, |steps|))
  {
    hide RisesAmong;
    EligibleIsAscending(rungs, floorBytes);
    StepsGoUp(Eligible(rungs, floorBytes));
    var steps := StepsOf(Eligible(rungs, floorBytes));
    RisesInOrder(steps, tolerance, |steps|);
  }

  /** A step is a pair of neighbours among the eligible rungs; its cost is the added instructions per added MiB. */
  lemma StepsWrittenOut(eligible: seq<Rung>, i: nat)
    requires Ascending(eligible) && i + 1 < |eligible|
    ensures |StepsOf(eligible)| == |eligible| - 1 && StepsOf(eligible)[i] == Step(eligible[i], eligible[i + 1])
    ensures var s := StepsOf(eligible)[i];
            && s.smaller.sizeBytes < s.larger.sizeBytes
            && PerMib(s) * ((s.larger.sizeBytes - s.smaller.sizeBytes) as real)
               == (s.larger.instructions - s.smaller.instructions) as real * 1048576.0
  {
    var s := StepsOf(eligible)[i];
    StepCost(s);
    var added := (s.larger.sizeBytes - s.smaller.sizeBytes) as real;
    assert AddedMib(s) == added / 1048576.0;
    assert PerMib(s) * added == PerMib(s) * AddedMib(s) * 1048576.0;
  }

  // --- what an empty report says about the whole ladder ------------------------------------------------------

  ghost predicate NoRises(eligible: seq<Rung>, tolerance: real)
    requires Ascending(eligible)
  {
    StepsGoUp(eligible);
    forall i :: 0 < i < |StepsOf(eligible)| ==> !Outgrown(StepsOf(eligible), tolerance, i)
  }

  /** What the gate returns for a ladder, at any floor, is empty exactly when no eligible step is outgrown. */
  lemma EmptyExactlyWhenNothingRises(rungs: seq<Rung>, tolerance: real, floorBytes: int)
    requires Ascending(rungs) && tolerance >= 1.0
    ensures Ascending(Eligible(rungs, floorBytes)) && Upward(StepsOf(Eligible(rungs, floorBytes)))
    ensures var steps := StepsOf(Eligible(rungs, floorBytes));
            RisesAmong(steps, tolerance, |steps|) == [] <==> NoRises(Eligible(rungs, floorBytes), tolerance)
  {
    hide PerMib, Over, Outgrown;
    EligibleIsAscending(rungs, floorBytes);
    StepsGoUp(Eligible(rungs, floorBytes));
    var steps := StepsOf(Eligible(rungs, floorBytes));
    ReportsExactlyTheOutgrown(steps, tolerance, |steps|);
  }

  function First(eligible: seq<Rung>): real
    requires |eligible| >= 2 && eligible[0].sizeBytes < eligible[1].sizeBytes
  {
    PerMib(Step(eligible[0], eligible[1]))
  }

  ghost predicate WithinLine(eligible: seq<Rung>, tolerance: real, k: nat)
    requires |eligible| >= 2 && eligible[0].sizeBytes < eligible[1].sizeBytes && k < |eligible|
  {
    Cost(eligible[k]) <= Cost(eligible[0])
                         + tolerance * First(eligible) * ((Size(eligible[k]) - Size(eligible[0])) / MIB)
  }

  lemma StepCost(s: Step)
    requires s.smaller.sizeBytes < s.larger.sizeBytes
    ensures AddedMib(s) > 0.0
    ensures Cost(s.larger) == Cost(s.smaller) + PerMib(s) * AddedMib(s)
  {
  }

  lemma StepWithinLimit(eligible: seq<Rung>, tolerance: real, i: nat)
    requires Ascending(eligible) && i + 1 < |eligible|
    requires tolerance >= 1.0 && NoRises(eligible, tolerance)
    requires First(eligible) >= 0.0 || tolerance == 1.0
    ensures PerMib(Step(eligible[i], eligible[i + 1])) <= tolerance * First(eligible)
  {
    hide PerMib;
    var steps := StepsOf(eligible);
    StepsGoUp(eligible);
    if i == 0 {
      AtLeastItself(tolerance, First(eligible));
    } else {
      assert !Outgrown(steps, tolerance, i);
      assert !Over(tolerance, PerMib(steps[i]), PerMib(steps[0]));
    }
  }

  lemma {:induction false} BoundedByALine(eligible: seq<Rung>, tolerance: real, k: nat)
    requires Ascending(eligible) && |eligible| >= 2 && k < |eligible|
    requires tolerance >= 1.0 && NoRises(eligible, tolerance)
    requires First(eligible) >= 0.0 || tolerance == 1.0
    ensures WithinLine(eligible, tolerance, k)
  {
    hide PerMib;
    if k > 0 {
      BoundedByALine(eligible, tolerance, k - 1);
      var step := Step(eligible[k - 1], eligible[k]);
      StepCost(step);
      StepWithinLimit(eligible, tolerance, k - 1);
      var limit := tolerance * First(eligible);
      var done := (Size(eligible[k - 1]) - Size(eligible[0])) / MIB;
      assert (Size(eligible[k]) - Size(eligible[0])) / MIB == done + AddedMib(step);
      Accumulate(Cost(eligible[0]), Cost(eligible[k - 1]), Cost(eligible[k]), limit, PerMib(step), done,
                 AddedMib(step));
    }
  }

  lemma Accumulate(first: real, before: real, now: real, limit: real, margin: real, done: real, added: real)
    requires before <= first + limit * done
    requires now == before + margin * added && margin <= limit && added > 0.0
    ensures now <= first + limit * (done + added)
  {
    Scale(added, margin, limit);
    assert limit * (done + added) == limit * done + added * limit;
  }

  lemma AtLeastItself(t: real, m: real)
    requires t >= 1.0 && (m >= 0.0 || t == 1.0)
    ensures m <= t * m
  {
  }

  /**
   An empty report bounds the whole ladder by one line from its first rung, with no compounding. It does
   so exactly when the first step did not come out negative, or nothing was tolerated.
   */
  lemma EmptyReportBoundsTheLadder(eligible: seq<Rung>, tolerance: real)
    requires Ascending(eligible) && |eligible| >= 2
    requires tolerance >= 1.0 && NoRises(eligible, tolerance)
    ensures (forall k :: 0 <= k < |eligible| ==> WithinLine(eligible, tolerance, k))
            <==> First(eligible) >= 0.0 || tolerance == 1.0
  {
    if First(eligible) >= 0.0 || tolerance == 1.0 {
      forall k | 0 <= k < |eligible| ensures WithinLine(eligible, tolerance, k) {
        BoundedByALine(eligible, tolerance, k);
      }
    } else {
      var m, step := First(eligible), Step(eligible[0], eligible[1]);
      StepCost(step);
      assert tolerance * m < m by { assert (tolerance - 1.0) * m < 0.0; }
      assert tolerance * m * AddedMib(step) < m * AddedMib(step);
      assert !WithinLine(eligible, tolerance, 1);
    }
  }

  // --- what it says of a cost law ----------------------------------------------------------------------------

  /** Every rung costs `fixed + rate * size + curve * size^2`. */
  ghost predicate CostsAs(eligible: seq<Rung>, fixed: real, rate: real, curve: real) {
    forall r :: r in eligible ==> Cost(r) == fixed + rate * Size(r) + curve * Size(r) * Size(r)
  }

  /** The marginal cost per MiB between sizes `a` and `b`, if the cost has that law. */
  function Margin(rate: real, curve: real, a: real, b: real): real {
    MIB * (rate + curve * (a + b))
  }

  lemma MarginOf(eligible: seq<Rung>, fixed: real, rate: real, curve: real, i: nat)
    requires Ascending(eligible) && CostsAs(eligible, fixed, rate, curve) && i + 1 < |eligible|
    ensures var s := Step(eligible[i], eligible[i + 1]);
            PerMib(s) == Margin(rate, curve, Size(eligible[i]), Size(eligible[i + 1]))
  {
    var a, b := Size(eligible[i]), Size(eligible[i + 1]);
    var s := Step(eligible[i], eligible[i + 1]);
    assert eligible[i] in eligible && eligible[i + 1] in eligible;
    assert Cost(s.larger) - Cost(s.smaller) == (b - a) * (rate + curve * (a + b));
    Quotient(b - a, rate + curve * (a + b));
  }

  lemma Quotient(width: real, margin: real)
    requires width > 0.0
    ensures width * margin / (width / MIB) == MIB * margin
  {
    var added := width / MIB;
    assert added > 0.0 && width * margin == MIB * margin * added;
  }

  /** A cost that is linear in the bytes never rises, unless it falls with size and something is tolerated. */
  lemma LinearCostNeverRises(eligible: seq<Rung>, tolerance: real, fixed: real, rate: real)
    requires Ascending(eligible) && CostsAs(eligible, fixed, rate, 0.0) && tolerance >= 1.0
    ensures NoRises(eligible, tolerance) <==> rate >= 0.0 || tolerance == 1.0 || |eligible| <= 2
  {
    hide PerMib;
    StepsGoUp(eligible);
    var steps := StepsOf(eligible);
    forall i | 0 <= i < |steps| ensures PerMib(steps[i]) == MIB * rate {
      MarginOf(eligible, fixed, rate, 0.0, i);
    }
    if rate >= 0.0 || tolerance == 1.0 {
      AtLeastItself(tolerance, MIB * rate);
    } else if |eligible| > 2 {
      assert (tolerance - 1.0) * (MIB * rate) < 0.0;
      assert Over(tolerance, PerMib(steps[1]), PerMib(steps[0]));
      assert Outgrown(steps, tolerance, 1);
    }
  }

  lemma StepsLieBetweenTheEnds(eligible: seq<Rung>, fixed: real, rate: real, curve: real)
    requires Ascending(eligible) && CostsAs(eligible, fixed, rate, curve) && curve > 0.0 && |eligible| >= 2
    ensures Upward(StepsOf(eligible))
    ensures var steps := StepsOf(eligible);
            forall i :: 0 <= i < |steps| ==> PerMib(steps[0]) <= PerMib(steps[i]) <= PerMib(steps[|steps| - 1])
  {
    hide PerMib, CostsAs;
    StepsGoUp(eligible);
    var steps := StepsOf(eligible);
    var last := |steps| - 1;
    forall i | 0 <= i < |steps| ensures PerMib(steps[0]) <= PerMib(steps[i]) <= PerMib(steps[last]) {
      MarginGrows(eligible, fixed, rate, curve, 0, i);
      MarginGrows(eligible, fixed, rate, curve, i, last);
    }
  }

  /** Under a cost that curves upward the margins grow, so the last step against the first decides. */
  lemma CurvedCostRisesWhenTheEndsDiffer(eligible: seq<Rung>, tolerance: real, fixed: real, rate: real, curve: real)
    requires Ascending(eligible) && CostsAs(eligible, fixed, rate, curve) && curve > 0.0
    requires |eligible| >= 3 && tolerance >= 1.0
    ensures var n := |eligible|;
            NoRises(eligible, tolerance) <==>
              !Over(tolerance, Margin(rate, curve, Size(eligible[n - 2]), Size(eligible[n - 1])),
                    Margin(rate, curve, Size(eligible[0]), Size(eligible[1])))
  {
    hide PerMib, Over, Margin, CostsAs, Outgrown;
    StepsLieBetweenTheEnds(eligible, fixed, rate, curve);
    MarginOf(eligible, fixed, rate, curve, 0);
    MarginOf(eligible, fixed, rate, curve, |eligible| - 2);
    OnlyTheEndsMatter(StepsOf(eligible), tolerance);
  }

  lemma OnlyTheEndsMatter(steps: seq<Step>, tolerance: real)
    requires Upward(steps) && |steps| >= 2 && tolerance >= 0.0
    requires forall i :: 0 <= i < |steps| ==> PerMib(steps[0]) <= PerMib(steps[i]) <= PerMib(steps[|steps| - 1])
    ensures (exists i :: 0 < i < |steps| && Outgrown(steps, tolerance, i))
            <==> Over(tolerance, PerMib(steps[|steps| - 1]), PerMib(steps[0]))
  {
    hide PerMib;
    var last := |steps| - 1;
    if Over(tolerance, PerMib(steps[last]), PerMib(steps[0])) {
      assert Outgrown(steps, tolerance, last);
    }
    forall i, j | 0 <= j < i < |steps| && Over(tolerance, PerMib(steps[i]), PerMib(steps[j]))
      ensures Over(tolerance, PerMib(steps[last]), PerMib(steps[0]))
    {
      OverACheaperOne(tolerance, PerMib(steps[i]), PerMib(steps[j]), PerMib(steps[0]));
    }
  }

  lemma MarginIsMonotone(rate: real, curve: real, a: real, b: real, c: real, d: real)
    requires curve > 0.0 && a + b <= c + d
    ensures Margin(rate, curve, a, b) <= Margin(rate, curve, c, d)
  {
    Scale(curve, a + b, c + d);
  }

  lemma MarginGrows(eligible: seq<Rung>, fixed: real, rate: real, curve: real, i: nat, j: nat)
    requires Ascending(eligible) && CostsAs(eligible, fixed, rate, curve)
    requires curve > 0.0 && i <= j && j + 1 < |eligible|
    ensures PerMib(Step(eligible[i], eligible[i + 1])) <= PerMib(Step(eligible[j], eligible[j + 1]))
  {
    hide PerMib, Margin;
    MarginOf(eligible, fixed, rate, curve, i);
    MarginOf(eligible, fixed, rate, curve, j);
    MarginIsMonotone(rate, curve, Size(eligible[i]), Size(eligible[i + 1]), Size(eligible[j]), Size(eligible[j + 1]));
  }

  function Pow2(k: nat): (r: int)
    ensures r > k
  {
    if k == 0 then 1 else 2 * Pow2(k - 1)
  }

  /** Each rung twice the one before. */
  ghost predicate Doubling(eligible: seq<Rung>) {
    forall i :: 0 <= i < |eligible| ==> eligible[i].sizeBytes == eligible[0].sizeBytes * Pow2(i)
  }

  /** How long a doubling ladder has to be for a curved cost to show, whatever is tolerated. */
  function LongEnough(smallest: int, tolerance: real, rate: real, curve: real): real
    requires smallest > 0 && curve > 0.0
  {
    (tolerance * (rate + curve * (3.0 * smallest as real)) - rate) / (curve * (3.0 * smallest as real))
  }

  lemma LongDoublingLadderRises(eligible: seq<Rung>, tolerance: real, fixed: real, rate: real, curve: real)
    requires Ascending(eligible) && Doubling(eligible) && |eligible| >= 3 && eligible[0].sizeBytes > 0
    requires CostsAs(eligible, fixed, rate, curve) && curve > 0.0 && tolerance >= 1.0
    requires (|eligible| - 2) as real >= LongEnough(eligible[0].sizeBytes, tolerance, rate, curve)
    ensures !NoRises(eligible, tolerance)
  {
    hide PerMib, Over, Margin, LongEnough, CostsAs, Pow2, NoRises;
    var n, smallest := |eligible|, eligible[0].sizeBytes;
    var p := Pow2(n - 2) as real;
    DoubledSizes(eligible, n - 2);
    FarEnough(smallest, p, Size(eligible[n - 2]), Size(eligible[n - 1]), Size(eligible[1]), tolerance, rate, curve);
    CurvedCostRisesWhenTheEndsDiffer(eligible, tolerance, fixed, rate, curve);
  }

  lemma DoubledSizes(eligible: seq<Rung>, k: nat)
    requires Doubling(eligible) && k + 1 < |eligible|
    ensures Size(eligible[k]) == Size(eligible[0]) * Pow2(k) as real
    ensures Size(eligible[k + 1]) == 2.0 * (Size(eligible[0]) * Pow2(k) as real)
    ensures Size(eligible[1]) == 2.0 * Size(eligible[0])
  {
    assert Pow2(1) == 2;
    var s := eligible[0].sizeBytes;
    assert eligible[k].sizeBytes == s * Pow2(k) && eligible[k + 1].sizeBytes == s * Pow2(k + 1);
    assert s * (2 * Pow2(k)) == 2 * (s * Pow2(k));
    DoubledSize(s, k);
  }

  lemma FarEnough(smallest: int, p: real, a: real, b: real, second: real, tolerance: real, rate: real, curve: real)
    requires smallest > 0 && curve > 0.0
    requires p > LongEnough(smallest, tolerance, rate, curve)
    requires a == smallest as real * p && b == 2.0 * a && second == 2.0 * smallest as real
    ensures Over(tolerance, Margin(rate, curve, a, b), Margin(rate, curve, smallest as real, second))
  {
    var s := smallest as real;
    var unit := curve * (3.0 * s);
    CrossMultiply(p, tolerance * (rate + unit) - rate, unit);
    Regrouped(curve, s, p);
    assert curve * (a + b) == p * unit;
    Magnify(rate + p * unit, tolerance, rate + unit);
  }

  lemma Regrouped(curve: real, s: real, p: real)
    ensures curve * (s * p + 2.0 * (s * p)) == p * (curve * (3.0 * s))
    ensures curve * (s + 2.0 * s) == curve * (3.0 * s)
  {
  }

  lemma Magnify(a: real, t: real, b: real)
    requires a > t * b
    ensures MIB * a > t * (MIB * b)
  {
    assert t * (MIB * b) == MIB * (t * b);
  }

  lemma CrossMultiply(p: real, x: real, unit: real)
    requires unit > 0.0 && p > x / unit
    ensures p * unit > x
  {
    var q := x / unit;
    assert x == q * unit;
  }

  lemma DoubledSize(size: int, k: nat)
    ensures (size * Pow2(k)) as real == size as real * Pow2(k) as real
  {
  }
}
