/**
 The sweep line of examples/concurrent_transfers.py: sort the opening and closing edges, scan
 them with one running count, and report the largest count seen. Instants are `real`.
 */
module Overlap {
  import opened Sorting

  datatype Span = Span(start: real, end: real)

  datatype Edge = Edge(at: real, delta: int)

  /** Python's order on the `(instant, delta)` tuples: a closing sorts before an opening. */
  predicate EdgeLeq(a: Edge, b: Edge) {
    a.at < b.at || (a.at == b.at && a.delta <= b.delta)
  }

  function Openings(spans: seq<Span>): (r: seq<Edge>)
  {
    if spans == [] then [] else [Edge(spans[0].start, 1)] + Openings(spans[1..])
  }

  function Closings(spans: seq<Span>): (r: seq<Edge>)
  {
    if spans == [] then [] else [Edge(spans[0].end, -1)] + Closings(spans[1..])
  }

  function EdgesInOrder(spans: seq<Span>): seq<Edge> {
    Sort(EdgeLeq, Openings(spans) + Closings(spans))
  }

  // --- what is being counted, stated without edges ------------------------------------------

  /** How many spans are open at instant `t`: a span covers its start and not its end. */
  ghost function OpenAt(spans: seq<Span>, t: real): nat {
    if spans == [] then 0
    else (if spans[0].start <= t < spans[0].end then 1 else 0) + OpenAt(spans[1..], t)
  }

  /** How many spans run backwards across instant `t`: closed at or before it, opened after it. */
  ghost function BackwardAt(spans: seq<Span>, t: real): nat {
    if spans == [] then 0
    else (if spans[0].end <= t < spans[0].start then 1 else 0) + BackwardAt(spans[1..], t)
  }

  ghost predicate Forward(spans: seq<Span>) {
    forall s :: s in spans ==> s.start <= s.end
  }

  /** What the running count stands for at instant `t`. */
  ghost function Counted(spans: seq<Span>, t: real): int {
    OpenAt(spans, t) - BackwardAt(spans, t)
  }

  /** `peak` is the maximum over all instants: no instant exceeds it, and some instant attains it. */
  ghost predicate IsPeak(spans: seq<Span>, peak: int) {
    && (forall t :: Counted(spans, t) <= peak)
    && (exists t :: Counted(spans, t) == peak)
  }

  /** The claim as the program makes it, about the spans open at an instant and nothing else. */
  ghost predicate IsPeakOverlap(spans: seq<Span>, peak: int) {
    && (forall t :: OpenAt(spans, t) <= peak)
    && (exists t :: OpenAt(spans, t) == peak)
  }

  /** No instant has more spans open. */
  ghost predicate Busiest(spans: seq<Span>, t: real) {
    forall u :: OpenAt(spans, u) <= OpenAt(spans, t)
  }

  /** At some busiest instant no span runs backwards across it. */
  ghost predicate BusiestIsClear(spans: seq<Span>) {
    exists t :: Busiest(spans, t) && BackwardAt(spans, t) == 0
  }

  // --- the scan ------------------------------------------------------------------------------

  /** The running count after every edge of `edges`. */
  ghost function Running(edges: seq<Edge>): int {
    if edges == [] then 0 else Running(edges[..|edges| - 1]) + edges[|edges| - 1].delta
  }

  /**
   The scan of the sorted edges. Its answer is the true peak exactly when some busiest instant is clear of
   backward spans, and so of every list in which none runs backwards.
   */
  method PeakOverlap(spans: seq<Span>) returns (peak: int)
    ensures IsPeak(spans, peak)
    ensures IsPeakOverlap(spans, peak) <==> BusiestIsClear(spans)
    ensures Forward(spans) ==> IsPeakOverlap(spans, peak)
  {
    var edges := EdgesInOrder(spans);
    var openNow := 0;
    peak := 0;
    ghost var best := 0;
    for k := 0 to |edges|
      invariant openNow == Running(edges[..k])
      invariant 0 <= best <= k && peak == Running(edges[..best])
      invariant forall i :: 0 <= i <= k ==> Running(edges[..i]) <= peak
    {
      assert edges[..k + 1][..k] == edges[..k];
      openNow := openNow + edges[k].delta;
      if openNow > peak {
        peak, best := openNow, k + 1;
      }
    }
    ScanFindsPeak(spans, peak, best);
    PeakIsExactWhenClear(spans, peak);
    if Forward(spans) {
      NothingRunsBackward(spans);
    }
  }

  // --- why the scan is the maximum -------------------------------------------------------------

  /** The sum of the deltas of the edges at or before `t`, in any order. */
  ghost function Balance(edges: seq<Edge>, t: real): int {
    if edges == [] then 0 else (if edges[0].at <= t then edges[0].delta else 0) + Balance(edges[1..], t)
  }

  lemma {:induction false} BalanceOfConcat(a: seq<Edge>, b: seq<Edge>, t: real)
    ensures Balance(a + b, t) == Balance(a, t) + Balance(b, t)
  {
    if a == [] {
      assert a + b == b;
    } else {
      assert (a + b)[1..] == a[1..] + b;
      BalanceOfConcat(a[1..], b, t);
    }
  }

  lemma {:induction false} BalanceOfInsert(x: Edge, s: seq<Edge>, t: real)
    ensures Balance(Insert(EdgeLeq, x, s), t) == Balance([x], t) + Balance(s, t)
  {
    if s == [] {
    } else if EdgeLeq(x, s[0]) {
      assert ([x] + s)[1..] == s;
    } else {
      var rest := Insert(EdgeLeq, x, s[1..]);
      assert ([s[0]] + rest)[1..] == rest;
      BalanceOfInsert(x, s[1..], t);
    }
  }

  lemma {:induction false} BalanceOfSort(s: seq<Edge>, t: real)
    ensures Balance(Sort(EdgeLeq, s), t) == Balance(s, t)
  {
    if s == [] {
    } else {
      BalanceOfSort(s[1..], t);
      BalanceOfInsert(s[0], Sort(EdgeLeq, s[1..]), t);
    }
  }

  lemma {:induction false} BalanceCounts(spans: seq<Span>, t: real)
    ensures Balance(Openings(spans), t) + Balance(Closings(spans), t) == Counted(spans, t)
  {
    if spans == [] {
    } else {
      BalanceCounts(spans[1..], t);
    }
  }

  lemma BalanceOfEdges(spans: seq<Span>, t: real)
    ensures Balance(EdgesInOrder(spans), t) == Counted(spans, t)
  {
    BalanceOfSort(Openings(spans) + Closings(spans), t);
    BalanceOfConcat(Openings(spans), Closings(spans), t);
    BalanceCounts(spans, t);
  }

  lemma {:induction false} BalanceIsRunning(edges: seq<Edge>, cut: nat, t: real)
    requires cut <= |edges|
    requires forall j :: 0 <= j < cut ==> edges[j].at <= t
    requires forall j :: cut <= j < |edges| ==> t < edges[j].at
    ensures Balance(edges, t) == Running(edges[..cut])
  {
    if edges == [] {
    } else {
      var last := |edges| - 1;
      assert edges == edges[..last] + [edges[last]];
      BalanceOfConcat(edges[..last], [edges[last]], t);
      if cut == |edges| {
        assert edges[..cut] == edges;
        BalanceIsRunning(edges[..last], last, t);
        assert edges[..last][..last] == edges[..last];
      } else {
        BalanceIsRunning(edges[..last], cut, t);
        assert edges[..last][..cut] == edges[..cut];
      }
    }
  }

  /** Where instant `t` cuts the sorted edges. */
  lemma CutAt(edges: seq<Edge>, t: real) returns (cut: nat)
    requires SortedBy(EdgeLeq, edges)
    ensures cut <= |edges|
    ensures forall j :: 0 <= j < cut ==> edges[j].at <= t
    ensures forall j :: cut <= j < |edges| ==> t < edges[j].at
  {
    cut := 0;
    while cut < |edges| && edges[cut].at <= t
      invariant cut <= |edges|
      invariant forall j :: 0 <= j < cut ==> edges[j].at <= t
    {
      cut := cut + 1;
    }
    if cut < |edges| {
      forall j | cut <= j < |edges| ensures t < edges[j].at {
        assert j == cut || EdgeLeq(edges[cut], edges[j]);
      }
    }
  }

  lemma EdgesAreUnits(spans: seq<Span>)
    ensures forall e :: e in Openings(spans) ==> e.delta == 1
    ensures forall e :: e in Closings(spans) ==> e.delta == -1
    ensures forall e :: e in EdgesInOrder(spans) ==> e.delta == 1 || e.delta == -1
  {
    SortKeepsMembers(EdgeLeq, Openings(spans) + Closings(spans));
  }

  /** Between two prefixes that differ by openings only, the running count can only grow. */
  lemma {:induction false} OpeningsOnlyGrow(edges: seq<Edge>, i: nat, j: nat)
    requires i <= j <= |edges|
    requires forall k :: i <= k < j ==> edges[k].delta == 1
    ensures Running(edges[..i]) <= Running(edges[..j])
    decreases j - i
  {
    if i < j {
      assert edges[..j][..j - 1] == edges[..j - 1];
      OpeningsOnlyGrow(edges, i, j - 1);
    }
  }

  /** No count the scan passes through exceeds the number open at some real instant. */
  lemma {:induction false} ScanNeverOvershoots(spans: seq<Span>, i: nat) returns (t: real)
    requires i <= |EdgesInOrder(spans)|
    requires SortedBy(EdgeLeq, EdgesInOrder(spans))
    ensures Running(EdgesInOrder(spans)[..i]) <= Counted(spans, t)
  {
    var edges := EdgesInOrder(spans);
    if i == 0 {
      t := if edges == [] then 0.0 else edges[0].at - 1.0;
      forall j | 0 <= j < |edges| ensures t < edges[j].at {
        assert j == 0 || EdgeLeq(edges[0], edges[j]);
      }
      BalanceIsRunning(edges, 0, t);
      BalanceOfEdges(spans, t);
    } else {
      EdgesAreUnits(spans);
      assert edges[i - 1] in edges;
      assert edges[..i][..i - 1] == edges[..i - 1];
      if edges[i - 1].delta == -1 {
        t := ScanNeverOvershoots(spans, i - 1);
      } else {
        t := edges[i - 1].at;
        var cut := CutAt(edges, t);
        assert i <= cut;
        forall k | i <= k < cut ensures edges[k].delta == 1 {
          assert EdgeLeq(edges[i - 1], edges[k]) && edges[k] in edges;
        }
        OpeningsOnlyGrow(edges, i, cut);
        BalanceIsRunning(edges, cut, t);
        BalanceOfEdges(spans, t);
      }
    }
  }

  lemma ScanFindsPeak(spans: seq<Span>, peak: int, best: nat)
    requires best <= |EdgesInOrder(spans)| && peak == Running(EdgesInOrder(spans)[..best])
    requires forall i :: 0 <= i <= |EdgesInOrder(spans)| ==> Running(EdgesInOrder(spans)[..i]) <= peak
    ensures IsPeak(spans, peak)
  {
    var edges := EdgesInOrder(spans);
    SortSorts(EdgeLeq, Openings(spans) + Closings(spans));
    forall t ensures Counted(spans, t) <= peak {
      var cut := CutAt(edges, t);
      BalanceIsRunning(edges, cut, t);
      BalanceOfEdges(spans, t);
    }
    var t := ScanNeverOvershoots(spans, best);
  }

  lemma {:induction false} NothingRunsBackward(spans: seq<Span>)
    requires Forward(spans)
    ensures forall t :: BackwardAt(spans, t) == 0
    ensures forall t :: Counted(spans, t) == OpenAt(spans, t)
  {
    if spans == [] {
    } else {
      assert spans[0] in spans;
      NothingRunsBackward(spans[1..]);
    }
  }

  /** What the scan answers is the maximum overlap exactly when some busiest instant is clear. */
  lemma PeakIsExactWhenClear(spans: seq<Span>, peak: int)
    requires IsPeak(spans, peak)
    ensures IsPeakOverlap(spans, peak) <==> BusiestIsClear(spans)
  {
    hide OpenAt, BackwardAt;
    var at :| Counted(spans, at) == peak;
    if IsPeakOverlap(spans, peak) {
      assert OpenAt(spans, at) <= peak;
      var t :| OpenAt(spans, t) == peak;
      assert Busiest(spans, at);
    }
    if BusiestIsClear(spans) {
      var t :| Busiest(spans, t) && BackwardAt(spans, t) == 0;
      assert Counted(spans, t) <= peak && OpenAt(spans, at) <= OpenAt(spans, t);
    }
  }

  // --- the answer does not depend on how the list was built --------------------------------------

  lemma {:induction false} OpenAtOfConcat(a: seq<Span>, b: seq<Span>, t: real)
    ensures OpenAt(a + b, t) == OpenAt(a, t) + OpenAt(b, t)
  {
    if a == [] {
      assert a + b == b;
    } else {
      assert (a + b)[1..] == a[1..] + b;
      OpenAtOfConcat(a[1..], b, t);
    }
  }

  /** The first of `a` somewhere in `b`, a permutation of it, and what is left of `b` around it. */
  lemma FirstElsewhere(a: seq<Span>, b: seq<Span>) returns (before: seq<Span>, after: seq<Span>)
    requires a != [] && multiset(a) == multiset(b)
    ensures b == before + ([a[0]] + after)
    ensures multiset(a[1..]) == multiset(before + after)
  {
    assert a[0] in multiset(b);
    var k :| 0 <= k < |b| && b[k] == a[0];
    before, after := b[..k], b[k + 1..];
    assert b == before + ([b[k]] + after);
    assert a == [a[0]] + a[1..];
    assert multiset(before + after) == multiset(b) - multiset{b[k]};
    assert multiset(a[1..]) == multiset(a) - multiset{a[0]};
  }

  lemma {:induction false} OpenAtOfPermutation(a: seq<Span>, b: seq<Span>, t: real)
    requires multiset(a) == multiset(b)
    ensures OpenAt(a, t) == OpenAt(b, t)
  {
    if a == [] {
      assert |multiset(b)| == 0;
    } else {
      hide OpenAt;
      var before, after := FirstElsewhere(a, b);
      assert a == [a[0]] + a[1..];
      OpenAtOfPermutation(a[1..], before + after, t);
      OpenAtOfConcat([a[0]], a[1..], t);
      OpenAtOfConcat(before, [a[0]] + after, t);
      OpenAtOfConcat([a[0]], after, t);
      OpenAtOfConcat(before, after, t);
    }
  }

  /** Listing the same spans in another order gives the same peak. */
  lemma PeakIgnoresOrder(a: seq<Span>, b: seq<Span>, peak: int, other: int)
    requires multiset(a) == multiset(b)
    requires IsPeakOverlap(a, peak) && IsPeakOverlap(b, other)
    ensures peak == other
  {
    forall t ensures OpenAt(a, t) == OpenAt(b, t) {
      OpenAtOfPermutation(a, b, t);
    }
    var t :| OpenAt(a, t) == peak;
    var u :| OpenAt(b, u) == other;
    assert OpenAt(b, t) <= other && OpenAt(a, u) <= peak;
  }

  /** One failing list: a span that runs backwards hides another one, and the scan answers 0. */
  lemma BackwardSpanHidesAnother(peak: int)
    requires IsPeak([Span(1.0, 0.0), Span(0.0, 1.0)], peak)
    ensures OpenAt([Span(1.0, 0.0), Span(0.0, 1.0)], 0.0) == 1
    ensures peak == 0
  {
    var spans := [Span(1.0, 0.0), Span(0.0, 1.0)];
    assert spans[1..] == [Span(0.0, 1.0)];
    assert forall t :: OpenAt(spans[1..], t) == if 0.0 <= t < 1.0 then 1 else 0;
    assert spans[1..][1..] == [];
    forall t ensures Counted(spans, t) == 0 {
      assert OpenAt(spans, t) == OpenAt(spans[1..], t);
      assert BackwardAt(spans[1..], t) == 0;
      assert BackwardAt(spans, t) == if 0.0 <= t < 1.0 then 1 else 0;
    }
    assert Counted(spans, 0.0) == 0;
  }
}
