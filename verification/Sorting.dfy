/** Python's `sorted`: a stable sort, which three of the modelled programs call. */
module Sorting {

  ghost predicate TotalOrder<T(!new)>(leq: (T, T) -> bool) {
    && (forall x, y :: leq(x, y) || leq(y, x))
    && (forall x, y, z :: leq(x, y) && leq(y, z) ==> leq(x, z))
  }

  ghost predicate SortedBy<T>(leq: (T, T) -> bool, s: seq<T>) {
    forall i, j :: 0 <= i < j < |s| ==> leq(s[i], s[j])
  }

  function Insert<T>(leq: (T, T) -> bool, x: T, s: seq<T>): (r: seq<T>)
    ensures multiset(r) == multiset(s) + multiset{x}
    ensures |r| == |s| + 1
  {
    if s == [] then [x]
    else if leq(x, s[0]) then [x] + s
    else
      assert s == [s[0]] + s[1..];
      [s[0]] + Insert(leq, x, s[1..])
  }

  function Sort<T>(leq: (T, T) -> bool, s: seq<T>): (r: seq<T>)
    ensures multiset(r) == multiset(s)
    ensures |r| == |s|
  {
    if s == [] then []
    else
      assert s == [s[0]] + s[1..];
      Insert(leq, s[0], Sort(leq, s[1..]))
  }

  lemma {:induction false} InsertSorted<T(!new)>(leq: (T, T) -> bool, x: T, s: seq<T>)
    requires TotalOrder(leq) && SortedBy(leq, s)
    ensures SortedBy(leq, Insert(leq, x, s))
  {
    if s == [] || leq(x, s[0]) {
    } else {
      var r := Insert(leq, x, s[1..]);
      InsertSorted(leq, x, s[1..]);
      forall j | 0 <= j < |r| ensures leq(s[0], r[j]) {
        assert r[j] in multiset(r);
        assert r[j] in s[1..] || r[j] == x;
      }
    }
  }

  /** `sorted` sorts; that it permutes is its own postcondition. */
  lemma {:induction false} SortSorts<T(!new)>(leq: (T, T) -> bool, s: seq<T>)
    requires TotalOrder(leq)
    ensures SortedBy(leq, Sort(leq, s))
  {
    if s == [] {
    } else {
      SortSorts(leq, s[1..]);
      InsertSorted(leq, s[0], Sort(leq, s[1..]));
    }
  }

  lemma SortKeepsMembers<T>(leq: (T, T) -> bool, s: seq<T>)
    ensures forall x :: x in s <==> x in Sort(leq, s)
  {
    forall x ensures x in s <==> x in Sort(leq, s) {
      assert x in s <==> x in multiset(s);
      assert x in Sort(leq, s) <==> x in multiset(Sort(leq, s));
    }
  }
}
