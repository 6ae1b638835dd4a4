/**
 The scheduled ingest of examples/incremental_ingest.py: the watermark a job carries from run to
 run, and one sweep of the drop directory. Times are whole seconds, as filexfer v3 sends them.
 */
module Ingest {
  import opened Wrappers
  import opened Sorting

  /** One line of a listing. `modified` is absent when the server sent no ACMODTIME. */
  datatype Entry = Entry(name: string, modified: Option<int>, isFile: bool)

  /** A timestamp and the names already taken at it: what the stored file holds. */
  datatype Mark = Mark(takenAt: Option<int>, names: set<string>)

  const NOTHING_TAKEN := Mark(None, {})

  /** What a job starts from, given what the last write left on disk. */
  function Loaded(disk: Option<Mark>): Mark {
    if disk.Some? then disk.value else NOTHING_TAKEN
  }

  predicate Wants(m: Mark, e: Entry) {
    || e.modified.None?
    || m.takenAt.None?
    || e.modified.value > m.takenAt.value
    || (e.modified == m.takenAt && e.name !in m.names)
  }

  function Stamps(taken: seq<Entry>): (r: seq<int>)
    ensures forall t :: t in r <==> exists e :: e in taken && e.modified == Some(t)
  {
    if taken == [] then []
    else
      assert taken == [taken[0]] + taken[1..];
      (if taken[0].modified.Some? then [taken[0].modified.value] else []) + Stamps(taken[1..])
  }

  function Largest(s: seq<int>): (m: int)
    requires s != []
    ensures m in s && forall x :: x in s ==> x <= m
  {
    if |s| == 1 then s[0]
    else
      var rest := Largest(s[1..]);
      assert s == [s[0]] + s[1..];
      if s[0] >= rest then s[0] else rest
  }

  function NamesAt(taken: seq<Entry>, t: int): set<string> {
    set e | e in taken && e.modified == Some(t) :: e.name
  }

  /** Where a mark moves after taking `taken`: to the largest stamp seen, never backwards. */
  function Advanced(m: Mark, taken: seq<Entry>): Mark {
    var stamps := Stamps(taken);
    if stamps == [] then m
    else
      var newest := Largest(stamps);
      if m.takenAt.Some? && newest < m.takenAt.value then m
      else Mark(Some(newest), (if m.takenAt == Some(newest) then m.names else {}) + NamesAt(taken, newest))
  }

  /** Whether the file is written: something stamped was taken, at or after the mark. */
  predicate Rewrites(m: Mark, taken: seq<Entry>) {
    var stamps := Stamps(taken);
    stamps != [] && (m.takenAt.Some? ==> m.takenAt.value <= Largest(stamps))
  }

  predicate EndsWith(name: string, suffix: string) {
    |suffix| <= |name| && name[|name| - |suffix|..] == suffix
  }

  predicate Matches(e: Entry) {
    e.isFile && EndsWith(e.name, ".csv")
  }

  /** The entries of a listing one sweep takes, in the listing's order. */
  function Selected(m: Mark, listing: seq<Entry>): (r: seq<Entry>)
    ensures forall e :: e in r <==> e in listing && Matches(e) && Wants(m, e)
  {
    if listing == [] then []
    else
      assert listing == [listing[0]] + listing[1..];
      (if Matches(listing[0]) && Wants(m, listing[0]) then [listing[0]] else []) + Selected(m, listing[1..])
  }

  lemma {:induction false} SelectedOfConcat(m: Mark, a: seq<Entry>, b: seq<Entry>)
    ensures Selected(m, a + b) == Selected(m, a) + Selected(m, b)
  {
    if a == [] {
      assert a + b == b;
    } else {
      assert (a + b)[1..] == a[1..] + b;
      SelectedOfConcat(m, a[1..], b);
    }
  }

  lemma SelectedOfNone(m: Mark)
    ensures Selected(m, []) == []
  {
  }

  lemma SelectedOfOne(m: Mark, e: Entry)
    ensures Selected(m, [e]) == if Matches(e) && Wants(m, e) then [e] else []
  {
  }

  lemma SelectedGrows(m: Mark, listing: seq<Entry>, i: nat)
    requires i < |listing|
    ensures Selected(m, listing[..i + 1]) == Selected(m, listing[..i]) + Selected(m, [listing[i]])
  {
    assert listing[..i + 1] == listing[..i] + [listing[i]];
    SelectedOfConcat(m, listing[..i], [listing[i]]);
  }

  lemma SelectedPrefix(m: Mark, listing: seq<Entry>, i: nat)
    requires i <= |listing|
    ensures Selected(m, listing[..i]) <= Selected(m, listing)
  {
    assert listing == listing[..i] + listing[i..];
    SelectedOfConcat(m, listing[..i], listing[i..]);
  }

  predicate NameLeq(a: string, b: string) {
    a == [] || (b != [] && (a[0] < b[0] || (a[0] == b[0] && NameLeq(a[1..], b[1..]))))
  }

  function ByName(listing: seq<Entry>): seq<Entry> {
    Sort((a: Entry, b: Entry) => NameLeq(a.name, b.name), listing)
  }

  function NamesOf(entries: seq<Entry>): seq<string> {
    seq(|entries|, i requires 0 <= i < |entries| => entries[i].name)
  }

  // --- the names a sweep returns -------------------------------------------------------------------------

  /** What is taken is a plain file whose name ends in these four characters. */
  lemma MatchesIsACsvFile(e: Entry)
    ensures Matches(e) <==>
              && e.isFile && |e.name| >= 4
              && e.name[|e.name| - 4] == '.' && e.name[|e.name| - 3] == 'c'
              && e.name[|e.name| - 2] == 's' && e.name[|e.name| - 1] == 'v'
  {
    if |e.name| >= 4 {
      var tail := e.name[|e.name| - 4..];
      assert tail == [e.name[|e.name| - 4], e.name[|e.name| - 3], e.name[|e.name| - 2], e.name[|e.name| - 1]];
    }
  }

  /** The order of names: one is a prefix of the other, or the first difference decides. */
  lemma {:induction false} NameOrderIsLexicographic(a: string, b: string)
    ensures NameLeq(a, b) <==>
              a <= b || exists k :: 0 <= k < |a| && k < |b| && a[..k] == b[..k] && a[k] < b[k]
  {
    if a != [] && b != [] && a[0] == b[0] {
      NameOrderIsLexicographic(a[1..], b[1..]);
      if NameLeq(a[1..], b[1..]) && !(a[1..] <= b[1..]) {
        var k :| 0 <= k < |a[1..]| && k < |b[1..]| && a[1..][..k] == b[1..][..k] && a[1..][k] < b[1..][k];
        assert a[..k + 1] == [a[0]] + a[1..][..k] && b[..k + 1] == [b[0]] + b[1..][..k];
        assert a[k + 1] < b[k + 1];
      }
      if exists k :: 0 <= k < |a| && k < |b| && a[..k] == b[..k] && a[k] < b[k] {
        var k :| 0 <= k < |a| && k < |b| && a[..k] == b[..k] && a[k] < b[k];
        assert a[1..][..k - 1] == a[..k][1..] && b[1..][..k - 1] == b[..k][1..];
        assert a[1..][k - 1] < b[1..][k - 1];
      }
      if a[1..] <= b[1..] {
        assert a == [a[0]] + a[1..] && b == [b[0]] + b[1..];
      }
    } else if a != [] && b != [] && a[0] < b[0] {
      assert a[..0] == b[..0];
    } else if a != [] && b != [] {
      forall k | 0 < k < |a| && k < |b| ensures a[..k] != b[..k] {
        assert a[..k][0] == a[0] && b[..k][0] == b[0];
      }
    }
  }

  lemma {:induction false} NameOrderIsTotal(a: string, b: string, c: string)
    ensures NameLeq(a, b) || NameLeq(b, a)
    ensures NameLeq(a, b) && NameLeq(b, c) ==> NameLeq(a, c)
  {
    if a != [] && b != [] && c != [] {
      NameOrderIsTotal(a[1..], b[1..], c[1..]);
    } else if a != [] && b != [] {
      NameOrderIsTotal(a[1..], b[1..], []);
    }
  }

  ghost predicate Ascending(entries: seq<Entry>) {
    forall i, j :: 0 <= i < j < |entries| ==> NameLeq(entries[i].name, entries[j].name)
  }

  lemma {:induction false} SelectionAscends(m: Mark, ordered: seq<Entry>)
    requires Ascending(ordered)
    ensures Ascending(Selected(m, ordered))
  {
    hide NameLeq, Matches, Wants;
    if ordered != [] {
      SelectionAscends(m, ordered[1..]);
      forall e | e in Selected(m, ordered[1..]) ensures NameLeq(ordered[0].name, e.name) {
        var k :| 0 <= k < |ordered[1..]| && ordered[1..][k] == e;
        assert ordered[k + 1] == e;
      }
    }
  }

  /** A sweep takes exactly the wanted plain `.csv` files of its listing, in ascending order of their names. */
  lemma SweepTakesInNameOrder(m: Mark, listing: seq<Entry>)
    ensures Ascending(Selected(m, ByName(listing)))
    ensures forall e :: e in Selected(m, ByName(listing)) <==> e in listing && Matches(e) && Wants(m, e)
  {
    hide NameLeq;
    var leq := (a: Entry, b: Entry) => NameLeq(a.name, b.name);
    forall a: Entry, b: Entry, c: Entry
      ensures leq(a, b) || leq(b, a)
      ensures leq(a, b) && leq(b, c) ==> leq(a, c)
    {
      NameOrderIsTotal(a.name, b.name, c.name);
    }
    SortSorts(leq, listing);
    SortKeepsMembers(leq, listing);
    SelectionAscends(m, ByName(listing));
  }

  // --- the stateful half ---------------------------------------------------------------------------

  /** `disk` is the stored file, written whole and read back as written. */
  class Watermark {
    var takenAt: Option<int>
    var names: set<string>
    var disk: Option<Mark>

    ghost function View(): Mark
      reads this
    {
      Mark(takenAt, names)
    }

    constructor (stored: Option<Mark>)
      ensures disk == stored && View() == Loaded(stored)
    {
      takenAt, names, disk := None, {}, stored;
      if stored.Some? {
        takenAt, names := stored.value.takenAt, stored.value.names;
      }
    }

    method WantsEntry(e: Entry) returns (r: bool)
      ensures r == Wants(View(), e)
    {
      if e.modified.None? || takenAt.None? {
        return true;
      }
      if e.modified.value > takenAt.value {
        return true;
      }
      return e.modified == takenAt && e.name !in names;
    }

    method Advance(taken: seq<Entry>)
      modifies this
      ensures View() == Advanced(old(View()), taken)
      ensures disk == if Rewrites(old(View()), taken) then Some(View()) else old(disk)
    {
      var stamps := Stamps(taken);
      if stamps == [] {
        return;
      }
      var newest := Largest(stamps);
      if takenAt.Some? && newest < takenAt.value {
        return;
      }
      if takenAt != Some(newest) {
        names := {};
        takenAt := Some(newest);
      }
      names := names + NamesAt(taken, newest);
      disk := Some(Mark(takenAt, names));
    }

    /**
     One run of the loop. The transfer of an entry in `broken` raises, which ends the sweep with no names
     (`None`) and the mark untouched; `got` is what had been transferred by then.
     */
    method Sweep(listing: seq<Entry>, broken: set<Entry>) returns (r: Option<seq<string>>, ghost got: seq<Entry>)
      modifies this
      ensures var wanted := Selected(old(View()), ByName(listing));
              r.None? <==> exists e :: e in wanted && e in broken
      ensures r.Some? ==> got == Selected(old(View()), ByName(listing)) && Ascending(got)
      ensures r.Some? ==> |r.value| == |got| && forall i :: 0 <= i < |got| ==> r.value[i] == got[i].name
      ensures r.Some? ==> View() == Advanced(old(View()), got)
      ensures r.Some? ==> disk == if Rewrites(old(View()), got) then Some(View()) else old(disk)
      ensures r.None? ==>
                var wanted := Selected(old(View()), ByName(listing));
                && got < wanted && wanted[|got|] in broken && forall e :: e in got ==> e !in broken
      ensures r.None? ==> View() == old(View()) && disk == old(disk)
    {
      hide ByName, Selected, Matches, Advanced, Rewrites, Ascending;
      var ordered := ByName(listing);
      SelectedOfNone(View());
      SweepTakesInNameOrder(View(), listing);
      var taken: seq<Entry> := [];
      for i := 0 to |ordered|
        invariant View() == old(View()) && disk == old(disk)
        invariant taken == Selected(View(), ordered[..i])
        invariant forall e :: e in taken ==> e !in broken
      {
        var e := ordered[i];
        SelectedGrows(View(), ordered, i);
        SelectedOfOne(View(), e);
        if !Matches(e) {
          continue;
        }
        var wanted := WantsEntry(e);
        if !wanted {
          continue;
        }
        if e in broken {
          SelectedPrefix(View(), ordered, i + 1);
          return None, taken;
        }
        taken := taken + [e];
      }
      assert ordered[..|ordered|] == ordered;
      Advance(taken);
      return Some(NamesOf(taken)), taken;
    }
  }

  // --- one mark against the next ---------------------------------------------------------------------

  /** What an advanced mark wants, the mark it came from wanted too. */
  lemma WantsIsAntitone(m: Mark, taken: seq<Entry>, e: Entry)
    requires Wants(Advanced(m, taken), e)
    ensures Wants(m, e)
  {
  }

  /** A mark never moves back, and only ever to a stamp that was taken. */
  lemma MarksOnlyGrow(m: Mark, taken: seq<Entry>)
    ensures var a := Advanced(m, taken);
            && (m.takenAt.Some? ==> a.takenAt.Some? && m.takenAt.value <= a.takenAt.value)
            && (a.takenAt != m.takenAt ==> exists e :: e in taken && e.modified == a.takenAt)
            && (a.takenAt == m.takenAt ==> m.names <= a.names)
  {
    var stamps := Stamps(taken);
    if stamps != [] {
      assert Largest(stamps) in stamps;
    }
  }

  /** An advanced mark wants nothing stamped that was among what advanced it. */
  lemma TakenIsNotWanted(m: Mark, taken: seq<Entry>, e: Entry)
    requires e in taken && e.modified.Some?
    requires Wants(m, e)
    ensures !Wants(Advanced(m, taken), e)
  {
    var stamps := Stamps(taken);
    assert e.modified.value in stamps;
    if e.modified.value == Largest(stamps) {
      assert e.name in NamesAt(taken, Largest(stamps));
    }
  }

  /** Nor does it want anything older than something that advanced it. */
  lemma OlderThanTakenIsNotWanted(m: Mark, taken: seq<Entry>, e: Entry)
    requires e.modified.Some?
    requires exists x :: x in taken && x.modified.Some? && e.modified.value < x.modified.value
    ensures !Wants(Advanced(m, taken), e)
  {
    var x :| x in taken && x.modified.Some? && e.modified.value < x.modified.value;
    assert x.modified.value in Stamps(taken);
  }
}
