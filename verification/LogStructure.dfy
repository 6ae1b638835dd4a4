/** Nested values: lists stay lists, mappings stay mappings, and every leaf and key is a cut scalar. */
module LogStructure {
  import opened LogFields

  datatype Value = Scalar(leaf: Leaf) | ListOf(items: seq<Value>) | MapOf(pairs: seq<Pair>)

  /** One entry of a mapping, in insertion order. */
  datatype Pair = Pair(key: Leaf, value: Value)

  datatype Field = Plain(rendering: Text) | Cut(text: Text) | Fields(items: seq<Field>) | Dict(entries: seq<Entry>)

  datatype Entry = Entry(key: Text, field: Field)

  /** A dictionary assignment: the key keeps its first place and takes the last value. */
  function Put(entries: seq<Entry>, e: Entry): (r: seq<Entry>)
    ensures e in r
  {
    if entries == [] then [e]
    else if entries[0].key == e.key then
      assert ([e] + entries[1..])[0] == e;
      [e] + entries[1..]
    else
      var rest := Put(entries[1..], e);
      assert forall x :: x in rest ==> x in [entries[0]] + rest;
      [entries[0]] + rest
  }

  function PutAll(entries: seq<Entry>, more: seq<Entry>): seq<Entry>
    decreases |more|
  {
    if more == [] then entries else PutAll(Put(entries, more[0]), more[1..])
  }

  function Structured(v: Value, printable: Code -> bool): Field
    decreases v, 1
  {
    match v
    case Scalar(leaf) => if leaf.Number? then Plain(leaf.rendering) else Cut(ScalarText(leaf, printable))
    case ListOf(items) => Fields(StructuredAll(items, printable))
    case MapOf(pairs) => Dict(PutAll([], StructuredPairs(pairs, printable)))
  }

  function StructuredAll(items: seq<Value>, printable: Code -> bool): (r: seq<Field>)
    ensures |r| == |items|
    decreases items, 0
  {
    if items == [] then [] else [Structured(items[0], printable)] + StructuredAll(items[1..], printable)
  }

  function StructuredPairs(pairs: seq<Pair>, printable: Code -> bool): (r: seq<Entry>)
    ensures |r| == |pairs|
    decreases pairs, 0
  {
    if pairs == [] then [] else [StructuredPair(pairs[0], printable)] + StructuredPairs(pairs[1..], printable)
  }

  function StructuredPair(p: Pair, printable: Code -> bool): Entry
    decreases p, 0
  {
    Entry(ScalarText(p.key, printable), Structured(p.value, printable))
  }

  // --- every text in a field ------------------------------------------------------------------------------

  /**
   The text of one leaf: cut from a text that reads back to what the leaf came from, never longer than its head
   cut, and free of controls.
   */
  ghost predicate TextOf(t: Text, leaf: Leaf, printable: Code -> bool) {
    && t == ScalarText(leaf, printable)
    && (SourceOf(leaf).Some? ==> exists body :: Unescape(body) == SourceOf(leaf) && t == Capped(body))
    && (SourceOf(leaf).Some? && |Unquoted(Rendered(leaf, printable))| <= 96 ==> Unescape(t) == SourceOf(leaf))
    && |t| <= |HeadCut(Unquoted(Rendered(leaf, printable)))|
    && ControlFree(t)
  }

  /** No later pair of a mapping renders to the same key. */
  ghost predicate LastOfItsKey(pairs: seq<Pair>, i: nat, printable: Code -> bool) {
    && i < |pairs|
    && forall j :: i < j < |pairs| ==> ScalarText(pairs[j].key, printable) != ScalarText(pairs[i].key, printable)
  }

  /**
   A field mirrors a value: a list item by item, a mapping entry by the last pair with that rendered key, and
   every text leaf and key is the text of its own source leaf.
   */
  ghost predicate Mirrors(f: Field, v: Value, printable: Code -> bool)
    decreases v
  {
    match v
    case Scalar(leaf) => if leaf.Number? then f == Plain(leaf.rendering) else f.Cut? && TextOf(f.text, leaf, printable)
    case ListOf(items) =>
      f.Fields? && |f.items| == |items| && forall i :: 0 <= i < |items| ==> Mirrors(f.items[i], items[i], printable)
    case MapOf(pairs) =>
      f.Dict? && forall e :: e in f.entries ==>
        exists i :: 0 <= i < |pairs| && LastOfItsKey(pairs, i, printable)
                    && TextOf(e.key, pairs[i].key, printable) && Mirrors(e.field, pairs[i].value, printable)
  }

  /** Every object in the value that renders itself, renders itself without control characters. */
  ghost predicate Clean(v: Value)
    decreases v
  {
    match v
    case Scalar(leaf) => leaf.Number? || CleanLeaf(leaf)
    case ListOf(items) => forall i :: 0 <= i < |items| ==> Clean(items[i])
    case MapOf(pairs) => forall i :: 0 <= i < |pairs| ==> CleanLeaf(pairs[i].key) && Clean(pairs[i].value)
  }

  lemma ScalarIsItsText(leaf: Leaf, printable: Code -> bool)
    requires CleanLeaf(leaf) && NeverPrintsControls(printable)
    ensures TextOf(ScalarText(leaf, printable), leaf, printable)
  {
    ScalarIsControlFree(leaf, printable);
    CutIsNeverLonger(Unquoted(Rendered(leaf, printable)));
    if SourceOf(leaf).Some? {
      FieldComesFromItsSource(leaf, printable);
    }
  }

  lemma {:induction false} StructuredAllAt(items: seq<Value>, printable: Code -> bool, i: nat)
    requires i < |items|
    ensures StructuredAll(items, printable)[i] == Structured(items[i], printable)
  {
    hide Structured;
    if i > 0 {
      assert items[1..][i - 1] == items[i];
      StructuredAllAt(items[1..], printable, i - 1);
    }
  }

  lemma {:induction false} StructuredPairsAt(pairs: seq<Pair>, printable: Code -> bool, i: nat)
    requires i < |pairs|
    ensures StructuredPairs(pairs, printable)[i] == StructuredPair(pairs[i], printable)
  {
    hide StructuredPair;
    if i > 0 {
      assert pairs[1..][i - 1] == pairs[i];
      StructuredPairsAt(pairs[1..], printable, i - 1);
    }
  }

  /** However deeply it is nested, what a value turns into mirrors it. */
  lemma {:induction false} StructuredMirrors(v: Value, printable: Code -> bool)
    requires Clean(v) && NeverPrintsControls(printable)
    ensures Mirrors(Structured(v, printable), v, printable)
    decreases v
  {
    hide TextOf;
    match v {
      case Scalar(leaf) =>
        if !leaf.Number? {
          ScalarIsItsText(leaf, printable);
        }
      case ListOf(items) =>
        forall i | 0 <= i < |items| ensures Mirrors(StructuredAll(items, printable)[i], items[i], printable) {
          StructuredAllAt(items, printable, i);
          StructuredMirrors(items[i], printable);
        }
      case MapOf(pairs) =>
        var all := StructuredPairs(pairs, printable);
        forall e | e in PutAll([], all)
          ensures exists i :: 0 <= i < |pairs| && LastOfItsKey(pairs, i, printable)
                              && TextOf(e.key, pairs[i].key, printable) && Mirrors(e.field, pairs[i].value, printable)
        {
          var i := EntryHasItsPair(pairs, e, printable);
          ScalarIsItsText(pairs[i].key, printable);
          StructuredMirrors(pairs[i].value, printable);
        }
    }
  }

  /** The pair an entry of a structured mapping comes from. */
  lemma EntryHasItsPair(pairs: seq<Pair>, e: Entry, printable: Code -> bool) returns (i: nat)
    requires e in PutAll([], StructuredPairs(pairs, printable))
    ensures LastOfItsKey(pairs, i, printable) && e == StructuredPair(pairs[i], printable)
  {
    hide ScalarText, Structured;
    var all := StructuredPairs(pairs, printable);
    PutAllKeepsTheLast([], all);
    i :| 0 <= i < |all| && IsLast(all, i) && all[i] == e;
    StructuredPairsAt(pairs, printable, i);
    forall j | i < j < |pairs| ensures ScalarText(pairs[j].key, printable) != ScalarText(pairs[i].key, printable) {
      StructuredPairsAt(pairs, printable, j);
    }
  }

  // --- a mapping keeps one entry a rendered key --------------------------------------------------------------

  function KeysOf(entries: seq<Entry>): set<Text> {
    set e | e in entries :: e.key
  }

  ghost predicate DistinctKeys(entries: seq<Entry>) {
    forall i, j :: 0 <= i < j < |entries| ==> entries[i].key != entries[j].key
  }

  lemma {:induction false} PutAddsItsKey(entries: seq<Entry>, e: Entry)
    requires DistinctKeys(entries)
    ensures DistinctKeys(Put(entries, e))
    ensures KeysOf(Put(entries, e)) == KeysOf(entries) + {e.key}
    ensures |Put(entries, e)| == |entries| + if e.key in KeysOf(entries) then 0 else 1
  {
    if entries == [] {
      KeysOfCons(e, []);
      assert [e] + [] == [e];
    } else {
      var head, tail := entries[0], entries[1..];
      assert entries == [head] + tail;
      KeysOfCons(head, tail);
      KeyIsRepeated(head, tail);
      if head.key == e.key {
        KeysOfCons(e, tail);
        KeyIsRepeated(e, tail);
      } else {
        PutAddsItsKey(tail, e);
        KeysOfCons(head, Put(tail, e));
        KeyIsRepeated(head, Put(tail, e));
      }
    }
  }

  lemma KeysOfCons(e: Entry, entries: seq<Entry>)
    ensures KeysOf([e] + entries) == {e.key} + KeysOf(entries)
  {
    forall k | k in {e.key} + KeysOf(entries) ensures k in KeysOf([e] + entries) {
      if k == e.key {
        assert e in [e] + entries;
      } else {
        var x :| x in entries && x.key == k;
        assert x in [e] + entries;
      }
    }
  }

  lemma {:induction false} PutAllAddsKeys(entries: seq<Entry>, more: seq<Entry>)
    requires DistinctKeys(entries)
    ensures DistinctKeys(PutAll(entries, more))
    ensures KeysOf(PutAll(entries, more)) == KeysOf(entries) + KeysOf(more)
    ensures |PutAll(entries, more)| <= |entries| + |more|
    ensures |PutAll(entries, more)| == |entries| + |more|
            <==> DistinctKeys(more) && KeysOf(entries) !! KeysOf(more)
    decreases |more|
  {
    if more == [] {
    } else {
      var e, rest := more[0], more[1..];
      assert more == [e] + rest;
      KeysOfCons(e, rest);
      PutAddsItsKey(entries, e);
      PutAllAddsKeys(Put(entries, e), rest);
      KeyIsRepeated(e, rest);
    }
  }

  lemma KeyIsRepeated(e: Entry, rest: seq<Entry>)
    ensures DistinctKeys([e] + rest) <==> DistinctKeys(rest) && e.key !in KeysOf(rest)
  {
    var all := [e] + rest;
    if DistinctKeys(all) {
      forall i, j | 0 <= i < j < |rest| ensures rest[i].key != rest[j].key {
        assert all[i + 1] == rest[i] && all[j + 1] == rest[j];
      }
      forall x | x in rest ensures x.key != e.key {
        var i :| 0 <= i < |rest| && rest[i] == x;
        assert all[i + 1] == x && all[0] == e;
      }
    } else {
      var i, j :| 0 <= i < j < |all| && all[i].key == all[j].key;
      assert all[j] == rest[j - 1];
      if i == 0 {
        assert rest[j - 1] in rest;
      } else {
        assert all[i] == rest[i - 1];
      }
    }
  }

  function KeySequence(entries: seq<Entry>): seq<Text> {
    seq(|entries|, i requires 0 <= i < |entries| => entries[i].key)
  }

  lemma {:induction false} PutKeepsPlaces(entries: seq<Entry>, e: Entry)
    ensures KeySequence(entries) <= KeySequence(Put(entries, e))
    ensures |Put(entries, e)| <= |entries| + 1
  {
    if entries != [] && entries[0].key != e.key {
      PutKeepsPlaces(entries[1..], e);
      var rest := Put(entries[1..], e);
      forall i | 0 <= i < |entries| ensures entries[i].key == Put(entries, e)[i].key {
        if i > 0 {
          assert KeySequence(entries[1..])[i - 1] == KeySequence(rest)[i - 1];
        }
      }
    }
  }

  /** A key keeps the place of its first assignment: later ones only add keys behind. */
  lemma {:induction false} PutAllKeepsPlaces(entries: seq<Entry>, more: seq<Entry>)
    ensures KeySequence(entries) <= KeySequence(PutAll(entries, more))
    decreases |more|
  {
    if more != [] {
      PutKeepsPlaces(entries, more[0]);
      PutAllKeepsPlaces(Put(entries, more[0]), more[1..]);
    }
  }

  ghost predicate KeysRenderApart(pairs: seq<Pair>, printable: Code -> bool) {
    DistinctKeys(StructuredPairs(pairs, printable))
  }

  /** A mapping stays whole exactly when no two of its keys render alike; it never gains an entry. */
  lemma MappingKeepsAnEntryPerRenderedKey(pairs: seq<Pair>, printable: Code -> bool)
    ensures var d := Structured(MapOf(pairs), printable);
            && d.Dict? && DistinctKeys(d.entries) && |d.entries| <= |pairs|
            && KeysOf(d.entries) == KeysOf(StructuredPairs(pairs, printable))
            && (|d.entries| == |pairs| <==> KeysRenderApart(pairs, printable))
  {
    PutAllAddsKeys([], StructuredPairs(pairs, printable));
  }

  ghost predicate IsLast(entries: seq<Entry>, i: nat) {
    i < |entries| && forall j :: i < j < |entries| ==> entries[j].key != entries[i].key
  }

  lemma {:induction false} PutReplaces(entries: seq<Entry>, e: Entry)
    requires DistinctKeys(entries)
    ensures forall x :: x in Put(entries, e) ==> x == e || (x in entries && x.key != e.key)
  {
    if entries == [] {
    } else {
      var head, tail := entries[0], entries[1..];
      assert entries == [head] + tail;
      KeyIsRepeated(head, tail);
      PutReplaces(tail, e);
    }
  }

  /** Of the assignments to one key, the last is the one a dictionary keeps. */
  lemma {:induction false} PutAllKeepsTheLast(entries: seq<Entry>, more: seq<Entry>)
    requires DistinctKeys(entries)
    ensures forall e :: e in PutAll(entries, more) ==>
              || (e in entries && e.key !in KeysOf(more))
              || exists i :: 0 <= i < |more| && IsLast(more, i) && more[i] == e
    decreases |more|
  {
    if more != [] {
      var first, rest := more[0], more[1..];
      assert more == [first] + rest;
      KeysOfCons(first, rest);
      PutAddsItsKey(entries, first);
      PutReplaces(entries, first);
      PutAllKeepsTheLast(Put(entries, first), rest);
      forall e | e in PutAll(entries, more) && !(e in entries && e.key !in KeysOf(more))
        ensures exists i :: 0 <= i < |more| && IsLast(more, i) && more[i] == e
      {
        if e in Put(entries, first) && e.key !in KeysOf(rest) {
          assert e == first && IsLast(more, 0);
        } else {
          var i :| 0 <= i < |rest| && IsLast(rest, i) && rest[i] == e;
          forall j | i + 1 < j < |more| ensures more[j].key != e.key {
            assert more[j] == rest[j - 1];
          }
          assert IsLast(more, i + 1);
        }
      }
    }
  }

  predicate IsAscii(t: Text) {
    forall c :: c in t ==> c < 0x80
  }

  lemma {:induction false} AsciiEscapesAlike(t: Text, quote: Code, printable: Code -> bool)
    requires IsAscii(t) && NeverPrintsControls(printable)
    ensures EscapeAll(t, quote, printable) == EscapeAll(t, quote, NothingAboveAscii)
  {
    if t == [] {
    } else {
      assert t[0] in t && forall c :: c in t[1..] ==> c in t;
      assert Escape(t[0], quote, printable) == Escape(t[0], quote, NothingAboveAscii);
      AsciiEscapesAlike(t[1..], quote, printable);
    }
  }

  /** Keys that render alike exist: an ASCII text and the same bytes are one key, and one entry is lost. */
  lemma TextAndBytesKeysCollide(t: Text, first: Value, second: Value, printable: Code -> bool)
    requires IsAscii(t) && NeverPrintsControls(printable)
    ensures ScalarText(Str(t), printable) == ScalarText(Bytes(t), printable)
    ensures Structured(MapOf([Pair(Str(t), first), Pair(Bytes(t), second)]), printable)
            == Dict([Entry(ScalarText(Str(t), printable), Structured(second, printable))])
  {
    hide ScalarText;
    TextAndBytesRenderAlike(t, printable);
    var k := ScalarText(Str(t), printable);
    var a, b := Pair(Str(t), first), Pair(Bytes(t), second);
    var x, y := Entry(k, Structured(first, printable)), Entry(k, Structured(second, printable));
    assert [a, b][1..] == [b] && [b][1..] == [];
    assert StructuredPairs([b], printable) == [y];
    assert StructuredPairs([a, b], printable) == [x] + [y];
    assert ([x] + [y])[1..] == [y] && [y][1..] == [];
    assert Put([], x) == [x];
    assert Put([x], y) == [y] + [x][1..] == [y];
    assert PutAll([y], []) == [y];
    assert PutAll([x], [y]) == PutAll(Put([x], y), [y][1..]);
    assert PutAll([], [x] + [y]) == PutAll(Put([], x), ([x] + [y])[1..]);
  }

  lemma TextAndBytesRenderAlike(t: Text, printable: Code -> bool)
    requires IsAscii(t) && NeverPrintsControls(printable)
    ensures ScalarText(Str(t), printable) == ScalarText(Bytes(t), printable)
  {
    hide Capped;
    UnquotedIsTheBody(t, printable);
    AsciiEscapesAlike(t, QuoteFor(t), printable);
  }
}
