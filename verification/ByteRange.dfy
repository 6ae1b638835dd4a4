/** The slice arithmetic of src/gantry_sftp/fsspec.py, held against Python's own slicing. */
module ByteRange {
  import opened Wrappers

  const UNBOUNDED: int := 0x100_0000_0000   // 1 << 40

  // --- Python's slicing, for reference -------------------------------------------------------------------

  function Min(a: int, b: int): int { if a <= b then a else b }

  function Max(a: int, b: int): int { if a >= b then a else b }

  /** Where a slice bound falls in a sequence of length `n`. */
  function Place(bound: int, n: nat): nat {
    if bound < 0 then Max(0, n + bound) else Min(bound, n)
  }

  /** `data[start:end]`. */
  function Slice<T>(data: seq<T>, start: Option<int>, end: Option<int>): seq<T> {
    var lo := if start.None? then 0 else Place(start.value, |data|);
    var hi := if end.None? then |data| else Place(end.value, |data|);
    if lo < hi then data[lo..hi] else []
  }

  // --- the adapter ------------------------------------------------------------------------------------------

  predicate MeasuresBack(start: Option<int>, end: Option<int>) {
    (start.Some? && start.value < 0) || (end.Some? && end.value < 0)
  }

  function Absolute(bound: int, size: Option<nat>): (r: int)
    ensures r >= 0
  {
    if bound >= 0 then bound else Max(0, (if size.Some? then size.value else 0) + bound)
  }

  /** The offset to read from and how much to ask for; `None` is the `CapabilityError`. */
  function RangeOf(size: Option<nat>, start: Option<int>, end: Option<int>): (r: Option<(nat, nat)>)
    ensures r.None? <==> size.None? && MeasuresBack(start, end)
  {
    if size.None? && MeasuresBack(start, end) then None
    else
      var begin := if start.None? then 0 else Absolute(start.value, size);
      var stop := if end.Some? then Absolute(end.value, size)
                  else if size.None? then begin + UNBOUNDED
                  else size.value;
      Some((begin, Max(0, stop - begin)))
  }

  /** Of a file of the reported size, the range asked for covers exactly the positions the slice covers. */
  lemma RangeCoversTheSlice(size: nat, start: Option<int>, end: Option<int>, i: nat)
    requires i < size
    ensures var (begin, length) := RangeOf(Some(size), start, end).value;
            begin <= i < begin + length
            <==> (start.Some? ==> Place(start.value, size) <= i) && (end.Some? ==> i < Place(end.value, size))
  {
  }

  /** The session's `read_at`: what was asked for, clipped at end of file. */
  function ReadAt<T>(data: seq<T>, offset: nat, length: nat): seq<T> {
    if offset >= |data| then [] else data[offset..Min(offset + length, |data|)]
  }

  /** `size` is what the server reported for the open handle. */
  function CatFile<T>(data: seq<T>, size: Option<nat>, start: Option<int>, end: Option<int>): Option<seq<T>> {
    var (begin, length) :- RangeOf(size, start, end);
    Some(if length <= 0 then [] else ReadAt(data, begin, length))
  }

  /** With the size reported, every combination of bounds reads exactly the Python slice. */
  lemma CatFileIsTheSlice<T>(data: seq<T>, start: Option<int>, end: Option<int>)
    ensures CatFile(data, Some(|data|), start, end) == Some(Slice(data, start, end))
  {
    var (begin, length) := RangeOf(Some(|data|), start, end).value;
    var lo := if start.None? then 0 else Place(start.value, |data|);
    var hi := if end.None? then |data| else Place(end.value, |data|);
    assert lo == Min(begin, |data|);
    assert hi == if end.None? then |data| else Min(Absolute(end.value, Some(|data|)), |data|);
  }

  /**
   With no size reported a negative bound is refused, and any other range is the slice exactly when it has
   an end or the file does not reach past the ceiling from where it starts.
   */
  lemma CatFileWithoutASize<T>(data: seq<T>, start: Option<int>, end: Option<int>)
    ensures CatFile(data, None, start, end).None? <==> MeasuresBack(start, end)
    ensures !MeasuresBack(start, end) ==>
              (CatFile(data, None, start, end) == Some(Slice(data, start, end))
               <==> end.Some? || |data| - (if start.Some? then start.value else 0) <= 1_099_511_627_776)
  {
    if !MeasuresBack(start, end) {
      var begin := if start.None? then 0 else start.value;
      if end.None? && |data| - begin > UNBOUNDED {
        assert |CatFile(data, None, start, end).value| == UNBOUNDED;
        assert |Slice(data, start, end)| == |data| - begin;
      }
    }
  }

  /** A stale size below the real one cuts an open-ended range at the stale size. */
  lemma StaleSizeCutsTheTail<T>(data: seq<T>, size: nat, start: nat)
    requires size <= |data|
    ensures CatFile(data, Some(size), Some(start), None) == Some(Slice(data[..size], Some(start), None))
    ensures CatFile(data, Some(size), Some(start), None) == Some(Slice(data, Some(start), None))
            <==> size == |data| || start >= |data|
  {
    if start < size {
      assert data[..size][start..size] == data[start..size];
      assert |Slice(data, Some(start), None)| == |data| - start;
    }
  }
}
