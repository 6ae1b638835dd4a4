/**
 The primitive field codecs of src/gantry_sftp/codec/_wire.py: the big-endian integers and the
 length-prefixed `string` of section 5 of RFC 4251, first as functions, then as the reader and
 the writer that work through a frame.
 */
module Wire {
  import opened Wrappers

  type byte = i: int | 0 <= i < 256

  const UINT32_MAX: int := 0xFFFF_FFFF
  const UINT64_MAX: int := 0xFFFF_FFFF_FFFF_FFFF

  // --- integers ------------------------------------------------------------------------------

  predicate IsUint32(n: int) { 0 <= n <= UINT32_MAX }

  predicate IsUint64(n: int) { 0 <= n <= UINT64_MAX }

  predicate IsString(s: seq<byte>) { |s| <= UINT32_MAX }

  /** Python's `n.to_bytes(4, "big")`. */
  function U32(n: int): (r: seq<byte>)
    requires IsUint32(n)
    ensures |r| == 4
  {
    [n / 0x100_0000, n / 0x1_0000 % 256, n / 0x100 % 256, n % 256]
  }

  /** Python's `int.from_bytes(s, "big")`, for four bytes. */
  function FromU32(s: seq<byte>): (n: int)
    requires |s| == 4
    ensures IsUint32(n)
  {
    var a: int, b: int, c: int, d: int := s[0], s[1], s[2], s[3];
    a * 0x100_0000 + b * 0x1_0000 + c * 0x100 + d
  }

  function U64(n: int): (r: seq<byte>)
    requires IsUint64(n)
    ensures |r| == 8
  {
    U32(n / 0x1_0000_0000) + U32(n % 0x1_0000_0000)
  }

  function FromU64(s: seq<byte>): (n: int)
    requires |s| == 8
    ensures IsUint64(n)
  {
    FromU32(s[..4]) * 0x1_0000_0000 + FromU32(s[4..])
  }

  lemma U32RoundTrip(n: int)
    requires IsUint32(n)
    ensures FromU32(U32(n)) == n
  {
    var a, b, c, d := n / 0x100_0000, n / 0x1_0000 % 256, n / 0x100 % 256, n % 256;
    assert n / 0x1_0000 == a * 256 + b;
    assert n / 0x100 == (a * 256 + b) * 256 + c;
    assert n == ((a * 256 + b) * 256 + c) * 256 + d;
  }

  lemma FromU32RoundTrip(s: seq<byte>)
    requires |s| == 4
    ensures U32(FromU32(s)) == s
  {
    var n := FromU32(s);
    var a: int, b: int, c: int := s[0], s[1], s[2];
    assert n / 0x100_0000 == a;
    assert n / 0x1_0000 == a * 0x100 + b;
    assert n / 0x100 == a * 0x1_0000 + b * 0x100 + c;
  }

  lemma U64RoundTrip(n: int)
    requires IsUint64(n)
    ensures FromU64(U64(n)) == n
  {
    var high, low := n / 0x1_0000_0000, n % 0x1_0000_0000;
    assert U64(n)[..4] == U32(high) && U64(n)[4..] == U32(low);
    U32RoundTrip(high);
    U32RoundTrip(low);
  }

  lemma FromU64RoundTrip(s: seq<byte>)
    requires |s| == 8
    ensures U64(FromU64(s)) == s
  {
    var high, low := FromU32(s[..4]), FromU32(s[4..]);
    FromU32RoundTrip(s[..4]);
    FromU32RoundTrip(s[4..]);
    assert FromU64(s) / 0x1_0000_0000 == high && FromU64(s) % 0x1_0000_0000 == low;
    assert s == s[..4] + s[4..];
  }

  /** A `string`: its length as a uint32, then its bytes. */
  function Str(s: seq<byte>): (r: seq<byte>)
    requires IsString(s)
    ensures |r| == 4 + |s|
  {
    U32(|s|) + s
  }

  // --- reading from the front of a byte string -------------------------------------------------

  /** What a read makes of the unread bytes: a value and the bytes after it, or a refusal. */
  datatype Parsed<+T> = Refused | Read(value: T, rest: seq<byte>) {
    predicate IsFailure() {
      Refused?
    }

    function PropagateFailure<U>(): Parsed<U>
      requires Refused?
    {
      Refused
    }

    function Extract(): (T, seq<byte>)
      requires Read?
    {
      (value, rest)
    }
  }

  function Take(s: seq<byte>, n: nat): (r: Parsed<seq<byte>>)
    ensures r.Read? <==> n <= |s|
    ensures r.Read? ==> |r.value| == n && |s| == n + |r.rest|
  {
    if n > |s| then Refused else Read(s[..n], s[n..])
  }

  function ReadU32(s: seq<byte>): (r: Parsed<int>)
    ensures r.Read? ==> IsUint32(r.value)
  {
    var (chunk, rest) :- Take(s, 4);
    Read(FromU32(chunk), rest)
  }

  function ReadU64(s: seq<byte>): (r: Parsed<int>)
    ensures r.Read? ==> IsUint64(r.value)
  {
    var (chunk, rest) :- Take(s, 8);
    Read(FromU64(chunk), rest)
  }

  function ReadStr(s: seq<byte>): (r: Parsed<seq<byte>>)
    ensures r.Read? ==> IsString(r.value)
  {
    var (length, rest) :- ReadU32(s);
    Take(rest, length)
  }

  /** A count of items of at least `itemLength` bytes each, refused if the rest cannot hold them. */
  function ReadCount(s: seq<byte>, itemLength: int): (r: Parsed<int>)
    ensures r.Read? ==> IsUint32(r.value) && r.value * itemLength <= |r.rest|
  {
    var (count, rest) :- ReadU32(s);
    if count * itemLength > |rest| then Refused else Read(count, rest)
  }

  lemma TakeOfConcat(a: seq<byte>, b: seq<byte>)
    ensures Take(a + b, |a|) == Read(a, b)
  {
    assert (a + b)[..|a|] == a && (a + b)[|a|..] == b;
  }

  /** The two directions of each primitive: reading what was written, and writing what was read. */
  lemma U32Reads(n: int, tail: seq<byte>)
    requires IsUint32(n)
    ensures ReadU32(U32(n) + tail) == Read(n, tail)
  {
    TakeOfConcat(U32(n), tail);
    U32RoundTrip(n);
  }

  lemma U32Rewrites(s: seq<byte>)
    ensures ReadU32(s).Read? <==> |s| >= 4
    ensures ReadU32(s).Read? ==> s == U32(ReadU32(s).value) + ReadU32(s).rest
  {
    if |s| >= 4 {
      FromU32RoundTrip(s[..4]);
    }
  }

  lemma U64Reads(n: int, tail: seq<byte>)
    requires IsUint64(n)
    ensures ReadU64(U64(n) + tail) == Read(n, tail)
  {
    TakeOfConcat(U64(n), tail);
    U64RoundTrip(n);
  }

  lemma U64Rewrites(s: seq<byte>)
    requires ReadU64(s).Read?
    ensures s == U64(ReadU64(s).value) + ReadU64(s).rest
  {
    FromU64RoundTrip(s[..8]);
  }

  lemma StrReads(b: seq<byte>, tail: seq<byte>)
    requires IsString(b)
    ensures ReadStr(Str(b) + tail) == Read(b, tail)
  {
    assert Str(b) + tail == U32(|b|) + (b + tail);
    U32Reads(|b|, b + tail);
    TakeOfConcat(b, tail);
  }

  lemma StrRewrites(s: seq<byte>)
    requires ReadStr(s).Read?
    ensures s == Str(ReadStr(s).value) + ReadStr(s).rest
  {
    U32Rewrites(s);
  }

  // --- the writer and the reader ----------------------------------------------------------------

  function Joined(chunks: seq<seq<byte>>): seq<byte> {
    if chunks == [] then [] else Joined(chunks[..|chunks| - 1]) + chunks[|chunks| - 1]
  }

  /** `ValueError` or nothing: what a write can answer. */
  datatype Written = Ok | ValueError {
    predicate IsFailure() {
      ValueError?
    }

    function PropagateFailure(): Written
      requires ValueError?
    {
      ValueError
    }
  }

  /** The incremental builder of a frame body. */
  class WireWriter {
    var chunks: seq<seq<byte>>
    var size: nat

    ghost predicate Valid()
      reads this
    {
      size == |Contents()|
    }

    ghost function Contents(): seq<byte>
      reads this
    {
      Joined(chunks)
    }

    constructor ()
      ensures Valid() && Contents() == []
    {
      chunks, size := [], 0;
    }

    method Append(chunk: seq<byte>)
      requires Valid()
      modifies this
      ensures Valid() && Contents() == old(Contents()) + chunk
    {
      assert (chunks + [chunk])[..|chunks|] == chunks;
      chunks := chunks + [chunk];
      size := size + |chunk|;
    }

    method WriteUint32(value: int) returns (r: Written)
      requires Valid()
      modifies this
      ensures Valid()
      ensures r.Ok? <==> IsUint32(value)
      ensures Contents() == if r.Ok? then old(Contents()) + U32(value) else old(Contents())
    {
      if !(0 <= value <= UINT32_MAX) {
        return ValueError;
      }
      Append(U32(value));
      return Ok;
    }

    method WriteUint64(value: int) returns (r: Written)
      requires Valid()
      modifies this
      ensures Valid()
      ensures r.Ok? <==> IsUint64(value)
      ensures Contents() == if r.Ok? then old(Contents()) + U64(value) else old(Contents())
    {
      if !(0 <= value <= UINT64_MAX) {
        return ValueError;
      }
      Append(U64(value));
      return Ok;
    }

    method WriteString(value: seq<byte>) returns (r: Written)
      requires Valid()
      modifies this
      ensures Valid()
      ensures r.Ok? <==> IsString(value)
      ensures Contents() == if r.Ok? then old(Contents()) + Str(value) else old(Contents())
    {
      r := WriteUint32(|value|);
      if r.Ok? {
        Append(value);
        assert Contents() == old(Contents()) + (U32(|value|) + value);
      }
    }
  }

  /** The sequential reader over one frame. `None` is the `ProtocolError` a refused read raises. */
  class WireReader {
    const buf: seq<byte>
    var pos: nat

    ghost predicate Valid()
      reads this
    {
      pos <= |buf|
    }

    ghost function Rest(): seq<byte>
      requires Valid()
      reads this
    {
      buf[pos..]
    }

    constructor (frame: seq<byte>)
      ensures Valid() && buf == frame && Rest() == frame
    {
      buf, pos := frame, 0;
    }

    method TakeBytes(n: nat) returns (r: Option<seq<byte>>)
      requires Valid()
      modifies this
      ensures Valid()
      ensures r.Some? ==> Take(old(Rest()), n) == Read(r.value, Rest())
      ensures r.None? ==> Take(old(Rest()), n).Refused?
      ensures r.None? ==> pos == old(pos)
    {
      if n > |buf| - pos {
        return None;
      }
      r := Some(buf[pos..pos + n]);
      assert buf[pos..][..n] == buf[pos..pos + n] && buf[pos..][n..] == buf[pos + n..];
      pos := pos + n;
    }

    method ReadUint32() returns (r: Option<int>)
      requires Valid()
      modifies this
      ensures Valid()
      ensures r.Some? ==> ReadU32(old(Rest())) == Read(r.value, Rest())
      ensures r.None? ==> ReadU32(old(Rest())).Refused?
      ensures r.None? ==> pos == old(pos)
    {
      var chunk :- TakeBytes(4);
      r := Some(FromU32(chunk));
    }

    method ReadUint64() returns (r: Option<int>)
      requires Valid()
      modifies this
      ensures Valid()
      ensures r.Some? ==> ReadU64(old(Rest())) == Read(r.value, Rest())
      ensures r.None? ==> ReadU64(old(Rest())).Refused?
      ensures r.None? ==> pos == old(pos)
    {
      var chunk :- TakeBytes(8);
      r := Some(FromU64(chunk));
    }

    method ReadString() returns (r: Option<seq<byte>>)
      requires Valid()
      modifies this
      ensures Valid()
      ensures r.Some? ==> ReadStr(old(Rest())) == Read(r.value, Rest())
      ensures r.None? ==> ReadStr(old(Rest())).Refused?
    {
      var length :- ReadUint32();
      r := TakeBytes(length);
    }

    /** A refused count leaves the position at the count, as any failed read does. */
    method ReadItemCount(itemLength: nat) returns (r: Option<int>)
      requires Valid()
      requires itemLength >= 1
      modifies this
      ensures Valid()
      ensures r.Some? ==> ReadCount(old(Rest()), itemLength) == Read(r.value, Rest())
      ensures r.None? ==> ReadCount(old(Rest()), itemLength).Refused?
      ensures r.None? ==> pos == old(pos)
    {
      var offset := pos;
      var count :- ReadUint32();
      if count * itemLength > |buf| - pos {
        pos := offset;
        return None;
      }
      return Some(count);
    }
  }
}
