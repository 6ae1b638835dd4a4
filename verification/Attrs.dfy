/**
 The v3 ATTRS structure of src/gantry_sftp/codec/_attrs.py (section 5 of
 draft-ietf-secsh-filexfer-02): the format as functions, then the encoder and the decoder that
 step through a writer and a reader.
 */
module Attributes {
  import opened Wrappers
  import opened Wire

  datatype Owner = Owner(uid: int, gid: int)

  datatype Times = Times(atime: int, mtime: int)

  /** One vendor `type`/`data` pair. */
  datatype Pair = Pair(kind: seq<byte>, data: seq<byte>)

  /** Python integers are unbounded, so an `Attrs` may hold what no ATTRS can carry. */
  datatype Attrs = Attrs(
    size: Option<int>,
    owner: Option<Owner>,
    permissions: Option<int>,
    times: Option<Times>,
    extended: seq<Pair>)

  const SIZE := 0x1
  const UIDGID := 0x2
  const PERMISSIONS := 0x4
  const ACMODTIME := 0x8
  const EXTENDED := 0x8000_0000

  const MIN_EXTENDED_PAIR_LENGTH := 8

  // --- the flags word --------------------------------------------------------------------------

  predicate Has(flags: int, bit: int)
    requires bit > 0
  {
    flags / bit % 2 == 1
  }

  /** `flags & ~_KNOWN_FLAGS` is non-zero: some bit between the fourth and the thirty-first is set. */
  predicate Undefined(flags: int) {
    flags % EXTENDED >= 16
  }

  function Bit(present: bool, bit: int): int {
    if present then bit else 0
  }

  function FlagsOf(a: Attrs): (flags: int)
    ensures IsUint32(flags) && !Undefined(flags)
    ensures Has(flags, SIZE) == a.size.Some?
    ensures Has(flags, UIDGID) == a.owner.Some?
    ensures Has(flags, PERMISSIONS) == a.permissions.Some?
    ensures Has(flags, ACMODTIME) == a.times.Some?
    ensures Has(flags, EXTENDED) == (a.extended != [])
  {
    Bit(a.size.Some?, SIZE) + Bit(a.owner.Some?, UIDGID) + Bit(a.permissions.Some?, PERMISSIONS)
    + Bit(a.times.Some?, ACMODTIME) + Bit(a.extended != [], EXTENDED)
  }

  /** The word with `bit` set; `|=` where the bit is known to be a single one. */
  function Or(flags: int, bit: int): int
    requires bit > 0
  {
    if Has(flags, bit) then flags else flags + bit
  }

  method Flags(a: Attrs) returns (flags: int)
    ensures flags == FlagsOf(a)
  {
    flags := 0;
    if a.size.Some? { flags := Or(flags, SIZE); }
    if a.owner.Some? { flags := Or(flags, UIDGID); }
    if a.permissions.Some? { flags := Or(flags, PERMISSIONS); }
    if a.times.Some? { flags := Or(flags, ACMODTIME); }
    if a.extended != [] { flags := Or(flags, EXTENDED); }
  }

  /** A defined word is the sum of its five bits, so the fields it announces determine it. */
  lemma DefinedFlagsAreTheirBits(flags: int)
    requires IsUint32(flags) && !Undefined(flags)
    ensures flags == Bit(Has(flags, SIZE), SIZE) + Bit(Has(flags, UIDGID), UIDGID)
                     + Bit(Has(flags, PERMISSIONS), PERMISSIONS) + Bit(Has(flags, ACMODTIME), ACMODTIME)
                     + Bit(Has(flags, EXTENDED), EXTENDED)
  {
    var low := flags % EXTENDED;
    assert flags == low || flags == low + EXTENDED;
    assert Has(flags, SIZE) == Has(low, SIZE) && Has(flags, UIDGID) == Has(low, UIDGID);
    assert Has(flags, PERMISSIONS) == Has(low, PERMISSIONS) && Has(flags, ACMODTIME) == Has(low, ACMODTIME);
  }

  // --- the format --------------------------------------------------------------------------------

  predicate Encodable(a: Attrs) {
    && (a.size.Some? ==> IsUint64(a.size.value))
    && (a.owner.Some? ==> IsUint32(a.owner.value.uid) && IsUint32(a.owner.value.gid))
    && (a.permissions.Some? ==> IsUint32(a.permissions.value))
    && (a.times.Some? ==> IsUint32(a.times.value.atime) && IsUint32(a.times.value.mtime))
    && EncodablePairs(a.extended)
  }

  predicate IsPair(p: Pair) {
    IsString(p.kind) && IsString(p.data)
  }

  predicate EncodablePairs(pairs: seq<Pair>) {
    && IsUint32(|pairs|)
    && forall p :: p in pairs ==> IsPair(p)
  }

  function SizeBytes(size: Option<int>): seq<byte>
    requires size.Some? ==> IsUint64(size.value)
  {
    if size.Some? then U64(size.value) else []
  }

  function OwnerBytes(owner: Option<Owner>): seq<byte>
    requires owner.Some? ==> IsUint32(owner.value.uid) && IsUint32(owner.value.gid)
  {
    if owner.Some? then U32(owner.value.uid) + U32(owner.value.gid) else []
  }

  function PermissionBytes(permissions: Option<int>): seq<byte>
    requires permissions.Some? ==> IsUint32(permissions.value)
  {
    if permissions.Some? then U32(permissions.value) else []
  }

  function TimesBytes(times: Option<Times>): seq<byte>
    requires times.Some? ==> IsUint32(times.value.atime) && IsUint32(times.value.mtime)
  {
    if times.Some? then U32(times.value.atime) + U32(times.value.mtime) else []
  }

  function PairBytes(pair: Pair): seq<byte>
    requires IsPair(pair)
  {
    Str(pair.kind) + Str(pair.data)
  }

  function PairsBytes(pairs: seq<Pair>): (r: seq<byte>)
    requires forall p :: p in pairs ==> IsPair(p)
    ensures |r| >= MIN_EXTENDED_PAIR_LENGTH * |pairs|
  {
    if pairs == [] then [] else PairBytes(pairs[0]) + PairsBytes(pairs[1..])
  }

  function ExtendedBytes(pairs: seq<Pair>): seq<byte>
    requires EncodablePairs(pairs)
  {
    if pairs == [] then [] else U32(|pairs|) + PairsBytes(pairs)
  }

  function BodyBytes(a: Attrs): seq<byte>
    requires Encodable(a)
  {
    SizeBytes(a.size) + OwnerBytes(a.owner) + PermissionBytes(a.permissions) + TimesBytes(a.times)
    + ExtendedBytes(a.extended)
  }

  function Encode(a: Attrs): seq<byte>
    requires Encodable(a)
  {
    U32(FlagsOf(a)) + BodyBytes(a)
  }

  // --- reading it back -------------------------------------------------------------------------

  function ReadSize(present: bool, s: seq<byte>): Parsed<Option<int>> {
    if !present then Read(None, s)
    else
      var (n, s) :- ReadU64(s);
      Read(Some(n), s)
  }

  function ReadOwner(present: bool, s: seq<byte>): Parsed<Option<Owner>> {
    if !present then Read(None, s)
    else
      var (uid, s) :- ReadU32(s);
      var (gid, s) :- ReadU32(s);
      Read(Some(Owner(uid, gid)), s)
  }

  function ReadPermissions(present: bool, s: seq<byte>): Parsed<Option<int>> {
    if !present then Read(None, s)
    else
      var (n, s) :- ReadU32(s);
      Read(Some(n), s)
  }

  function ReadTimes(present: bool, s: seq<byte>): Parsed<Option<Times>> {
    if !present then Read(None, s)
    else
      var (atime, s) :- ReadU32(s);
      var (mtime, s) :- ReadU32(s);
      Read(Some(Times(atime, mtime)), s)
  }

  function ReadPair(s: seq<byte>): Parsed<Pair> {
    var (kind, s) :- ReadStr(s);
    var (data, s) :- ReadStr(s);
    Read(Pair(kind, data), s)
  }

  function ReadPairs(s: seq<byte>, count: nat): Parsed<seq<Pair>> {
    if count == 0 then Read([], s)
    else
      var (pair, s) :- ReadPair(s);
      var (pairs, s) :- ReadPairs(s, count - 1);
      Read([pair] + pairs, s)
  }

  function ReadExtended(present: bool, s: seq<byte>): Parsed<seq<Pair>> {
    if !present then Read([], s)
    else
      var (count, s) :- ReadCount(s, MIN_EXTENDED_PAIR_LENGTH);
      ReadPairs(s, count)
  }

  function DecodeBody(flags: int, s: seq<byte>): Parsed<Attrs> {
    var (size, s) :- ReadSize(Has(flags, SIZE), s);
    var (owner, s) :- ReadOwner(Has(flags, UIDGID), s);
    var (permissions, s) :- ReadPermissions(Has(flags, PERMISSIONS), s);
    var (times, s) :- ReadTimes(Has(flags, ACMODTIME), s);
    var (extended, s) :- ReadExtended(Has(flags, EXTENDED), s);
    Read(Attrs(size, owner, permissions, times, extended), s)
  }

  function Decode(s: seq<byte>): Parsed<Attrs> {
    var (flags, s) :- ReadU32(s);
    if Undefined(flags) then Refused else DecodeBody(flags, s)
  }

  // --- the encoder and the decoder ---------------------------------------------------------------

  /** Refuses what is not encodable with a `ValueError`. */
  method EncodeAttrs(writer: WireWriter, a: Attrs) returns (r: Written)
    requires writer.Valid()
    modifies writer
    ensures writer.Valid()
    ensures r.Ok? <==> Encodable(a)
    ensures r.Ok? ==> writer.Contents() == old(writer.Contents()) + Encode(a)
  {
    var flags := Flags(a);
    var _ := writer.WriteUint32(flags);
    :- EncodeSize(writer, a.size);
    :- EncodeOwner(writer, a.owner);
    :- EncodePermissions(writer, a.permissions);
    :- EncodeTimes(writer, a.times);
    :- EncodeExtended(writer, a.extended);
    EncodingInSteps(a, old(writer.Contents()));
    return Ok;
  }

  lemma EncodingInSteps(a: Attrs, before: seq<byte>)
    requires Encodable(a)
    ensures before + U32(FlagsOf(a)) + SizeBytes(a.size) + OwnerBytes(a.owner) + PermissionBytes(a.permissions)
            + TimesBytes(a.times) + ExtendedBytes(a.extended) == before + Encode(a)
  {
    hide U32;
    hide SizeBytes;
    hide OwnerBytes;
    hide PermissionBytes;
    hide TimesBytes;
    hide ExtendedBytes;
  }

  method EncodeSize(writer: WireWriter, size: Option<int>) returns (r: Written)
    requires writer.Valid()
    modifies writer
    ensures writer.Valid()
    ensures r.Ok? <==> (size.Some? ==> IsUint64(size.value))
    ensures r.Ok? ==> writer.Contents() == old(writer.Contents()) + SizeBytes(size)
  {
    if size.Some? {
      :- writer.WriteUint64(size.value);
    }
    return Ok;
  }

  method EncodeOwner(writer: WireWriter, owner: Option<Owner>) returns (r: Written)
    requires writer.Valid()
    modifies writer
    ensures writer.Valid()
    ensures r.Ok? <==> (owner.Some? ==> IsUint32(owner.value.uid) && IsUint32(owner.value.gid))
    ensures r.Ok? ==> writer.Contents() == old(writer.Contents()) + OwnerBytes(owner)
  {
    if owner.Some? {
      :- writer.WriteUint32(owner.value.uid);
      :- writer.WriteUint32(owner.value.gid);
    }
    return Ok;
  }

  method EncodePermissions(writer: WireWriter, permissions: Option<int>) returns (r: Written)
    requires writer.Valid()
    modifies writer
    ensures writer.Valid()
    ensures r.Ok? <==> (permissions.Some? ==> IsUint32(permissions.value))
    ensures r.Ok? ==> writer.Contents() == old(writer.Contents()) + PermissionBytes(permissions)
  {
    if permissions.Some? {
      :- writer.WriteUint32(permissions.value);
    }
    return Ok;
  }

  method EncodeTimes(writer: WireWriter, times: Option<Times>) returns (r: Written)
    requires writer.Valid()
    modifies writer
    ensures writer.Valid()
    ensures r.Ok? <==> (times.Some? ==> IsUint32(times.value.atime) && IsUint32(times.value.mtime))
    ensures r.Ok? ==> writer.Contents() == old(writer.Contents()) + TimesBytes(times)
  {
    if times.Some? {
      :- WriteTimestamp(writer, times.value.atime);
      :- WriteTimestamp(writer, times.value.mtime);
    }
    return Ok;
  }

  method WriteTimestamp(writer: WireWriter, value: int) returns (r: Written)
    requires writer.Valid()
    modifies writer
    ensures writer.Valid()
    ensures r.Ok? <==> IsUint32(value)
    ensures writer.Contents() == if r.Ok? then old(writer.Contents()) + U32(value) else old(writer.Contents())
  {
    if !(0 <= value <= UINT32_MAX) {
      return ValueError;
    }
    r := writer.WriteUint32(value);
  }

  method EncodeExtended(writer: WireWriter, pairs: seq<Pair>) returns (r: Written)
    requires writer.Valid()
    modifies writer
    ensures writer.Valid()
    ensures r.Ok? <==> EncodablePairs(pairs)
    ensures r.Ok? ==> writer.Contents() == old(writer.Contents()) + ExtendedBytes(pairs)
  {
    hide U32;
    hide Str;
    if pairs == [] {
      return Ok;
    }
    ghost var before := writer.Contents();
    r := writer.WriteUint32(|pairs|);
    if r.Ok? {
      ghost var count := U32(|pairs|);
      r := EncodePairs(writer, pairs);
      if r.Ok? {
        assert before + count + PairsBytes(pairs) == before + (count + PairsBytes(pairs));
      }
    }
  }

  method EncodePairs(writer: WireWriter, pairs: seq<Pair>) returns (r: Written)
    requires writer.Valid()
    modifies writer
    ensures writer.Valid()
    ensures r.Ok? <==> forall p :: p in pairs ==> IsPair(p)
    ensures r.Ok? ==> writer.Contents() == old(writer.Contents()) + PairsBytes(pairs)
  {
    hide U32;
    hide Str;
    hide PairBytes;
    ghost var head := writer.Contents();
    for i := 0 to |pairs|
      invariant writer.Valid()
      invariant forall p :: p in pairs[..i] ==> IsPair(p)
      invariant writer.Contents() == head + PairsBytes(pairs[..i])
    {
      r := EncodePair(writer, pairs[i]);
      if r.ValueError? {
        return;
      }
      assert pairs[..i + 1] == pairs[..i] + [pairs[i]];
      PairsBytesOfSnoc(pairs, i);
    }
    assert pairs[..|pairs|] == pairs;
    return Ok;
  }

  method EncodePair(writer: WireWriter, pair: Pair) returns (r: Written)
    requires writer.Valid()
    modifies writer
    ensures writer.Valid()
    ensures r.Ok? <==> IsPair(pair)
    ensures r.Ok? ==> writer.Contents() == old(writer.Contents()) + PairBytes(pair)
  {
    r := writer.WriteString(pair.kind);
    if r.Ok? {
      r := writer.WriteString(pair.data);
    }
  }

  lemma PairsBytesOfSnoc(pairs: seq<Pair>, i: nat)
    requires i < |pairs|
    requires forall p :: p in pairs[..i + 1] ==> IsPair(p)
    ensures PairsBytes(pairs[..i + 1]) == PairsBytes(pairs[..i]) + PairBytes(pairs[i])
  {
    assert pairs[..i + 1] == pairs[..i] + [pairs[i]];
    PairsBytesOfConcat(pairs[..i], [pairs[i]]);
    assert PairsBytes([pairs[i]]) == PairBytes(pairs[i]) + PairsBytes([pairs[i]][1..]);
  }

  lemma {:induction false} PairsBytesOfConcat(a: seq<Pair>, b: seq<Pair>)
    requires forall p :: p in a ==> IsPair(p)
    requires forall p :: p in b ==> IsPair(p)
    ensures PairsBytes(a + b) == PairsBytes(a) + PairsBytes(b)
  {
    if a == [] {
      assert a + b == b;
    } else {
      assert (a + b)[1..] == a[1..] + b;
      PairsBytesOfConcat(a[1..], b);
      assert PairBytes(a[0]) + (PairsBytes(a[1..]) + PairsBytes(b)) == PairsBytes(a) + PairsBytes(b);
    }
  }

  /** `None` is the `ProtocolError`; a success leaves the reader exactly where the structure ends. */
  method DecodeAttrs(reader: WireReader) returns (r: Option<Attrs>)
    requires reader.Valid()
    modifies reader
    ensures reader.Valid()
    ensures r.Some? ==> Decode(old(reader.Rest())) == Read(r.value, reader.Rest())
    ensures r.None? ==> Decode(old(reader.Rest())).Refused?
  {
    hide Undefined, ReadU32, DecodeBody;
    var flags :- reader.ReadUint32();
    if Undefined(flags) {
      return None;
    }
    r := DecodeFields(reader, flags);
  }

  /** Each field in order, if its bit announces it. */
  method DecodeFields(reader: WireReader, flags: int) returns (r: Option<Attrs>)
    requires reader.Valid()
    modifies reader
    ensures reader.Valid()
    ensures r.Some? ==> DecodeBody(flags, old(reader.Rest())) == Read(r.value, reader.Rest())
    ensures r.None? ==> DecodeBody(flags, old(reader.Rest())).Refused?
  {
    hide Has, ReadSize, ReadOwner, ReadPermissions, ReadTimes, ReadExtended;
    var size :- DecodeSize(reader, Has(flags, SIZE));
    var owner :- DecodeOwner(reader, Has(flags, UIDGID));
    var permissions :- DecodePermissions(reader, Has(flags, PERMISSIONS));
    var times :- DecodeTimes(reader, Has(flags, ACMODTIME));
    var extended :- DecodeExtended(reader, Has(flags, EXTENDED));
    return Some(Attrs(size, owner, permissions, times, extended));
  }

  method DecodeSize(reader: WireReader, present: bool) returns (r: Option<Option<int>>)
    requires reader.Valid()
    modifies reader
    ensures reader.Valid()
    ensures r.Some? ==> ReadSize(present, old(reader.Rest())) == Read(r.value, reader.Rest())
    ensures r.None? ==> ReadSize(present, old(reader.Rest())).Refused?
  {
    if !present {
      return Some(None);
    }
    var n :- reader.ReadUint64();
    return Some(Some(n));
  }

  method DecodeOwner(reader: WireReader, present: bool) returns (r: Option<Option<Owner>>)
    requires reader.Valid()
    modifies reader
    ensures reader.Valid()
    ensures r.Some? ==> ReadOwner(present, old(reader.Rest())) == Read(r.value, reader.Rest())
    ensures r.None? ==> ReadOwner(present, old(reader.Rest())).Refused?
  {
    if !present {
      return Some(None);
    }
    var uid :- reader.ReadUint32();
    var gid :- reader.ReadUint32();
    return Some(Some(Owner(uid, gid)));
  }

  method DecodePermissions(reader: WireReader, present: bool) returns (r: Option<Option<int>>)
    requires reader.Valid()
    modifies reader
    ensures reader.Valid()
    ensures r.Some? ==> ReadPermissions(present, old(reader.Rest())) == Read(r.value, reader.Rest())
    ensures r.None? ==> ReadPermissions(present, old(reader.Rest())).Refused?
  {
    if !present {
      return Some(None);
    }
    var n :- reader.ReadUint32();
    return Some(Some(n));
  }

  method DecodeTimes(reader: WireReader, present: bool) returns (r: Option<Option<Times>>)
    requires reader.Valid()
    modifies reader
    ensures reader.Valid()
    ensures r.Some? ==> ReadTimes(present, old(reader.Rest())) == Read(r.value, reader.Rest())
    ensures r.None? ==> ReadTimes(present, old(reader.Rest())).Refused?
  {
    if !present {
      return Some(None);
    }
    var atime :- reader.ReadUint32();
    var mtime :- reader.ReadUint32();
    return Some(Some(Times(atime, mtime)));
  }

  method DecodeExtended(reader: WireReader, present: bool) returns (r: Option<seq<Pair>>)
    requires reader.Valid()
    modifies reader
    ensures reader.Valid()
    ensures r.Some? ==> ReadExtended(present, old(reader.Rest())) == Read(r.value, reader.Rest())
    ensures r.None? ==> ReadExtended(present, old(reader.Rest())).Refused?
  {
    if !present {
      return Some([]);
    }
    var count :- reader.ReadItemCount(MIN_EXTENDED_PAIR_LENGTH);
    r := DecodePairs(reader, count);
  }

  method DecodePairs(reader: WireReader, count: nat) returns (r: Option<seq<Pair>>)
    requires reader.Valid()
    modifies reader
    ensures reader.Valid()
    ensures r.Some? ==> ReadPairs(old(reader.Rest()), count) == Read(r.value, reader.Rest())
    ensures r.None? ==> ReadPairs(old(reader.Rest()), count).Refused?
  {
    ghost var start := reader.Rest();
    var pairs: seq<Pair> := [];
    PrependNothing(ReadPairs(start, count));
    for i := 0 to count
      invariant reader.Valid()
      invariant ReadPairs(start, count) == Prepend(pairs, ReadPairs(reader.Rest(), count - i))
    {
      var pair :- DecodePair(reader);
      PrependMore(pairs, pair, ReadPairs(reader.Rest(), count - i - 1));
      pairs := pairs + [pair];
    }
    assert pairs + [] == pairs;
    return Some(pairs);
  }

  method DecodePair(reader: WireReader) returns (r: Option<Pair>)
    requires reader.Valid()
    modifies reader
    ensures reader.Valid()
    ensures r.Some? ==> ReadPair(old(reader.Rest())) == Read(r.value, reader.Rest())
    ensures r.None? ==> ReadPair(old(reader.Rest())).Refused?
  {
    var kind :- reader.ReadString();
    var data :- reader.ReadString();
    return Some(Pair(kind, data));
  }

  ghost function Prepend(pairs: seq<Pair>, p: Parsed<seq<Pair>>)
    : Parsed<seq<Pair>>
  {
    match p
    case Refused => Refused
    case Read(more, rest) => Read(pairs + more, rest)
  }

  lemma PrependNothing(p: Parsed<seq<Pair>>)
    ensures Prepend([], p) == p
  {
    if p.Read? {
      assert [] + p.value == p.value;
    }
  }

  lemma PrependMore(pairs: seq<Pair>, pair: Pair,
                    p: Parsed<seq<Pair>>)
    ensures Prepend(pairs, Prepend([pair], p)) == Prepend(pairs + [pair], p)
  {
    if p.Read? {
      assert pairs + ([pair] + p.value) == pairs + [pair] + p.value;
    }
  }
}
