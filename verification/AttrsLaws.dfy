/** What encoding and decoding an ATTRS promise each other, over every value and every byte string. */
module AttributeLaws {
  import opened Wrappers
  import opened Wire
  import opened Attributes

  /** The flags words a decoder reads as announcing exactly the fields of `a`. */
  ghost predicate Announces(flags: int, a: Attrs) {
    && IsUint32(flags) && !Undefined(flags)
    && Has(flags, SIZE) == a.size.Some?
    && Has(flags, UIDGID) == a.owner.Some?
    && Has(flags, PERMISSIONS) == a.permissions.Some?
    && Has(flags, ACMODTIME) == a.times.Some?
    && (a.extended != [] ==> Has(flags, EXTENDED))
  }

  /** The extended part as a frame may carry it: a set bit brings a count, even one of zero. */
  ghost function ExtendedFrame(present: bool, pairs: seq<Pair>): seq<byte>
    requires EncodablePairs(pairs)
  {
    if present then U32(|pairs|) + PairsBytes(pairs) else []
  }

  /** The bytes of `a` behind a given flags word, and then `tail`. */
  ghost function FrameThen(flags: int, a: Attrs, tail: seq<byte>): seq<byte>
    requires IsUint32(flags) && Encodable(a)
  {
    U32(flags) + (SizeBytes(a.size) + (OwnerBytes(a.owner) + (PermissionBytes(a.permissions)
    + (TimesBytes(a.times) + (ExtendedFrame(Has(flags, EXTENDED), a.extended) + tail)))))
  }

  lemma Regroup<T>(a: seq<T>, b: seq<T>, c: seq<T>, d: seq<T>, e: seq<T>, f: seq<T>, tail: seq<T>)
    ensures a + (b + c + d + e + f) + tail == a + (b + (c + (d + (e + (f + tail)))))
  {
  }

  lemma RegroupTwo<T>(a: seq<T>, b: seq<T>, c: seq<T>)
    ensures a + (b + c) == a + b + c
  {
  }

  lemma EncodeIsAFrame(a: Attrs, tail: seq<byte>)
    requires Encodable(a)
    ensures Announces(FlagsOf(a), a)
    ensures Encode(a) + tail == FrameThen(FlagsOf(a), a, tail)
  {
    Regroup(U32(FlagsOf(a)), SizeBytes(a.size), OwnerBytes(a.owner), PermissionBytes(a.permissions),
            TimesBytes(a.times), ExtendedBytes(a.extended), tail);
  }

  lemma FrameOfConcat(flags: int, a: Attrs, tail: seq<byte>, more: seq<byte>)
    requires IsUint32(flags) && Encodable(a)
    ensures FrameThen(flags, a, tail) + more == FrameThen(flags, a, tail + more)
  {
    ChainOfConcat(U32(flags), SizeBytes(a.size), OwnerBytes(a.owner), PermissionBytes(a.permissions),
                  TimesBytes(a.times), ExtendedFrame(Has(flags, EXTENDED), a.extended), tail, more);
  }

  lemma ChainOfConcat<T>(a: seq<T>, b: seq<T>, c: seq<T>, d: seq<T>, e: seq<T>, f: seq<T>, tail: seq<T>, more: seq<T>)
    ensures a + (b + (c + (d + (e + (f + tail))))) + more == a + (b + (c + (d + (e + (f + (tail + more))))))
  {
    RegroupTwo(f, tail, more);
    RegroupTwo(e, f + tail, more);
    RegroupTwo(d, e + (f + tail), more);
    RegroupTwo(c, d + (e + (f + tail)), more);
    RegroupTwo(b, c + (d + (e + (f + tail))), more);
    RegroupTwo(a, b + (c + (d + (e + (f + tail)))), more);
  }

  /** Only a set EXTENDED bit over no pairs makes a word other than the one the encoder writes. */
  lemma AnnouncingWords(flags: int, a: Attrs)
    requires Announces(flags, a)
    ensures flags == FlagsOf(a) || (a.extended == [] && flags == FlagsOf(a) + EXTENDED)
    ensures flags == FlagsOf(a) <==> (Has(flags, EXTENDED) ==> a.extended != [])
  {
    DefinedFlagsAreTheirBits(flags);
  }

  // --- reading a frame back -----------------------------------------------------------------------

  lemma SizeReads(size: Option<int>, tail: seq<byte>)
    requires size.Some? ==> IsUint64(size.value)
    ensures ReadSize(size.Some?, SizeBytes(size) + tail) == Read(size, tail)
  {
    if size.Some? {
      U64Reads(size.value, tail);
    } else {
      assert SizeBytes(size) + tail == tail;
    }
  }

  lemma TwoReads(x: int, y: int, tail: seq<byte>)
    requires IsUint32(x) && IsUint32(y)
    ensures ReadU32(U32(x) + U32(y) + tail) == Read(x, U32(y) + tail)
    ensures ReadU32(U32(y) + tail) == Read(y, tail)
  {
    assert U32(x) + U32(y) + tail == U32(x) + (U32(y) + tail);
    U32Reads(x, U32(y) + tail);
    U32Reads(y, tail);
  }

  lemma OwnerReads(owner: Option<Owner>, tail: seq<byte>)
    requires owner.Some? ==> IsUint32(owner.value.uid) && IsUint32(owner.value.gid)
    ensures ReadOwner(owner.Some?, OwnerBytes(owner) + tail) == Read(owner, tail)
  {
    if owner.Some? {
      TwoReads(owner.value.uid, owner.value.gid, tail);
    } else {
      assert OwnerBytes(owner) + tail == tail;
    }
  }

  lemma PermissionsRead(permissions: Option<int>, tail: seq<byte>)
    requires permissions.Some? ==> IsUint32(permissions.value)
    ensures ReadPermissions(permissions.Some?, PermissionBytes(permissions) + tail) == Read(permissions, tail)
  {
    if permissions.Some? {
      U32Reads(permissions.value, tail);
    } else {
      assert PermissionBytes(permissions) + tail == tail;
    }
  }

  lemma TimesRead(times: Option<Times>, tail: seq<byte>)
    requires times.Some? ==> IsUint32(times.value.atime) && IsUint32(times.value.mtime)
    ensures ReadTimes(times.Some?, TimesBytes(times) + tail) == Read(times, tail)
  {
    if times.Some? {
      TwoReads(times.value.atime, times.value.mtime, tail);
    } else {
      assert TimesBytes(times) + tail == tail;
    }
  }

  lemma PairReads(pair: Pair, tail: seq<byte>)
    requires IsPair(pair)
    ensures ReadPair(PairBytes(pair) + tail) == Read(pair, tail)
  {
    RegroupTwo(Str(pair.kind), Str(pair.data), tail);
    StrReads(pair.kind, Str(pair.data) + tail);
    StrReads(pair.data, tail);
  }

  lemma {:induction false} PairsRead(pairs: seq<Pair>, tail: seq<byte>)
    requires forall p :: p in pairs ==> IsPair(p)
    ensures ReadPairs(PairsBytes(pairs) + tail, |pairs|) == Read(pairs, tail)
  {
    if pairs == [] {
      assert PairsBytes(pairs) + tail == tail;
    } else {
      RegroupTwo(PairBytes(pairs[0]), PairsBytes(pairs[1..]), tail);
      PairReads(pairs[0], PairsBytes(pairs[1..]) + tail);
      PairsRead(pairs[1..], tail);
      assert [pairs[0]] + pairs[1..] == pairs;
    }
  }

  /** Among other things: `read_count` never refuses the count of pairs that are really there. */
  lemma ExtendedReads(present: bool, pairs: seq<Pair>, tail: seq<byte>)
    requires EncodablePairs(pairs) && (pairs != [] ==> present)
    ensures ReadExtended(present, ExtendedFrame(present, pairs) + tail) == Read(pairs, tail)
  {
    if present {
      var body := PairsBytes(pairs) + tail;
      assert ExtendedFrame(present, pairs) + tail == U32(|pairs|) + body;
      U32Reads(|pairs|, body);
      PairsRead(pairs, tail);
    } else {
      assert ExtendedFrame(present, pairs) + tail == tail;
    }
  }

  lemma FrameReads(flags: int, a: Attrs, tail: seq<byte>)
    requires Announces(flags, a) && Encodable(a)
    ensures Decode(FrameThen(flags, a, tail)) == Read(a, tail)
  {
    hide U32;
    hide ReadU32;
    var s5 := ExtendedFrame(Has(flags, EXTENDED), a.extended) + tail;
    var s4 := TimesBytes(a.times) + s5;
    var s3 := PermissionBytes(a.permissions) + s4;
    var s2 := OwnerBytes(a.owner) + s3;
    var s1 := SizeBytes(a.size) + s2;
    U32Reads(flags, s1);
    SizeReads(a.size, s2);
    OwnerReads(a.owner, s3);
    PermissionsRead(a.permissions, s4);
    TimesRead(a.times, s5);
    ExtendedReads(Has(flags, EXTENDED), a.extended, tail);
  }

  // --- writing a decoded frame again ---------------------------------------------------------------

  lemma SizeRewrites(present: bool, s: seq<byte>)
    requires ReadSize(present, s).Read?
    ensures var r := ReadSize(present, s);
            && r.value.Some? == present && (present ==> IsUint64(r.value.value))
            && s == SizeBytes(r.value) + r.rest
  {
    if present {
      U64Rewrites(s);
    } else {
      assert s == SizeBytes(None) + s;
    }
  }

  lemma OwnerRewrites(present: bool, s: seq<byte>)
    requires ReadOwner(present, s).Read?
    ensures var r := ReadOwner(present, s);
            && r.value.Some? == present
            && (present ==> IsUint32(r.value.value.uid) && IsUint32(r.value.value.gid))
            && s == OwnerBytes(r.value) + r.rest
  {
    if present {
      U32Rewrites(s);
      U32Rewrites(ReadU32(s).rest);
    } else {
      assert s == OwnerBytes(None) + s;
    }
  }

  lemma PermissionsRewrite(present: bool, s: seq<byte>)
    requires ReadPermissions(present, s).Read?
    ensures var r := ReadPermissions(present, s);
            && r.value.Some? == present && (present ==> IsUint32(r.value.value))
            && s == PermissionBytes(r.value) + r.rest
  {
    if present {
      U32Rewrites(s);
    } else {
      assert s == PermissionBytes(None) + s;
    }
  }

  lemma TimesRewrite(present: bool, s: seq<byte>)
    requires ReadTimes(present, s).Read?
    ensures var r := ReadTimes(present, s);
            && r.value.Some? == present
            && (present ==> IsUint32(r.value.value.atime) && IsUint32(r.value.value.mtime))
            && s == TimesBytes(r.value) + r.rest
  {
    if present {
      U32Rewrites(s);
      U32Rewrites(ReadU32(s).rest);
    } else {
      assert s == TimesBytes(None) + s;
    }
  }

  lemma PairRewrites(s: seq<byte>)
    requires ReadPair(s).Read?
    ensures var r := ReadPair(s);
            && IsPair(r.value)
            && s == PairBytes(r.value) + r.rest
  {
    StrRewrites(s);
    StrRewrites(ReadStr(s).rest);
  }

  lemma ReadPairsStep(s: seq<byte>, count: nat, pairs: seq<Pair>, rest: seq<byte>)
    returns (pair: Pair, more: seq<Pair>, after: seq<byte>)
    requires count > 0 && ReadPairs(s, count) == Read(pairs, rest)
    ensures pairs == [pair] + more
    ensures ReadPairs(after, count - 1) == Read(more, rest)
    ensures IsPair(pair) && s == PairBytes(pair) + after
  {
    PairRewrites(s);
    pair, after := ReadPair(s).value, ReadPair(s).rest;
    more := ReadPairs(after, count - 1).value;
  }

  lemma {:induction false} PairsRewrite(s: seq<byte>, count: nat, pairs: seq<Pair>, rest: seq<byte>)
    requires ReadPairs(s, count) == Read(pairs, rest)
    ensures |pairs| == count
    ensures forall p :: p in pairs ==> IsPair(p)
    ensures s == PairsBytes(pairs) + rest
    decreases count
  {
    hide PairBytes;
    hide ReadPair;
    if count == 0 {
      assert s == PairsBytes([]) + s;
    } else {
      var pair, more, after := ReadPairsStep(s, count, pairs, rest);
      PairsRewrite(after, count - 1, more, rest);
      OnePairMore(pair, more, rest);
    }
  }

  lemma OnePairMore(pair: Pair, more: seq<Pair>, rest: seq<byte>)
    requires IsPair(pair) && forall p :: p in more ==> IsPair(p)
    ensures forall p :: p in [pair] + more ==> IsPair(p)
    ensures PairBytes(pair) + (PairsBytes(more) + rest) == PairsBytes([pair] + more) + rest
  {
    assert ([pair] + more)[1..] == more;
    RegroupTwo(PairBytes(pair), PairsBytes(more), rest);
  }

  lemma ExtendedRewrites(present: bool, s: seq<byte>)
    requires ReadExtended(present, s).Read?
    ensures var r := ReadExtended(present, s);
            && EncodablePairs(r.value) && (r.value != [] ==> present)
            && s == ExtendedFrame(present, r.value) + r.rest
  {
    if present {
      U32Rewrites(s);
      var counted := ReadCount(s, MIN_EXTENDED_PAIR_LENGTH);
      assert counted == ReadU32(s);
      var r := ReadPairs(counted.rest, counted.value);
      PairsRewrite(counted.rest, counted.value, r.value, r.rest);
      RegroupTwo(U32(|r.value|), PairsBytes(r.value), r.rest);
    } else {
      assert s == ExtendedFrame(false, []) + s;
    }
  }

  lemma DecodeBodySteps(flags: int, s: seq<byte>, a: Attrs, rest: seq<byte>)
    returns (s1: seq<byte>, s2: seq<byte>, s3: seq<byte>, s4: seq<byte>)
    requires DecodeBody(flags, s) == Read(a, rest)
    ensures ReadSize(Has(flags, SIZE), s) == Read(a.size, s1)
    ensures ReadOwner(Has(flags, UIDGID), s1) == Read(a.owner, s2)
    ensures ReadPermissions(Has(flags, PERMISSIONS), s2) == Read(a.permissions, s3)
    ensures ReadTimes(Has(flags, ACMODTIME), s3) == Read(a.times, s4)
    ensures ReadExtended(Has(flags, EXTENDED), s4) == Read(a.extended, rest)
  {
    s1 := ReadSize(Has(flags, SIZE), s).rest;
    s2 := ReadOwner(Has(flags, UIDGID), s1).rest;
    s3 := ReadPermissions(Has(flags, PERMISSIONS), s2).rest;
    s4 := ReadTimes(Has(flags, ACMODTIME), s3).rest;
  }

  lemma BodyRewrites(flags: int, s: seq<byte>, a: Attrs, rest: seq<byte>)
    requires IsUint32(flags) && !Undefined(flags)
    requires DecodeBody(flags, s) == Read(a, rest)
    ensures Encodable(a) && Announces(flags, a)
    ensures U32(flags) + s == FrameThen(flags, a, rest)
  {
    hide U32, Has;
    hide ReadSize, ReadOwner, ReadPermissions, ReadTimes, ReadExtended;
    hide SizeBytes, OwnerBytes, PermissionBytes, TimesBytes, ExtendedFrame;
    var s1, s2, s3, s4 := DecodeBodySteps(flags, s, a, rest);
    SizeRewrites(Has(flags, SIZE), s);
    OwnerRewrites(Has(flags, UIDGID), s1);
    PermissionsRewrite(Has(flags, PERMISSIONS), s2);
    TimesRewrite(Has(flags, ACMODTIME), s3);
    ExtendedRewrites(Has(flags, EXTENDED), s4);
  }

  /** Whatever is accepted is the frame of what was returned, behind the word that was read. */
  lemma FrameRewrites(s: seq<byte>)
    requires Decode(s).Read?
    ensures ReadU32(s).Read?
    ensures var a := Decode(s).value;
            && Encodable(a) && Announces(ReadU32(s).value, a)
            && s == FrameThen(ReadU32(s).value, a, Decode(s).rest)
  {
    U32Rewrites(s);
    BodyRewrites(ReadU32(s).value, ReadU32(s).rest, Decode(s).value, Decode(s).rest);
  }

  // --- the laws --------------------------------------------------------------------------------------

  /** Decoding an encoding returns the value and leaves exactly what followed it. */
  lemma RoundTrip(a: Attrs, suffix: seq<byte>)
    requires Encodable(a)
    ensures Decode(Encode(a) + suffix) == Read(a, suffix)
  {
    EncodeIsAFrame(a, suffix);
    FrameReads(FlagsOf(a), a, suffix);
  }

  /** What follows an accepted structure has no part in how it is read. */
  lemma DecodingIsLocal(s: seq<byte>, more: seq<byte>)
    requires Decode(s).Read?
    ensures Decode(s + more) == Read(Decode(s).value, Decode(s).rest + more)
  {
    FrameRewrites(s);
    var flags, a, rest := ReadU32(s).value, Decode(s).value, Decode(s).rest;
    FrameOfConcat(flags, a, rest, more);
    FrameReads(flags, a, rest + more);
  }

  /** No encoding is a proper prefix of another. */
  lemma EncodingsArePrefixFree(a: Attrs, b: Attrs)
    requires Encodable(a) && Encodable(b)
    requires Encode(a) <= Encode(b)
    ensures a == b
  {
    hide Encode, Decode;
    var more := Encode(b)[|Encode(a)|..];
    assert Encode(b) == Encode(a) + more == Encode(b) + [];
    RoundTrip(a, more);
    RoundTrip(b, []);
  }

  /** A cut-short encoding is refused, wherever it is cut. */
  lemma TruncationIsRefused(a: Attrs, kept: nat)
    requires Encodable(a) && kept < |Encode(a)|
    ensures Decode(Encode(a)[..kept]).Refused?
  {
    hide Encode, Decode;
    var s := Encode(a)[..kept];
    if Decode(s).Read? {
      var more := Encode(a)[kept..];
      DecodingIsLocal(s, more);
      assert s + more == Encode(a) + [];
      RoundTrip(a, []);
      assert false;
    }
  }

  /** The bytes of `s` a successful decoding used. */
  ghost function Consumed(s: seq<byte>): seq<byte>
    requires Decode(s).Read? && |Decode(s).rest| <= |s|
  {
    s[..|s| - |Decode(s).rest|]
  }

  lemma ConsumedIsTheFrame(s: seq<byte>)
    requires Decode(s).Read?
    ensures ReadU32(s).Read? && Announces(ReadU32(s).value, Decode(s).value) && Encodable(Decode(s).value)
    ensures |Decode(s).rest| <= |s|
    ensures s == Consumed(s) + Decode(s).rest
    ensures Consumed(s) == FrameThen(ReadU32(s).value, Decode(s).value, [])
  {
    FrameRewrites(s);
    var flags, a, rest := ReadU32(s).value, Decode(s).value, Decode(s).rest;
    FrameOfConcat(flags, a, [], rest);
    assert [] + rest == rest;
    var frame := FrameThen(flags, a, []);
    assert s == frame + rest;
    assert s[..|s| - |rest|] == frame && s[|s| - |rest|..] == rest;
  }

  /** An accepted structure takes at least the flags word, at most everything, and 8 bytes a pair. */
  lemma DecodingConsumes(s: seq<byte>)
    requires Decode(s).Read?
    ensures |Decode(s).rest| <= |s|
    ensures s == Consumed(s) + Decode(s).rest
    ensures 4 + 8 * |Decode(s).value.extended| <= |Consumed(s)|
  {
    ConsumedIsTheFrame(s);
    FrameLength(ReadU32(s).value, Decode(s).value);
  }

  lemma FrameLength(flags: int, a: Attrs)
    requires Announces(flags, a) && Encodable(a)
    ensures |FrameThen(flags, a, [])| >= 4 + 8 * |a.extended|
  {
    assert |FrameThen(flags, a, [])| >= 4 + |ExtendedFrame(Has(flags, EXTENDED), a.extended)|;
  }

  /** A frame is the encoding of its value exactly when its word is the one the encoder writes. */
  lemma FrameAgainstEncoding(flags: int, a: Attrs)
    requires Announces(flags, a) && Encodable(a)
    ensures FrameThen(flags, a, []) == Encode(a) <==> (Has(flags, EXTENDED) ==> a.extended != [])
    ensures Has(flags, EXTENDED) && a.extended == [] ==>
              FrameThen(flags, a, []) == U32(FlagsOf(a) + EXTENDED) + BodyBytes(a) + U32(0)
  {
    AnnouncingWords(flags, a);
    if Has(flags, EXTENDED) && a.extended == [] {
      assert ExtendedFrame(true, []) == U32(0);
      Regroup(U32(flags), SizeBytes(a.size), OwnerBytes(a.owner), PermissionBytes(a.permissions),
              TimesBytes(a.times), [], U32(0));
      assert U32(0) + [] == [] + U32(0) == U32(0);
      assert FrameThen(flags, a, []) == U32(flags) + BodyBytes(a) + U32(0);
      assert |Encode(a)| < |FrameThen(flags, a, [])|;
    } else {
      EncodeIsAFrame(a, []);
      assert Encode(a) + [] == Encode(a);
    }
  }

  /** An EXTENDED bit over a count of zero: the one non-canonical form the decoder accepts. */
  ghost predicate AnnouncesNoPairs(s: seq<byte>)
    requires Decode(s).Read?
  {
    ReadU32(s).Read? && Has(ReadU32(s).value, EXTENDED) && Decode(s).value.extended == []
  }

  /**
   Encoding what was decoded gives back the bytes it came from, exactly when the EXTENDED bit was
   not set over no pairs. In that one case the bit and the four count bytes at the end are dropped.
   */
  lemma Reencoding(s: seq<byte>)
    requires Decode(s).Read?
    ensures |Decode(s).rest| <= |s|
    ensures Encodable(Decode(s).value)
    ensures Encode(Decode(s).value) == Consumed(s) <==> !AnnouncesNoPairs(s)
    ensures AnnouncesNoPairs(s) ==>
              var a := Decode(s).value;
              Consumed(s) == U32(FlagsOf(a) + EXTENDED) + BodyBytes(a) + U32(0)
  {
    var flags, a, rest := ReadU32(s).value, Decode(s).value, Decode(s).rest;
    FrameRewrites(s);
    ConsumedIsTheFrame(s);
    FrameAgainstEncoding(flags, a);
  }

  /** The round trip through the stateful halves: what is written into a writer is what a reader reads. */
  method WriteThenRead(a: Attrs, suffix: seq<byte>) returns (r: Option<Attrs>, left: seq<byte>)
    ensures r.Some? <==> Encodable(a)
    ensures r.Some? ==> r.value == a && left == suffix
  {
    var writer := new WireWriter();
    var written := EncodeAttrs(writer, a);
    if written.ValueError? {
      return None, [];
    }
    var bytes := Joined(writer.chunks);
    assert bytes == Encode(a);
    var reader := new WireReader(bytes + suffix);
    RoundTrip(a, suffix);
    r := DecodeAttrs(reader);
    left := reader.buf[reader.pos..];
  }
}
