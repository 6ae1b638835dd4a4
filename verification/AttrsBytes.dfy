/**
 The bytes of an ATTRS, written out with the numbers of section 5 of draft-ietf-secsh-filexfer-02: which bit
 announces which field, where each field lies, and that every integer is big-endian.
 */
module AttributeBytes {
  import opened Wrappers
  import opened Wire
  import opened Attributes
  import opened AttributeLaws

  /** The number that `n` bytes from `at` on stand for, most significant first. */
  function BigEndian(s: seq<byte>, at: nat, n: nat): nat
    requires at + n <= |s|
  {
    if n == 0 then 0 else BigEndian(s, at, n - 1) * 256 + s[at + n - 1]
  }

  /** The chunk stands in `s` from `at` on. */
  ghost predicate LiesAt(s: seq<byte>, at: nat, chunk: seq<byte>) {
    at + |chunk| <= |s| && s[at..at + |chunk|] == chunk
  }

  /** The number `value` stands at `at`, in `n` bytes. */
  ghost predicate NumberAt(s: seq<byte>, at: nat, n: nat, value: int) {
    at + n <= |s| && BigEndian(s, at, n) == value
  }

  // --- where the fields lie ----------------------------------------------------------------------------------

  function OwnerOffset(a: Attrs): nat { 4 + if a.size.Some? then 8 else 0 }

  function PermissionsOffset(a: Attrs): nat { OwnerOffset(a) + if a.owner.Some? then 8 else 0 }

  function TimesOffset(a: Attrs): nat { PermissionsOffset(a) + if a.permissions.Some? then 4 else 0 }

  function ExtendedOffset(a: Attrs): nat { TimesOffset(a) + if a.times.Some? then 8 else 0 }

  /** Each pair's kind and then its data, each behind its own length, one pair after the other to the end. */
  ghost predicate PairsLieAt(s: seq<byte>, at: nat, pairs: seq<Pair>)
    decreases |pairs|
  {
    if pairs == [] then at == |s|
    else
      var p := pairs[0];
      && NumberAt(s, at, 4, |p.kind|) && LiesAt(s, at + 4, p.kind)
      && NumberAt(s, at + 4 + |p.kind|, 4, |p.data|) && LiesAt(s, at + 8 + |p.kind|, p.data)
      && PairsLieAt(s, at + 8 + |p.kind| + |p.data|, pairs[1..])
  }

  /** The bytes of `a`; `announced` is whether the EXTENDED bit is set. */
  ghost predicate IsImage(s: seq<byte>, a: Attrs, announced: bool) {
    && |s| >= 4
    && s[0] == (if announced then 128 else 0) && s[1] == 0 && s[2] == 0
    && s[3] == (if a.size.Some? then 1 else 0) + (if a.owner.Some? then 2 else 0)
               + (if a.permissions.Some? then 4 else 0) + (if a.times.Some? then 8 else 0)
    && (a.size.Some? ==> NumberAt(s, 4, 8, a.size.value))
    && (a.owner.Some? ==>
          && NumberAt(s, OwnerOffset(a), 4, a.owner.value.uid)
          && NumberAt(s, OwnerOffset(a) + 4, 4, a.owner.value.gid))
    && (a.permissions.Some? ==> NumberAt(s, PermissionsOffset(a), 4, a.permissions.value))
    && (a.times.Some? ==>
          && NumberAt(s, TimesOffset(a), 4, a.times.value.atime)
          && NumberAt(s, TimesOffset(a) + 4, 4, a.times.value.mtime))
    && if announced then
         && NumberAt(s, ExtendedOffset(a), 4, |a.extended|)
         && PairsLieAt(s, ExtendedOffset(a) + 4, a.extended)
       else |s| == ExtendedOffset(a)
  }

  // --- numbers ---------------------------------------------------------------------------------------------------

  lemma {:induction false} BigEndianOfPart(s: seq<byte>, at: nat, chunk: seq<byte>, n: nat)
    requires LiesAt(s, at, chunk) && n <= |chunk|
    ensures BigEndian(s, at, n) == BigEndian(chunk, 0, n)
  {
    if n > 0 {
      BigEndianOfPart(s, at, chunk, n - 1);
      assert s[at..at + |chunk|][n - 1] == s[at + n - 1];
    }
  }

  lemma FourBytes(s: seq<byte>)
    requires |s| == 4
    ensures var a: int, b: int, c: int, d: int := s[0], s[1], s[2], s[3];
            BigEndian(s, 0, 4) == ((a * 256 + b) * 256 + c) * 256 + d
  {
    var a: int, b: int, c: int := s[0], s[1], s[2];
    assert BigEndian(s, 0, 1) == a;
    assert BigEndian(s, 0, 2) == a * 256 + b;
    assert BigEndian(s, 0, 3) == (a * 256 + b) * 256 + c;
  }

  lemma U32IsBigEndian(n: int)
    requires IsUint32(n)
    ensures BigEndian(U32(n), 0, 4) == n
  {
    FourBytes(U32(n));
    assert n / 0x1_0000 == n / 0x100_0000 * 256 + n / 0x1_0000 % 256;
    assert n / 0x100 == n / 0x1_0000 * 256 + n / 0x100 % 256;
  }

  lemma {:induction false} BigEndianOfConcat(a: seq<byte>, b: seq<byte>, n: nat)
    requires |a| == 4 && n <= |b|
    ensures BigEndian(a + b, 0, 4 + n) == BigEndian(a, 0, 4) * Power256(n) + BigEndian(b, 0, n)
  {
    if n == 0 {
      BigEndianOfPart(a + b, 0, a, 4);
    } else {
      BigEndianOfConcat(a, b, n - 1);
      assert (a + b)[4 + n - 1] == b[n - 1];
    }
  }

  function Power256(n: nat): nat { if n == 0 then 1 else 256 * Power256(n - 1) }

  lemma U64IsBigEndian(n: int)
    requires IsUint64(n)
    ensures BigEndian(U64(n), 0, 8) == n
  {
    var high, low := n / 0x1_0000_0000, n % 0x1_0000_0000;
    BigEndianOfConcat(U32(high), U32(low), 4);
    U32IsBigEndian(high);
    U32IsBigEndian(low);
    assert Power256(4) == 0x1_0000_0000 by { assert Power256(1) == 256; assert Power256(2) == 0x1_0000; }
  }

  lemma U32Lies(s: seq<byte>, at: nat, n: int)
    requires IsUint32(n) && LiesAt(s, at, U32(n))
    ensures NumberAt(s, at, 4, n)
  {
    BigEndianOfPart(s, at, U32(n), 4);
    U32IsBigEndian(n);
  }

  lemma U64Lies(s: seq<byte>, at: nat, n: int)
    requires IsUint64(n) && LiesAt(s, at, U64(n))
    ensures NumberAt(s, at, 8, n)
  {
    BigEndianOfPart(s, at, U64(n), 8);
    U64IsBigEndian(n);
  }

  // --- chunks -------------------------------------------------------------------------------------------------------

  lemma TwoLie(s: seq<byte>, at: nat, a: seq<byte>, b: seq<byte>)
    requires LiesAt(s, at, a + b)
    ensures LiesAt(s, at, a) && LiesAt(s, at + |a|, b)
  {
    var all := s[at..at + |a + b|];
    assert all[..|a|] == a && all[|a|..] == b;
    assert s[at..at + |a|] == all[..|a|] && s[at + |a|..at + |a| + |b|] == all[|a|..];
  }

  /** Chunks behind one another, when there is nothing after the last. */
  lemma NextLies(s: seq<byte>, at: nat, chunk: seq<byte>, rest: seq<byte>)
    requires at <= |s| && s[at..] == chunk + rest
    ensures LiesAt(s, at, chunk) && at + |chunk| <= |s| && s[at + |chunk|..] == rest
  {
    assert s[at..][..|chunk|] == chunk && s[at..][|chunk|..] == rest;
  }

  lemma TwoNumbersLie(s: seq<byte>, at: nat, x: int, y: int)
    requires IsUint32(x) && IsUint32(y) && LiesAt(s, at, U32(x) + U32(y))
    ensures NumberAt(s, at, 4, x) && NumberAt(s, at + 4, 4, y)
  {
    hide U32;
    TwoLie(s, at, U32(x), U32(y));
    U32Lies(s, at, x);
    U32Lies(s, at + 4, y);
  }

  lemma StringLies(s: seq<byte>, at: nat, b: seq<byte>)
    requires IsString(b) && LiesAt(s, at, Str(b))
    ensures NumberAt(s, at, 4, |b|) && LiesAt(s, at + 4, b)
  {
    hide U32;
    TwoLie(s, at, U32(|b|), b);
    U32Lies(s, at, |b|);
  }

  lemma {:induction false} PairsLie(s: seq<byte>, at: nat, pairs: seq<Pair>)
    requires forall p :: p in pairs ==> IsPair(p)
    requires at <= |s| && s[at..] == PairsBytes(pairs)
    ensures PairsLieAt(s, at, pairs)
    decreases |pairs|
  {
    if pairs != [] {
      hide Str;
      var p := pairs[0];
      NextLies(s, at, PairBytes(p), PairsBytes(pairs[1..]));
      TwoLie(s, at, Str(p.kind), Str(p.data));
      StringLies(s, at, p.kind);
      StringLies(s, at + 4 + |p.kind|, p.data);
      PairsLie(s, at + |PairBytes(p)|, pairs[1..]);
    }
  }

  // --- the whole image -----------------------------------------------------------------------------------

  lemma FlagsImage(flags: int, a: Attrs)
    requires Announces(flags, a)
    ensures var s := U32(flags);
            && s[0] == (if Has(flags, EXTENDED) then 128 else 0) && s[1] == 0 && s[2] == 0
            && s[3] == (if a.size.Some? then 1 else 0) + (if a.owner.Some? then 2 else 0)
                       + (if a.permissions.Some? then 4 else 0) + (if a.times.Some? then 8 else 0)
  {
    hide Has;
    DefinedFlagsAreTheirBits(flags);
  }

  /** A field that is there stands at its offset, and what follows stands behind it. */
  lemma SizeLies(s: seq<byte>, at: nat, size: Option<int>, rest: seq<byte>)
    requires (size.Some? ==> IsUint64(size.value)) && at <= |s| && s[at..] == SizeBytes(size) + rest
    ensures size.Some? ==> NumberAt(s, at, 8, size.value)
    ensures var next := at + if size.Some? then 8 else 0; next <= |s| && s[next..] == rest
  {
    hide U64;
    NextLies(s, at, SizeBytes(size), rest);
    if size.Some? {
      U64Lies(s, at, size.value);
    }
  }

  lemma OwnerLies(s: seq<byte>, at: nat, owner: Option<Owner>, rest: seq<byte>)
    requires owner.Some? ==> IsUint32(owner.value.uid) && IsUint32(owner.value.gid)
    requires at <= |s| && s[at..] == OwnerBytes(owner) + rest
    ensures owner.Some? ==> NumberAt(s, at, 4, owner.value.uid) && NumberAt(s, at + 4, 4, owner.value.gid)
    ensures var next := at + if owner.Some? then 8 else 0; next <= |s| && s[next..] == rest
  {
    hide U32;
    NextLies(s, at, OwnerBytes(owner), rest);
    if owner.Some? {
      TwoNumbersLie(s, at, owner.value.uid, owner.value.gid);
    }
  }

  lemma PermissionsLie(s: seq<byte>, at: nat, permissions: Option<int>, rest: seq<byte>)
    requires (permissions.Some? ==> IsUint32(permissions.value)) && at <= |s|
    requires s[at..] == PermissionBytes(permissions) + rest
    ensures permissions.Some? ==> NumberAt(s, at, 4, permissions.value)
    ensures var next := at + if permissions.Some? then 4 else 0; next <= |s| && s[next..] == rest
  {
    hide U32;
    NextLies(s, at, PermissionBytes(permissions), rest);
    if permissions.Some? {
      U32Lies(s, at, permissions.value);
    }
  }

  lemma TimesLie(s: seq<byte>, at: nat, times: Option<Times>, rest: seq<byte>)
    requires times.Some? ==> IsUint32(times.value.atime) && IsUint32(times.value.mtime)
    requires at <= |s| && s[at..] == TimesBytes(times) + rest
    ensures times.Some? ==> NumberAt(s, at, 4, times.value.atime) && NumberAt(s, at + 4, 4, times.value.mtime)
    ensures var next := at + if times.Some? then 8 else 0; next <= |s| && s[next..] == rest
  {
    hide U32;
    NextLies(s, at, TimesBytes(times), rest);
    if times.Some? {
      TwoNumbersLie(s, at, times.value.atime, times.value.mtime);
    }
  }

  /** A frame of `a` behind any word that announces its fields has exactly these bytes. */
  lemma FrameIsTheImage(flags: int, a: Attrs)
    requires Announces(flags, a) && Encodable(a)
    ensures IsImage(FrameThen(flags, a, []), a, Has(flags, EXTENDED))
  {
    hide U32, Has, SizeBytes, OwnerBytes, PermissionBytes, TimesBytes, ExtendedFrame, NumberAt, PairsLieAt;
    var announced := Has(flags, EXTENDED);
    var s := FrameThen(flags, a, []);
    var extended := ExtendedFrame(announced, a.extended) + [];
    var times := TimesBytes(a.times) + extended;
    var permissions := PermissionBytes(a.permissions) + times;
    var owner := OwnerBytes(a.owner) + permissions;
    var size := SizeBytes(a.size) + owner;
    FlagsImage(flags, a);
    assert s[0..] == U32(flags) + size;
    NextLies(s, 0, U32(flags), size);
    FirstFour(s, U32(flags));
    SizeLies(s, 4, a.size, owner);
    OwnerLies(s, OwnerOffset(a), a.owner, permissions);
    PermissionsLie(s, PermissionsOffset(a), a.permissions, times);
    TimesLie(s, TimesOffset(a), a.times, extended);
    ExtendedLies(s, ExtendedOffset(a), announced, a.extended);
  }

  lemma FirstFour(s: seq<byte>, word: seq<byte>)
    requires LiesAt(s, 0, word) && |word| == 4
    ensures s[0] == word[0] && s[1] == word[1] && s[2] == word[2] && s[3] == word[3]
  {
    assert s[0..4][1] == s[1] && s[0..4][2] == s[2] && s[0..4][3] == s[3] && s[0..4][0] == s[0];
  }

  lemma ExtendedLies(s: seq<byte>, at: nat, announced: bool, pairs: seq<Pair>)
    requires EncodablePairs(pairs) && (pairs != [] ==> announced)
    requires at <= |s| && s[at..] == ExtendedFrame(announced, pairs) + []
    ensures if announced then NumberAt(s, at, 4, |pairs|) && PairsLieAt(s, at + 4, pairs) else |s| == at
  {
    hide U32;
    if announced {
      assert s[at..] == U32(|pairs|) + PairsBytes(pairs);
      NextLies(s, at, U32(|pairs|), PairsBytes(pairs));
      U32Lies(s, at, |pairs|);
      PairsLie(s, at + 4, pairs);
    }
  }

  /** The encoding of every encodable value is its image. */
  lemma EncodingIsTheImage(a: Attrs)
    requires Encodable(a)
    ensures IsImage(Encode(a), a, a.extended != [])
  {
    hide Encode, FrameThen, Has, IsImage;
    EncodeIsAFrame(a, []);
    assert Encode(a) + [] == Encode(a);
    FrameIsTheImage(FlagsOf(a), a);
  }

  /** What was consumed of any accepted bytes is the image of what was read. */
  lemma AcceptedBytesAreTheImage(s: seq<byte>)
    requires Decode(s).Read?
    ensures |Decode(s).rest| <= |s| && |s| >= 4
    ensures IsImage(Consumed(s), Decode(s).value, s[0] >= 128)
  {
    hide Decode, FrameThen, IsImage, Has;
    ConsumedIsTheFrame(s);
    var flags := ReadU32(s).value;
    FrameIsTheImage(flags, Decode(s).value);
    TopBit(s);
  }

  lemma TopBit(s: seq<byte>)
    requires ReadU32(s).Read?
    ensures |s| >= 4 && (Has(ReadU32(s).value, EXTENDED) <==> s[0] >= 128)
  {
    var n := ReadU32(s).value;
    assert s[..4][0] == s[0];
    assert n / 0x8000_0000 == if s[0] >= 128 then 1 else 0;
  }
}
