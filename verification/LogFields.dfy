/**
 The structured log fields of src/gantry_sftp/_logging.py: every leaf is rendered as Python's `repr`
 would, loses its framing quotes, and is cut to a bound; collections keep their shape.
 */
module LogFields {
  import opened Wrappers

  type Code = c: int | 0 <= c < 0x110000

  type Text = seq<Code>

  const MAX_VALUE_CHARS := 96
  const SHORTEST_USEFUL_TAIL := 8
  const SHORTEST_LITERAL := 2

  const BACKSLASH: Code := 0x5C
  const APOSTROPHE: Code := 0x27
  const QUOTATION: Code := 0x22
  const LETTER_B: Code := 0x62
  const LETTER_N: Code := 0x6E
  const LETTER_R: Code := 0x72
  const LETTER_T: Code := 0x74
  const LETTER_U: Code := 0x75
  const LETTER_X: Code := 0x78
  const CAPITAL_U: Code := 0x55
  const PLUS: Code := 0x2B

  /** The C0 and C1 controls, and DEL: what could forge a record or drive a terminal. */
  predicate IsControl(c: Code) {
    c < 0x20 || 0x7F <= c < 0xA0
  }

  predicate ControlFree(t: Text) {
    forall c :: c in t ==> !IsControl(c)
  }

  /** Python's `str.isprintable` for one character, of which only this much is relied on. */
  ghost predicate NeverPrintsControls(printable: Code -> bool) {
    forall c: Code :: printable(c) ==> !IsControl(c)
  }

  // --- repr --------------------------------------------------------------------------------------------

  function HexDigit(n: int): Code
    requires 0 <= n < 16
  {
    if n < 10 then 0x30 + n else 0x61 + n - 10
  }

  function HexValue(c: Code): (n: int)
    ensures 0 <= n < 16
  {
    if 0x30 <= c <= 0x39 then c - 0x30 else if 0x61 <= c <= 0x66 then c - 0x61 + 10 else 0
  }

  function Hex2(n: int): (r: Text)
    requires 0 <= n < 0x100
    ensures |r| == 2
  {
    [HexDigit(n / 16), HexDigit(n % 16)]
  }

  function Hex4(n: int): (r: Text)
    requires 0 <= n < 0x1_0000
    ensures |r| == 4
  {
    Hex2(n / 0x100) + Hex2(n % 0x100)
  }

  function Hex8(n: int): (r: Text)
    requires 0 <= n < 0x1_0000_0000
    ensures |r| == 8
  {
    Hex4(n / 0x1_0000) + Hex4(n % 0x1_0000)
  }

  function FromHex2(t: Text): (n: int)
    requires |t| == 2
    ensures 0 <= n < 0x100
  {
    HexValue(t[0]) * 16 + HexValue(t[1])
  }

  function FromHex4(t: Text): (n: int)
    requires |t| == 4
    ensures 0 <= n < 0x1_0000
  {
    FromHex2(t[..2]) * 0x100 + FromHex2(t[2..])
  }

  function FromHex8(t: Text): (n: int)
    requires |t| == 8
    ensures 0 <= n < 0x1_0000_0000
  {
    FromHex4(t[..4]) * 0x1_0000 + FromHex4(t[4..])
  }

  /** How `repr` writes one character inside quotes of the given kind. */
  function Escape(c: Code, quote: Code, printable: Code -> bool): Text {
    if c == quote || c == BACKSLASH then [BACKSLASH, c]
    else if c == 0x09 then [BACKSLASH, LETTER_T]
    else if c == 0x0A then [BACKSLASH, LETTER_N]
    else if c == 0x0D then [BACKSLASH, LETTER_R]
    else if c < 0x20 || c == 0x7F then [BACKSLASH, LETTER_X] + Hex2(c)
    else if c < 0x7F || printable(c) then [c]
    else if c < 0x100 then [BACKSLASH, LETTER_X] + Hex2(c)
    else if c < 0x1_0000 then [BACKSLASH, LETTER_U] + Hex4(c)
    else [BACKSLASH, CAPITAL_U] + Hex8(c)
  }

  function EscapeAll(t: Text, quote: Code, printable: Code -> bool): Text {
    if t == [] then [] else Escape(t[0], quote, printable) + EscapeAll(t[1..], quote, printable)
  }

  /** `repr` quotes with an apostrophe unless that would need escaping and a quotation mark would not. */
  function QuoteFor(t: Text): Code {
    if APOSTROPHE in t && QUOTATION !in t then QUOTATION else APOSTROPHE
  }

  function Repr(t: Text, printable: Code -> bool): Text {
    [QuoteFor(t)] + EscapeAll(t, QuoteFor(t), printable) + [QuoteFor(t)]
  }

  function NothingAboveAscii(c: Code): bool { false }

  /** The `repr` of a byte string: no byte past ASCII is ever printed as itself. */
  function ReprBytes(data: Text): Text {
    [LETTER_B] + Repr(data, NothingAboveAscii)
  }

  // --- one leaf -----------------------------------------------------------------------------------------

  /** A leaf value. Numbers, and objects whose `repr` is their own, come as already rendered. */
  datatype Leaf =
    | Number(rendering: Text)
    | Str(text: Text)
    | Bytes(data: Text)
    | PathLike(text: Text)
    | Opaque(rendering: Text)

  function Rendered(leaf: Leaf, printable: Code -> bool): Text {
    match leaf
    case Number(r) => r
    case Str(t) => Repr(t, printable)
    case Bytes(d) => ReprBytes(d)
    case PathLike(t) => Repr(t, printable)
    case Opaque(r) => r
  }

  function Unquoted(rendered: Text): Text {
    var body := if |rendered| >= 2 && rendered[0] == LETTER_B && (rendered[1] == APOSTROPHE || rendered[1] == QUOTATION)
                then rendered[1..] else rendered;
    if |body| >= SHORTEST_LITERAL && body[0] == body[|body| - 1] && (body[0] == APOSTROPHE || body[0] == QUOTATION)
    then body[1..|body| - 1] else rendered
  }

  function Decimal(n: nat): Text {
    if n < 10 then [0x30 + n] else Decimal(n / 10) + [0x30 + n % 10]
  }

  /** `+` and how far past the bound the rendering ran. */
  function Marker(dropped: nat): Text {
    [PLUS] + Decimal(dropped)
  }

  /** Python's floor division, for the tail's share of what the marker leaves. */
  function Tail(marker: Text): int {
    (MAX_VALUE_CHARS - |marker|) / 3
  }

  function HeadCut(rendered: Text): Text {
    if |rendered| <= MAX_VALUE_CHARS then rendered
    else rendered[..MAX_VALUE_CHARS] + Marker(|rendered| - MAX_VALUE_CHARS)
  }

  function Capped(rendered: Text): Text {
    if |rendered| <= MAX_VALUE_CHARS then rendered
    else
      var marker := Marker(|rendered| - MAX_VALUE_CHARS);
      var tail := Tail(marker);
      if tail < SHORTEST_USEFUL_TAIL then rendered[..MAX_VALUE_CHARS] + marker
      else
        var head := MAX_VALUE_CHARS - |marker| - tail;
        rendered[..head] + marker + rendered[|rendered| - tail..]
  }

  function ScalarText(leaf: Leaf, printable: Code -> bool): Text {
    Capped(Unquoted(Rendered(leaf, printable)))
  }

  // --- the escape can be undone --------------------------------------------------------------------------

  /** Reads back what `repr` wrote between its quotes; `None` for what it never writes. */
  function Unescape(t: Text): Option<Text> {
    if t == [] then Some([])
    else if t[0] != BACKSLASH then
      var rest :- Unescape(t[1..]);
      Some([t[0]] + rest)
    else if |t| < 2 then None
    else if t[1] == LETTER_X then
      if |t| < 4 then None
      else
        var rest :- Unescape(t[4..]);
        Some([FromHex2(t[2..4])] + rest)
    else if t[1] == LETTER_U then
      if |t| < 6 then None
      else
        var rest :- Unescape(t[6..]);
        Some([FromHex4(t[2..6])] + rest)
    else if t[1] == CAPITAL_U then
      if |t| < 10 || FromHex8(t[2..10]) >= 0x110000 then None
      else
        var rest :- Unescape(t[10..]);
        Some([FromHex8(t[2..10])] + rest)
    else
      var rest :- Unescape(t[2..]);
      var c: Code := if t[1] == LETTER_T then 0x09 else if t[1] == LETTER_N then 0x0A
                     else if t[1] == LETTER_R then 0x0D else t[1];
      Some([c] + rest)
  }

  predicate IsQuote(c: Code) {
    c == APOSTROPHE || c == QUOTATION
  }

  lemma Hex2RoundTrip(n: int)
    requires 0 <= n < 0x100
    ensures FromHex2(Hex2(n)) == n
  {
  }

  lemma Hex4RoundTrip(n: int)
    requires 0 <= n < 0x1_0000
    ensures FromHex4(Hex4(n)) == n
  {
    var high, low := n / 0x100, n % 0x100;
    assert Hex4(n)[..2] == Hex2(high) && Hex4(n)[2..] == Hex2(low);
    Hex2RoundTrip(high);
    Hex2RoundTrip(low);
  }

  lemma Hex8RoundTrip(n: int)
    requires 0 <= n < 0x1_0000_0000
    ensures FromHex8(Hex8(n)) == n
  {
    var high, low := n / 0x1_0000, n % 0x1_0000;
    assert Hex8(n)[..4] == Hex4(high) && Hex8(n)[4..] == Hex4(low);
    Hex4RoundTrip(high);
    Hex4RoundTrip(low);
  }

  ghost function Prepended(c: Code, rest: Option<Text>): Option<Text> {
    if rest.None? then None else Some([c] + rest.value)
  }

  lemma UnescapeHex(c: Code, kind: Code, digits: Text, rest: Text)
    requires kind == LETTER_X || kind == LETTER_U || kind == CAPITAL_U
    requires kind == LETTER_X ==> c < 0x100 && digits == Hex2(c)
    requires kind == LETTER_U ==> c < 0x1_0000 && digits == Hex4(c)
    requires kind == CAPITAL_U ==> digits == Hex8(c)
    ensures Unescape([BACKSLASH, kind] + digits + rest) == Prepended(c, Unescape(rest))
  {
    hide Hex2;
    hide Hex4;
    hide Hex8;
    hide FromHex2;
    hide FromHex4;
    hide FromHex8;
    var t := [BACKSLASH, kind] + digits + rest;
    var n := |digits|;
    assert t[2..2 + n] == digits && t[2 + n..] == rest;
    if kind == LETTER_X {
      Hex2RoundTrip(c);
    } else if kind == LETTER_U {
      Hex4RoundTrip(c);
    } else {
      Hex8RoundTrip(c);
    }
  }

  lemma UnescapeOne(c: Code, quote: Code, printable: Code -> bool, rest: Text)
    requires IsQuote(quote)
    ensures Unescape(Escape(c, quote, printable) + rest) == Prepended(c, Unescape(rest))
  {
    hide Hex2;
    hide Hex4;
    hide Hex8;
    var e := Escape(c, quote, printable);
    if |e| == 1 {
      assert (e + rest)[1..] == rest;
    } else if |e| == 2 {
      assert (e + rest)[2..] == rest;
    } else if c < 0x100 {
      UnescapeHex(c, LETTER_X, Hex2(c), rest);
    } else if c < 0x1_0000 {
      UnescapeHex(c, LETTER_U, Hex4(c), rest);
    } else {
      UnescapeHex(c, CAPITAL_U, Hex8(c), rest);
    }
  }

  lemma {:induction false} UnescapeUndoesEscape(t: Text, quote: Code, printable: Code -> bool)
    requires IsQuote(quote)
    ensures Unescape(EscapeAll(t, quote, printable)) == Some(t)
  {
    hide Escape;
    if t == [] {
    } else {
      UnescapeOne(t[0], quote, printable, EscapeAll(t[1..], quote, printable));
      UnescapeUndoesEscape(t[1..], quote, printable);
      assert [t[0]] + t[1..] == t;
    }
  }

  /** Taking the framing off takes off exactly the framing. */
  lemma UnquotedIsTheBody(t: Text, printable: Code -> bool)
    ensures Unquoted(Repr(t, printable)) == EscapeAll(t, QuoteFor(t), printable)
    ensures Unquoted(ReprBytes(t)) == EscapeAll(t, QuoteFor(t), NothingAboveAscii)
  {
    var r, b := Repr(t, printable), Repr(t, NothingAboveAscii);
    assert r[1..|r| - 1] == EscapeAll(t, QuoteFor(t), printable);
    assert ReprBytes(t)[1..] == b;
    assert b[1..|b| - 1] == EscapeAll(t, QuoteFor(t), NothingAboveAscii);
  }

  /** Before it is cut, a field still determines the bytes, or the text, that it came from. */
  lemma UncutFieldsCanBeReadBack(t: Text, printable: Code -> bool)
    ensures Unescape(Unquoted(ReprBytes(t))) == Some(t)
    ensures Unescape(Unquoted(Repr(t, printable))) == Some(t)
  {
    UnquotedIsTheBody(t, printable);
    UnescapeUndoesEscape(t, QuoteFor(t), printable);
    UnescapeUndoesEscape(t, QuoteFor(t), NothingAboveAscii);
  }

  // --- what is written, code by code ------------------------------------------------------------------------

  /** The escapes as Python writes them: a backslash and then the character, a letter, or x, u or U and digits. */
  lemma EscapesWrittenOut(c: Code, quote: Code, printable: Code -> bool)
    requires IsQuote(quote)
    ensures var e := Escape(c, quote, printable);
            if c == quote || c == 0x5C then e == [0x5C, c]
            else if c == 0x09 then e == [0x5C, 0x74]
            else if c == 0x0A then e == [0x5C, 0x6E]
            else if c == 0x0D then e == [0x5C, 0x72]
            else if 0x20 <= c <= 0x7E || (c >= 0x80 && printable(c)) then e == [c]
            else if c < 0x100 then e == [0x5C, 0x78] + Hex2(c)
            else if c < 0x1_0000 then e == [0x5C, 0x75] + Hex4(c)
            else e == [0x5C, 0x55] + Hex8(c)
  {
  }

  const HEX_DIGITS := "0123456789abcdef"

  lemma HexDigitsWrittenOut(n: int)
    requires 0 <= n < 0x100
    ensures Hex2(n) == [HEX_DIGITS[n / 16] as int, HEX_DIGITS[n % 16] as int]
  {
    OneHexDigit(n / 16);
    OneHexDigit(n % 16);
  }

  lemma OneHexDigit(n: int)
    requires 0 <= n < 16
    ensures HexDigit(n) == HEX_DIGITS[n] as int
  {
  }

  /** A text is quoted with an apostrophe unless it has one and no quotation mark. */
  lemma QuoteWrittenOut(t: Text)
    ensures QuoteFor(t) == 0x22 <==> 0x27 in t && 0x22 !in t
    ensures QuoteFor(t) == 0x22 || QuoteFor(t) == 0x27
  {
  }

  /** No backslash, nothing unprintable, and not both kinds of quote: as a file name usually is. */
  ghost predicate IsPlain(t: Text) {
    && (forall c :: c in t ==> 0x20 <= c <= 0x7E && c != 0x5C)
    && !(0x27 in t && 0x22 in t)
  }

  /** Such a text is its own field, so a sink can be asked for it as it is. */
  lemma PlainTextIsItsOwnField(t: Text, printable: Code -> bool)
    requires IsPlain(t) && |t| <= 96
    ensures ScalarText(Str(t), printable) == t
    ensures ScalarText(Bytes(t), printable) == t
    ensures ScalarText(PathLike(t), printable) == t
  {
    UnquotedIsTheBody(t, printable);
    PlainTextNeedsNoEscape(t, QuoteFor(t), printable);
    PlainTextNeedsNoEscape(t, QuoteFor(t), NothingAboveAscii);
  }

  lemma {:induction false} PlainTextNeedsNoEscape(t: Text, quote: Code, printable: Code -> bool)
    requires (forall c :: c in t ==> 0x20 <= c <= 0x7E && c != 0x5C) && quote !in t
    ensures EscapeAll(t, quote, printable) == t
  {
    if t != [] {
      assert t[0] in t && (forall c :: c in t[1..] ==> c in t) && t == [t[0]] + t[1..];
      PlainTextNeedsNoEscape(t[1..], quote, printable);
    }
  }

  /** The text a leaf comes from, if it is not rendered elsewhere. */
  function SourceOf(leaf: Leaf): Option<Text> {
    match leaf
    case Str(t) => Some(t)
    case Bytes(d) => Some(d)
    case PathLike(t) => Some(t)
    case Number(_) => None
    case Opaque(_) => None
  }

  /** A field is the cut of an escaped text that reads back to what the leaf came from. */
  lemma FieldComesFromItsSource(leaf: Leaf, printable: Code -> bool)
    requires SourceOf(leaf).Some?
    ensures Unescape(Unquoted(Rendered(leaf, printable))) == SourceOf(leaf)
    ensures ScalarText(leaf, printable) == Capped(Unquoted(Rendered(leaf, printable)))
    ensures |Unquoted(Rendered(leaf, printable))| <= 96 ==> Unescape(ScalarText(leaf, printable)) == SourceOf(leaf)
  {
    match leaf {
      case Str(t) => UncutFieldsCanBeReadBack(t, printable);
      case Bytes(d) => UncutFieldsCanBeReadBack(d, printable);
      case PathLike(t) => UncutFieldsCanBeReadBack(t, printable);
    }
  }

  // --- the cut -------------------------------------------------------------------------------------------------

  lemma {:induction false} DecimalIsDigits(n: nat)
    ensures |Decimal(n)| >= 1
    ensures forall c :: c in Decimal(n) ==> 0x30 <= c <= 0x39
  {
    if n >= 10 {
      DecimalIsDigits(n / 10);
    }
  }

  /** The number that decimal digits stand for. */
  function FromDecimal(t: Text): int {
    if t == [] then 0 else FromDecimal(t[..|t| - 1]) * 10 + (t[|t| - 1] as int - 0x30)
  }

  lemma {:induction false} DecimalReadsBack(n: nat)
    ensures FromDecimal(Decimal(n)) == n && (n > 0 ==> Decimal(n)[0] != 0x30)
  {
    if n >= 10 {
      DecimalReadsBack(n / 10);
      DecimalIsDigits(n / 10);
      assert Decimal(n)[..|Decimal(n)| - 1] == Decimal(n / 10);
    } else {
      assert Decimal(n)[..0] == [];
    }
  }

  /** The marker is a plus sign and how far past the bound the rendering ran. */
  lemma MarkerWrittenOut(dropped: nat)
    ensures |Marker(dropped)| >= 2 && Marker(dropped)[0] == 0x2B && FromDecimal(Marker(dropped)[1..]) == dropped
  {
    DecimalIsDigits(dropped);
    DecimalReadsBack(dropped);
    assert Marker(dropped)[1..] == Decimal(dropped);
  }

  /**
   A cut value is exactly 96 characters, a prefix, the marker and a suffix of at least 8, whenever the
   marker leaves room for that suffix; otherwise it is the plain head cut.
   */
  lemma CutKeepsBothEnds(rendered: Text)
    requires |rendered| > 96
    ensures var marker := Marker(|rendered| - 96);
            if |marker| <= 72 then
              var tail := Tail(marker);
              var head := 96 - |marker| - tail;
              && tail >= 8 && tail == (96 - |marker|) / 3 && head >= 2 * tail
              && |Capped(rendered)| == 96
              && Capped(rendered)[..head] == rendered[..head]
              && Capped(rendered)[head..head + |marker|] == marker
              && Capped(rendered)[head + |marker|..] == rendered[|rendered| - tail..]
            else Capped(rendered) == rendered[..96] + marker
  {
    DecimalIsDigits(|rendered| - 96);
  }

  /** The cut is never longer than taking the head would have been, and what fits is not cut. */
  lemma CutIsNeverLonger(rendered: Text)
    ensures |Capped(rendered)| <= |HeadCut(rendered)|
    ensures |rendered| <= 96 ==> Capped(rendered) == rendered
  {
    if |rendered| > MAX_VALUE_CHARS {
      CutKeepsBothEnds(rendered);
    }
  }

  /**
   The marker does not say how many characters are missing: it says how far past the bound the rendering
   ran, and the characters the marker itself displaced are missing too.
   */
  lemma MarkerUnderstatesWhatIsMissing(rendered: Text)
    requires |rendered| > MAX_VALUE_CHARS && |Marker(|rendered| - MAX_VALUE_CHARS)| <= 72
    ensures var marker := Marker(|rendered| - MAX_VALUE_CHARS);
            var tail := Tail(marker);
            var head := MAX_VALUE_CHARS - |marker| - tail;
            |rendered| - head - tail == (|rendered| - MAX_VALUE_CHARS) + |marker|
            && |marker| > 1
  {
    DecimalIsDigits(|rendered| - MAX_VALUE_CHARS);
  }

  // --- no control character gets through ------------------------------------------------------------------------

  lemma HexIsControlFree(n: int)
    ensures 0 <= n < 0x100 ==> ControlFree(Hex2(n))
    ensures 0 <= n < 0x1_0000 ==> ControlFree(Hex4(n))
    ensures 0 <= n < 0x1_0000_0000 ==> ControlFree(Hex8(n))
  {
    hide Hex2;
    forall b | 0 <= b < 0x100 ensures ControlFree(Hex2(b)) {
      ByteIsControlFree(b);
    }
  }

  lemma ByteIsControlFree(b: int)
    requires 0 <= b < 0x100
    ensures ControlFree(Hex2(b))
  {
  }

  lemma EscapeIsControlFree(c: Code, quote: Code, printable: Code -> bool)
    requires IsQuote(quote) && NeverPrintsControls(printable)
    ensures ControlFree(Escape(c, quote, printable))
  {
    hide Hex2, Hex4, Hex8;
    HexIsControlFree(c);
  }

  lemma {:induction false} EscapeAllIsControlFree(t: Text, quote: Code, printable: Code -> bool)
    requires IsQuote(quote) && NeverPrintsControls(printable)
    ensures ControlFree(EscapeAll(t, quote, printable))
  {
    hide Escape;
    if t == [] {
    } else {
      EscapeIsControlFree(t[0], quote, printable);
      EscapeAllIsControlFree(t[1..], quote, printable);
    }
  }

  lemma CutIsControlFree(rendered: Text)
    requires ControlFree(rendered)
    ensures ControlFree(Capped(rendered))
  {
    if |rendered| > MAX_VALUE_CHARS {
      DecimalIsDigits(|rendered| - MAX_VALUE_CHARS);
      assert ControlFree(Marker(|rendered| - MAX_VALUE_CHARS));
    }
  }

  /** What this module escapes itself is clean; what arrives rendered has to be clean already. */
  predicate CleanLeaf(leaf: Leaf) {
    (leaf.Number? || leaf.Opaque?) ==> ControlFree(leaf.rendering)
  }

  lemma ScalarIsControlFree(leaf: Leaf, printable: Code -> bool)
    requires CleanLeaf(leaf) && NeverPrintsControls(printable)
    ensures ControlFree(ScalarText(leaf, printable))
  {
    hide Escape;
    match leaf {
      case Str(t) =>
        UnquotedIsTheBody(t, printable);
        EscapeAllIsControlFree(t, QuoteFor(t), printable);
      case PathLike(t) =>
        UnquotedIsTheBody(t, printable);
        EscapeAllIsControlFree(t, QuoteFor(t), printable);
      case Bytes(d) =>
        UnquotedIsTheBody(d, printable);
        EscapeAllIsControlFree(d, QuoteFor(d), NothingAboveAscii);
      case _ =>
        assert ControlFree(Unquoted(leaf.rendering));
    }
    CutIsControlFree(Unquoted(Rendered(leaf, printable)));
  }

  lemma UnquotingKeepsControls(rendered: Text)
    ensures ControlFree(Unquoted(rendered)) <==> ControlFree(rendered)
  {
    if ControlFree(Unquoted(rendered)) {
      forall i | 0 <= i < |rendered| ensures !IsControl(rendered[i]) {
        var cut := Unquoted(rendered);
        var from := if |cut| == |rendered| then 0 else |rendered| - |cut| - 1;
        if from <= i < from + |cut| {
          assert rendered[i] == cut[i - from];
        }
      }
    }
  }

  /** What the cut keeps of a text that is too long, before the marker and after it. */
  function KeptHead(text: Text): Text
    requires |text| > MAX_VALUE_CHARS
  {
    var marker := Marker(|text| - MAX_VALUE_CHARS);
    if Tail(marker) < SHORTEST_USEFUL_TAIL then text[..MAX_VALUE_CHARS]
    else text[..MAX_VALUE_CHARS - |marker| - Tail(marker)]
  }

  function KeptTail(text: Text): Text
    requires |text| > MAX_VALUE_CHARS
  {
    var marker := Marker(|text| - MAX_VALUE_CHARS);
    if Tail(marker) < SHORTEST_USEFUL_TAIL then [] else text[|text| - Tail(marker)..]
  }

  lemma CutIsCleanExactlyWhenKeptIs(text: Text)
    requires |text| > MAX_VALUE_CHARS
    ensures ControlFree(Capped(text)) <==> ControlFree(KeptHead(text)) && ControlFree(KeptTail(text))
  {
    var head, marker, tail := KeptHead(text), Marker(|text| - MAX_VALUE_CHARS), KeptTail(text);
    DecimalIsDigits(|text| - MAX_VALUE_CHARS);
    assert ControlFree(marker);
    assert Capped(text) == head + marker + tail;
    ControlFreeOfConcat(head + marker, tail);
    ControlFreeOfConcat(head, marker);
  }

  lemma ControlFreeOfConcat(a: Text, b: Text)
    ensures ControlFree(a + b) <==> ControlFree(a) && ControlFree(b)
  {
  }

  /**
   The hypothesis on rendered objects is needed. An object's own `repr` is clean exactly if it was when it
   fits, and exactly if what is kept of it was when it is cut.
   */
  lemma OpaqueRenderingIsPassedOn(rendering: Text, printable: Code -> bool)
    ensures var text := Unquoted(rendering);
            var field := ScalarText(Opaque(rendering), printable);
            if |text| <= MAX_VALUE_CHARS then
              field == text && (ControlFree(field) <==> CleanLeaf(Opaque(rendering)))
            else
              ControlFree(field) <==> ControlFree(KeptHead(text)) && ControlFree(KeptTail(text))
  {
    UnquotingKeepsControls(rendering);
    if |Unquoted(rendering)| > MAX_VALUE_CHARS {
      CutIsCleanExactlyWhenKeptIs(Unquoted(rendering));
    }
  }
}
