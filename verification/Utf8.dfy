/** Text as JavaScript holds it (UTF-16 code units) and as it travels (UTF-8 bytes). */
module Utf8 {

  newtype Byte = b: int | 0 <= b < 0x100

  newtype Unit = u: int | 0 <= u < 0x10000

  /** U+FFFD, which stands for whatever cannot be converted. */
  const REPLACEMENT: Unit := 0xFFFD

  predicate IsHigh(u: Unit) { 0xD800 <= u < 0xDC00 }

  predicate IsLow(u: Unit) { 0xDC00 <= u < 0xE000 }

  predicate Continues(b: Byte) { 0x80 <= b < 0xC0 }

  // ------------------------------------------------------------ encoding

  /** The number of units that make the first character: two for a surrogate pair. */
  function FirstUnits(t: seq<Unit>): (n: nat)
    requires t != []
    ensures 1 <= n <= |t|
  {
    if |t| >= 2 && IsHigh(t[0]) && IsLow(t[1]) then 2 else 1
  }

  function EncodeFirst(t: seq<Unit>): (out: seq<Byte>)
    requires t != []
    ensures |out| >= FirstUnits(t)
    ensures t[0] < 0x80 ==> out == [t[0] as Byte]
  {
    if FirstUnits(t) == 2 then
      var code := (t[0] as int - 0xD800) * 0x400 + (t[1] as int - 0xDC00) + 0x10000;
      [(0xF0 + code / 0x40000) as Byte, (0x80 + code / 0x1000 % 0x40) as Byte,
       (0x80 + code / 0x40 % 0x40) as Byte, (0x80 + code % 0x40) as Byte]
    else if t[0] < 0x80 then [t[0] as Byte]
    else if t[0] < 0x800 then [(0xC0 + t[0] / 0x40) as Byte, (0x80 + t[0] % 0x40) as Byte]
    else ThreeBytes(if IsHigh(t[0]) || IsLow(t[0]) then REPLACEMENT else t[0])
  }

  function ThreeBytes(u: Unit): seq<Byte> {
    [(0xE0 + u / 0x1000) as Byte, (0x80 + u / 0x40 % 0x40) as Byte, (0x80 + u % 0x40) as Byte]
  }

  /** `Buffer.from(t, 'utf8')`; its length is `Buffer.byteLength(t)`. */
  function Encode(t: seq<Unit>): seq<Byte> {
    if t == [] then [] else EncodeFirst(t) + Encode(t[FirstUnits(t)..])
  }

  // ------------------------------------------------------------ decoding

  /** The lowest and the highest second byte after a lead byte. */
  predicate SecondFits(lead: Byte, second: Byte) {
    (if lead == 0xE0 then 0xA0 else if lead == 0xF0 then 0x90 else 0x80) <= second
    && second < (if lead == 0xED then 0xA0 else if lead == 0xF4 then 0x90 else 0xC0)
  }

  /** How many of the first bytes belong together: a whole character, or the longest start of one. */
  function FirstBytes(s: seq<Byte>): (n: nat)
    requires s != []
    ensures 1 <= n <= |s| && n <= 4
  {
    if s[0] < 0xC2 || s[0] > 0xF4 || |s| == 1 || !SecondFits(s[0], s[1]) then 1
    else if s[0] < 0xE0 || |s| == 2 || !Continues(s[2]) then 2
    else if s[0] < 0xF0 || |s| == 3 || !Continues(s[3]) then 3
    else 4
  }

  function DecodeFirst(s: seq<Byte>): (out: seq<Unit>)
    requires s != []
    ensures 1 <= |out| <= FirstBytes(s)
    ensures s[0] < 0x80 ==> out == [s[0] as Unit]
  {
    var n := FirstBytes(s);
    if s[0] < 0x80 then [s[0] as Unit]
    else if n == 2 && s[0] < 0xE0 then [((s[0] as int - 0xC0) * 0x40 + (s[1] as int - 0x80)) as Unit]
    else if n == 3 && s[0] < 0xF0 then
      [((s[0] as int - 0xE0) * 0x1000 + (s[1] as int - 0x80) * 0x40 + (s[2] as int - 0x80)) as Unit]
    else if n == 4 then
      var code := (s[0] as int - 0xF0) * 0x40000 + (s[1] as int - 0x80) * 0x1000
                  + (s[2] as int - 0x80) * 0x40 + (s[3] as int - 0x80) - 0x10000;
      [(0xD800 + code / 0x400) as Unit, (0xDC00 + code % 0x400) as Unit]
    else [REPLACEMENT]
  }

  /** `buffer.toString('utf8')` */
  function Decode(s: seq<Byte>): (t: seq<Unit>)
    ensures |t| <= |s|
  {
    if s == [] then [] else DecodeFirst(s) + Decode(s[FirstBytes(s)..])
  }

  // ------------------------------------------------------------ ASCII boundaries

  predicate Ascii(s: seq<Byte>) { forall i | 0 <= i < |s| :: s[i] < 0x80 }

  function Widen(s: seq<Byte>): seq<Unit> { seq(|s|, i requires 0 <= i < |s| => s[i] as Unit) }

  lemma FirstBeforeAscii(s: seq<Byte>, tail: seq<Byte>)
    requires s != [] && (tail == [] || tail[0] < 0x80)
    ensures FirstBytes(s + tail) == FirstBytes(s) && DecodeFirst(s + tail) == DecodeFirst(s)
  {
  }

  lemma DecodeStep(s: seq<Byte>)
    requires s != []
    ensures Decode(s) == DecodeFirst(s) + Decode(s[FirstBytes(s)..])
  {
    hide DecodeFirst, FirstBytes;
  }

  lemma EmptyDecodes()
    ensures Decode([]) == []
  {
  }

  /** Decoding can be cut in front of an ASCII byte. */
  lemma {:induction false} DecodeSplits(s: seq<Byte>, tail: seq<Byte>)
    requires tail == [] || tail[0] < 0x80
    ensures Decode(s + tail) == Decode(s) + Decode(tail)
    decreases |s|
  {
    hide Decode, DecodeFirst, FirstBytes;
    EmptyDecodes();
    if s == [] {
      assert s + tail == tail;
    } else {
      var n := FirstBytes(s);
      FirstBeforeAscii(s, tail);
      assert (s + tail)[n..] == s[n..] + tail;
      DecodeStep(s);
      DecodeStep(s + tail);
      DecodeSplits(s[n..], tail);
    }
  }

  lemma DecodeOne(s: seq<Byte>)
    requires s != [] && s[0] < 0x80
    ensures Decode(s) == [s[0] as Unit] + Decode(s[1..])
  {
    assert FirstBytes(s) == 1;
  }

  /** ASCII decodes to itself in front of anything. */
  lemma {:induction false} DecodeAscii(s: seq<Byte>, tail: seq<Byte>)
    requires Ascii(s)
    ensures Decode(s + tail) == Widen(s) + Decode(tail)
  {
    hide Decode;
    if s == [] {
      assert s + tail == tail;
    } else {
      DecodeOne(s + tail);
      assert (s + tail)[1..] == s[1..] + tail;
      DecodeAscii(s[1..], tail);
      assert Widen(s) == [s[0] as Unit] + Widen(s[1..]);
    }
  }

  /** A decoded ASCII unit was that byte. */
  lemma {:induction false} DecodedUnitWasByte(s: seq<Byte>, u: Unit)
    requires u in Decode(s) && u < 0x80
    ensures u as Byte in s
    decreases |s|
  {
    var n := FirstBytes(s);
    if u in DecodeFirst(s) {
      FirstUnitWasByte(s, u);
    } else {
      DecodedUnitWasByte(s[n..], u);
    }
  }

  lemma FirstUnitWasByte(s: seq<Byte>, u: Unit)
    requires s != [] && u in DecodeFirst(s) && u < 0x80
    ensures u as Byte == s[0]
  {
  }

  // ------------------------------------------------------------ round trip

  predicate AsciiText(t: seq<Unit>) { forall i | 0 <= i < |t| :: t[i] < 0x80 }

  /** A text with its unpaired surrogates replaced. */
  function Repaired(t: seq<Unit>): (r: seq<Unit>)
    ensures |r| == |t|
    ensures AsciiText(t) ==> r == t
  {
    if t == [] then []
    else RepairedFirst(t) + Repaired(t[FirstUnits(t)..])
  }

  function RepairedFirst(t: seq<Unit>): (r: seq<Unit>)
    requires t != []
    ensures |r| == FirstUnits(t)
    ensures t[0] < 0x80 ==> r == [t[0]]
  {
    if FirstUnits(t) == 2 then t[..2]
    else if IsHigh(t[0]) || IsLow(t[0]) then [REPLACEMENT] else [t[0]]
  }

  /** Base-64 digits of a number. */
  lemma SixBits(x: int)
    requires x >= 0
    ensures x == x / 0x40 * 0x40 + x % 0x40 && 0 <= x % 0x40 < 0x40
    ensures x / 0x1000 == x / 0x40 / 0x40 && x / 0x40000 == x / 0x1000 / 0x40
  {
  }

  lemma PairRoundTrip(high: int, low: int)
    requires 0 <= high < 0x400 && 0 <= low < 0x400
    ensures var code := high * 0x400 + low + 0x10000;
            && 0 <= code / 0x40000 <= 4
            && (code / 0x40000 == 0 ==> code / 0x1000 % 0x40 >= 0x10)
            && (code / 0x40000 == 4 ==> code / 0x1000 % 0x40 < 0x10)
            && code / 0x40000 * 0x40000 + code / 0x1000 % 0x40 * 0x1000 + code / 0x40 % 0x40 * 0x40 + code % 0x40
               == code
            && (code - 0x10000) / 0x400 == high && (code - 0x10000) % 0x400 == low
  {
    var code := high * 0x400 + low + 0x10000;
    SixBits(code);
    SixBits(code / 0x40);
    SixBits(code / 0x1000);
  }

  lemma TripleRoundTrip(u: int)
    requires 0x800 <= u < 0x10000
    ensures 0 <= u / 0x1000 < 0x10
    ensures u / 0x1000 == 0 ==> u / 0x40 % 0x40 >= 0x20
    ensures u / 0x1000 == 0xD && u < 0xD800 ==> u / 0x40 % 0x40 < 0x20
    ensures u / 0x1000 == 0xD ==> u < 0xE000
    ensures u / 0x1000 * 0x1000 + u / 0x40 % 0x40 * 0x40 + u % 0x40 == u
  {
  }

  lemma DecodeThree(u: Unit, tail: seq<Byte>)
    requires u >= 0x800 && !IsHigh(u) && !IsLow(u)
    ensures FirstBytes(ThreeBytes(u) + tail) == 3 && DecodeFirst(ThreeBytes(u) + tail) == [u]
  {
    TripleRoundTrip(u as int);
    var s := ThreeBytes(u) + tail;
    assert s[0] as int == 0xE0 + u as int / 0x1000;
    assert s[1] as int == 0x80 + u as int / 0x40 % 0x40;
    assert s[2] as int == 0x80 + u as int % 0x40;
    assert FirstBytes(s) == 3;
  }

  lemma DecodeTwo(u: Unit, tail: seq<Byte>)
    requires 0x80 <= u < 0x800
    ensures var s := [(0xC0 + u / 0x40) as Byte, (0x80 + u % 0x40) as Byte] + tail;
            FirstBytes(s) == 2 && DecodeFirst(s) == [u]
  {
    var s := [(0xC0 + u / 0x40) as Byte, (0x80 + u % 0x40) as Byte] + tail;
    assert s[0] as int == 0xC0 + u as int / 0x40 && s[1] as int == 0x80 + u as int % 0x40;
    assert FirstBytes(s) == 2;
  }

  lemma DecodeFour(t: seq<Unit>, tail: seq<Byte>)
    requires t != [] && FirstUnits(t) == 2
    ensures FirstBytes(EncodeFirst(t) + tail) == 4 && DecodeFirst(EncodeFirst(t) + tail) == t[..2]
  {
    hide FirstBytes, DecodeFirst, EncodeFirst;
    PairRoundTrip(t[0] as int - 0xD800, t[1] as int - 0xDC00);
    var code := (t[0] as int - 0xD800) * 0x400 + (t[1] as int - 0xDC00) + 0x10000;
    var s := EncodeFirst(t) + tail;
    FourBytes(t, tail);
    DecodeFourBytes(s, code / 0x40000, code / 0x1000 % 0x40, code / 0x40 % 0x40, code % 0x40, code - 0x10000);
  }

  lemma FourBytes(t: seq<Unit>, tail: seq<Byte>)
    requires t != [] && FirstUnits(t) == 2
    ensures var code := (t[0] as int - 0xD800) * 0x400 + (t[1] as int - 0xDC00) + 0x10000;
            var s := EncodeFirst(t) + tail;
            && |EncodeFirst(t)| == 4
            && s[0] as int == 0xF0 + code / 0x40000 && s[1] as int == 0x80 + code / 0x1000 % 0x40
            && s[2] as int == 0x80 + code / 0x40 % 0x40 && s[3] as int == 0x80 + code % 0x40
  {
  }

  lemma DecodeFourBytes(s: seq<Byte>, a: int, b: int, c: int, d: int, code: int)
    requires |s| >= 4 && 0 <= a <= 4 && 0 <= b < 0x40 && 0 <= c < 0x40 && 0 <= d < 0x40
    requires s[0] as int == 0xF0 + a && s[1] as int == 0x80 + b && s[2] as int == 0x80 + c && s[3] as int == 0x80 + d
    requires (a == 0 ==> b >= 0x10) && (a == 4 ==> b < 0x10)
    requires code == a * 0x40000 + b * 0x1000 + c * 0x40 + d - 0x10000
    ensures FirstBytes(s) == 4
    ensures 0 <= code < 0x100000
    ensures DecodeFirst(s) == [(0xD800 + code / 0x400) as Unit, (0xDC00 + code % 0x400) as Unit]
  {
    assert FirstBytes(s) == 4;
  }

  lemma FirstRoundTrip(t: seq<Unit>, tail: seq<Byte>)
    requires t != []
    ensures var out := EncodeFirst(t);
            FirstBytes(out + tail) == |out| && DecodeFirst(out + tail) == RepairedFirst(t)
  {
    hide FirstBytes, DecodeFirst;
    if FirstUnits(t) == 2 {
      DecodeFour(t, tail);
    } else if t[0] < 0x80 {
      DecodeSingle(t[0] as Byte, tail);
    } else if t[0] < 0x800 {
      DecodeTwo(t[0], tail);
    } else {
      DecodeThree(if IsHigh(t[0]) || IsLow(t[0]) then REPLACEMENT else t[0], tail);
    }
  }

  lemma DecodeSingle(b: Byte, tail: seq<Byte>)
    requires b < 0x80
    ensures FirstBytes([b] + tail) == 1 && DecodeFirst([b] + tail) == [b as Unit]
  {
  }

  /** Decoding undoes encoding, up to unpaired surrogates. */
  lemma {:induction false} EncodeRoundTrip(t: seq<Unit>)
    ensures Decode(Encode(t)) == Repaired(t)
    decreases |t|
  {
    hide DecodeFirst, FirstBytes, EncodeFirst, RepairedFirst;
    if t != [] {
      var out, tail := EncodeFirst(t), Encode(t[FirstUnits(t)..]);
      FirstRoundTrip(t, tail);
      EncodeRoundTrip(t[FirstUnits(t)..]);
      assert (out + tail)[|out|..] == tail;
    }
  }

  /** The code point of the first character: of a surrogate pair, of a unit, or U+FFFD for an unpaired
      surrogate. */
  function FirstCode(t: seq<Unit>): int
    requires t != []
  {
    var u := t[0] as int;
    if !(0xD800 <= u <= 0xDFFF) then u
    else if u <= 0xDBFF && |t| > 1 && 0xDC00 <= t[1] <= 0xDFFF
    then 0x10000 + 0x400 * (u - 0xD800) + (t[1] as int - 0xDC00)
    else 0xFFFD
  }

  /** The payload of a sequence: what the lead byte holds above its marker `lead`, then six bits a byte. */
  function SequenceValue(out: seq<Byte>, lead: int): int
    requires out != []
  {
    if |out| == 1 then out[0] as int - lead
    else 0x40 * SequenceValue(out[..|out| - 1], lead) + (out[|out| - 1] as int - 0x80)
  }

  /** Section 3 of RFC 3629: the shortest of one to four bytes, the marker bits of the lead byte telling how
      many, whose payload is the code point. */
  predicate IsSequenceOf(out: seq<Byte>, code: int) {
    && |out| == (if code <= 0x7F then 1 else if code <= 0x7FF then 2 else if code <= 0xFFFF then 3 else 4)
    && var lead := if |out| == 1 then 0 else if |out| == 2 then 0xC0 else if |out| == 3 then 0xE0 else 0xF0;
    && SequenceValue(out, lead) == code
    && lead <= out[0] as int < lead + (if |out| == 1 then 0x80 else if |out| == 2 then 0x20
                                       else if |out| == 3 then 0x10 else 8)
    && forall i | 1 <= i < |out| :: 0x80 <= out[i] < 0xC0
  }

  /** Encoding goes character by character, each in its standard form. */
  lemma EncodingIsStandard(t: seq<Unit>)
    requires t != []
    ensures IsSequenceOf(EncodeFirst(t), FirstCode(t))
    ensures Encode(t) == EncodeFirst(t) + Encode(t[if FirstCode(t) > 0xFFFF then 2 else 1..])
  {
    hide IsSequenceOf, EncodeFirst, Encode;
    EncodeStep(t);
    if FirstUnits(t) == 2 {
      PairForm(t);
    } else {
      SingleForm(t);
    }
  }

  lemma PairForm(t: seq<Unit>)
    requires t != [] && FirstUnits(t) == 2
    ensures FirstCode(t) > 0xFFFF && IsSequenceOf(EncodeFirst(t), FirstCode(t))
  {
    hide EncodeFirst;
    PairRoundTrip(t[0] as int - 0xD800, t[1] as int - 0xDC00);
    FourBytes(t, []);
    assert EncodeFirst(t) + [] == EncodeFirst(t);
    SequenceValueOf(EncodeFirst(t), 0xF0);
  }

  lemma SingleForm(t: seq<Unit>)
    requires t != [] && FirstUnits(t) == 1
    ensures FirstCode(t) <= 0xFFFF && IsSequenceOf(EncodeFirst(t), FirstCode(t))
  {
    hide SequenceValue;
    var out, code := EncodeFirst(t), FirstCode(t);
    SequenceValueOf(out, if |out| == 1 then 0 else if |out| == 2 then 0xC0 else 0xE0);
    if code > 0x7FF {
      TripleRoundTrip(code);
    }
  }

  lemma SequenceValueOf(out: seq<Byte>, lead: int)
    requires 1 <= |out| <= 4
    ensures |out| == 1 ==> SequenceValue(out, lead) == out[0] as int - lead
    ensures |out| == 2 ==> SequenceValue(out, lead) == (out[0] as int - lead) * 0x40 + (out[1] as int - 0x80)
    ensures |out| == 3 ==>
              SequenceValue(out, lead)
              == (out[0] as int - lead) * 0x1000 + (out[1] as int - 0x80) * 0x40 + (out[2] as int - 0x80)
    ensures |out| == 4 ==>
              SequenceValue(out, lead) == (out[0] as int - lead) * 0x40000 + (out[1] as int - 0x80) * 0x1000
                                    + (out[2] as int - 0x80) * 0x40 + (out[3] as int - 0x80)
  {
    if |out| > 1 {
      SequenceValueOf(out[..|out| - 1], lead);
    }
  }

  lemma EncodeStep(t: seq<Unit>)
    requires t != []
    ensures Encode(t) == EncodeFirst(t) + Encode(t[FirstUnits(t)..])
  {
  }

  /** Only unpaired surrogates are changed, to U+FFFD. */
  lemma {:induction false} RepairedUnits(t: seq<Unit>, i: nat)
    requires i < |t|
    ensures var high, low := 0xD800 <= t[i] <= 0xDBFF, 0xDC00 <= t[i] <= 0xDFFF;
            && (!high && !low ==> Repaired(t)[i] == t[i])
            && (high ==> Repaired(t)[i] == if i + 1 < |t| && 0xDC00 <= t[i + 1] <= 0xDFFF then t[i] else 0xFFFD)
            && (low ==> Repaired(t)[i] == if i > 0 && 0xD800 <= t[i - 1] <= 0xDBFF then t[i] else 0xFFFD)
    decreases |t|
  {
    var n := FirstUnits(t);
    if i >= n {
      RepairedUnits(t[n..], i - n);
    }
  }

  /** The first `n` bytes begin a character of several bytes: table 3-7 of the Unicode Standard. */
  predicate Begins(s: seq<Byte>, n: nat) {
    && 1 <= n <= |s| && 0xC2 <= s[0] <= 0xF4
    && (n >= 2 ==>
          if s[0] == 0xE0 then 0xA0 <= s[1] <= 0xBF
          else if s[0] == 0xED then 0x80 <= s[1] <= 0x9F
          else if s[0] == 0xF0 then 0x90 <= s[1] <= 0xBF
          else if s[0] == 0xF4 then 0x80 <= s[1] <= 0x8F
          else 0x80 <= s[1] <= 0xBF)
    && (n >= 3 ==> s[0] >= 0xE0 && 0x80 <= s[2] <= 0xBF)
    && (n >= 4 ==> s[0] >= 0xF0 && 0x80 <= s[3] <= 0xBF)
    && n <= 4
  }

  /** A byte that cannot begin a character, and the longest beginning of one that is broken off, each become
      one U+FFFD; decoding goes on right behind it. */
  lemma MalformedIsReplaced(s: seq<Byte>, n: nat)
    requires s != [] && s[0] >= 0x80
    requires if Begins(s, 1) then Begins(s, n) && !Begins(s, n + 1) else n == 1
    requires Begins(s, 1) ==> n < if s[0] < 0xE0 then 2 else if s[0] < 0xF0 then 3 else 4
    ensures Decode(s) == [0xFFFD] + Decode(s[n..])
  {
    DecodeStep(s);
    hide Decode;
    assert FirstBytes(s) == n;
  }

  /** Only ASCII text has as many bytes as units. */
  lemma {:induction false} EncodedLength(t: seq<Unit>)
    ensures |Encode(t)| >= |t|
    ensures |Encode(t)| == |t| <==> AsciiText(t)
    decreases |t|
  {
    if t != [] {
      EncodedLength(t[FirstUnits(t)..]);
      FirstLength(t);
    }
  }

  lemma FirstLength(t: seq<Unit>)
    requires t != []
    ensures |EncodeFirst(t)| == FirstUnits(t) <==> t[0] < 0x80
    ensures t[0] < 0x80 ==> FirstUnits(t) == 1
  {
  }

  lemma EncodeOne(t: seq<Unit>)
    requires t != [] && t[0] < 0x80
    ensures Encode(t) == [t[0] as Byte] + Encode(t[1..])
  {
    assert FirstUnits(t) == 1;
  }

  /** ASCII encodes to itself in front of anything. */
  lemma {:induction false} EncodeAscii(s: seq<Byte>, tail: seq<Unit>)
    requires Ascii(s)
    ensures Encode(Widen(s) + tail) == s + Encode(tail)
  {
    hide Encode;
    if s == [] {
      assert Widen(s) + tail == tail;
    } else {
      EncodeOne(Widen(s) + tail);
      assert (Widen(s) + tail)[1..] == Widen(s[1..]) + tail;
      EncodeAscii(s[1..], tail);
    }
  }

  lemma FirstUnitsBeforeAscii(t: seq<Unit>, tail: seq<Unit>)
    requires t != [] && (tail == [] || tail[0] < 0x80)
    ensures FirstUnits(t + tail) == FirstUnits(t) && EncodeFirst(t + tail) == EncodeFirst(t)
  {
  }

  /** Encoding can be cut in front of an ASCII unit. */
  lemma {:induction false} EncodeSplits(t: seq<Unit>, tail: seq<Unit>)
    requires tail == [] || tail[0] < 0x80
    ensures Encode(t + tail) == Encode(t) + Encode(tail)
    decreases |t|
  {
    hide EncodeFirst, FirstUnits;
    if t == [] {
      assert t + tail == tail;
    } else {
      var n := FirstUnits(t);
      FirstUnitsBeforeAscii(t, tail);
      assert (t + tail)[n..] == t[n..] + tail;
      EncodeSplits(t[n..], tail);
    }
  }
}
