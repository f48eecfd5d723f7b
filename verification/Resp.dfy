/** The Redis client's wire format (RESP2): command encoding, reply parsing, and chunked arrival. */
module Resp {
  import opened Common
  import opened Utf8
  import Decimal

  type Text = seq<Unit>

  type Bytes = seq<Byte>

  const CR: Byte := 13
  const CRLF: Bytes := [13, 10]
  const DOLLAR: Byte := 36
  const STAR: Byte := 42
  const PLUS: Byte := 43
  const MINUS: Byte := 45
  const COLON: Byte := 58

  // ------------------------------------------------------------ numbers as text

  datatype Number = NaN | Int(n: int)

  predicate IsDigits(t: Text) { forall i | 0 <= i < |t| :: 48 <= t[i] < 58 }

  function Digits(t: Text): (s: string)
    requires IsDigits(t)
    ensures |s| == |t| && Decimal.AllDigits(s)
  {
    seq(|t|, i requires 0 <= i < |t| => (t[i] as int) as char)
  }

  /** `Number(t)` on decimal integers; the empty text is zero. */
  function ToNumber(t: Text): Number {
    if t == [] then Int(0)
    else if t[0] == 45 && |t| > 1 && IsDigits(t[1..]) then Int(0 - (Decimal.FromDec(Digits(t[1..])) as int))
    else if IsDigits(t) then Int(Decimal.FromDec(Digits(t)))
    else NaN
  }

  function BytesOf(s: string): (b: Bytes)
    requires Decimal.AllDigits(s)
    ensures |b| == |s| && forall i | 0 <= i < |b| :: 48 <= b[i] < 58
  {
    seq(|s|, i requires 0 <= i < |s| => (s[i] as int) as Byte)
  }

  function NatBytes(n: nat): (b: Bytes)
    ensures |b| > 0 && forall i | 0 <= i < |b| :: 48 <= b[i] < 58
  {
    BytesOf(Decimal.ToDec(n))
  }

  function IntBytes(n: int): (b: Bytes)
    ensures |b| > 0 && Ascii(b) && CR !in b
  {
    if n < 0 then [MINUS] + NatBytes(0 - n) else NatBytes(n)
  }

  lemma NatDigits(n: nat)
    ensures var t := Widen(NatBytes(n)); IsDigits(t) && Digits(t) == Decimal.ToDec(n)
  {
  }

  lemma NumberRoundTrip(n: int)
    ensures ToNumber(Widen(IntBytes(n))) == Int(n)
  {
    hide Decimal.FromDec, Decimal.ToDec, Digits;
    var m: nat := if n < 0 then 0 - n else n;
    var t := Widen(NatBytes(m));
    NatDigits(m);
    Decimal.DecRoundTrip(m);
    if n < 0 {
      assert Widen(IntBytes(n))[1..] == t;
    } else {
      assert t[0] >= 48;
    }
  }

  /** Decimal integers are read digit by digit, a leading minus negates, and any other text but the empty
      one is not a number. */
  lemma NumberByDigits(t: Text, d: Unit)
    requires IsDigits(t) && 48 <= d < 58
    ensures ToNumber([]) == Int(0) && ToNumber(t).Int?
    ensures ToNumber(t + [d]) == Int(10 * ToNumber(t).n + (d as int - 48))
    ensures t != [] ==> ToNumber([45] + t) == Int(-ToNumber(t).n)
  {
    hide Decimal.FromDec;
    var more := t + [d];
    assert IsDigits(more) && more[0] != 45;
    assert Digits(more)[..|more| - 1] == Digits(t);
    LastDigit(Digits(more));
    assert ([45] + t)[1..] == t;
    LastDigit([]);
  }

  lemma LastDigit(s: string)
    requires Decimal.AllDigits(s)
    ensures Decimal.FromDec(s)
            == if s == [] then 0
               else 10 * Decimal.FromDec(s[..|s| - 1]) + ((s[|s| - 1] as int) - 48)
  {
  }

  lemma OtherwiseNaN(t: Text)
    ensures ToNumber(t) == NaN <==> t != [] && !IsDigits(t) && !(t[0] == 45 && |t| > 1 && IsDigits(t[1..]))
  {
  }

  // ------------------------------------------------------------ the parser

  datatype Value = Null | Num(number: Number) | Str(text: Text) | List(items: seq<Value>)

  datatype Parsed = Parsed(value: Value, error: Option<Text>)

  /** `t.indexOf('\r\n')` */
  function IndexOfCrlf(t: Text): (k: Option<nat>)
    ensures k.Some? ==> k.value + 2 <= |t| && t[k.value] == 13 && t[k.value + 1] == 10
  {
    if |t| < 2 then None
    else if t[0] == 13 && t[1] == 10 then Some(0)
    else
      var k := IndexOfCrlf(t[1..]);
      if k.None? then None else Some(k.value + 1)
  }

  /** `t.slice(from, to)` */
  function Slice(t: Text, from: nat, to: int): Text {
    var last := if to < 0 then Max(0, |t| + to) else Min(to, |t|);
    if from < last then t[from..last] else []
  }

  /** `buffer.subarray(offset)` */
  function Subarray(b: Bytes, offset: nat): Bytes { if offset <= |b| then b[offset..] else [] }

  /** What the array loop adds to its offset after a child at the start of `rest`. */
  function Advance(rest: Bytes): (k: nat) {
    var t := Decode(rest);
    var end := IndexOfCrlf(t);
    if end.None? then 0
    else
      var length := if t[0] == 36 then ToNumber(Slice(t, 1, end.value)) else Int(0);
      end.value + 2 + if length.Int? && length.n > 0 then length.n + 2 else 0
  }

  /** `parseResponse`; `None` while the response is incomplete. */
  function Parse(b: Bytes): (r: Option<Parsed>)
    decreases |b|, 0
  {
    var t := Decode(b);
    var end := IndexOfCrlf(t);
    if end.None? || end.value == 0 then None
    else
      var h, body := t[1..end.value], end.value + 2;
      if t[0] == 45 then Some(Parsed(Null, Some(h)))
      else if t[0] == 58 then Some(Parsed(Num(ToNumber(h)), None))
      else if t[0] == 43 then Some(Parsed(Str(h), None))
      else if t[0] == 42 then
        var count := ToNumber(h);
        var items := ParseItems(Subarray(b, body), if count.Int? then Max(0, count.n) else 0);
        if items.None? then None else Some(Parsed(List(items.value), None))
      else if t[0] == 36 then ParseBulk(b, t, body, ToNumber(h))
      else None
  }

  function ParseBulk(b: Bytes, t: Text, start: nat, length: Number): Option<Parsed> {
    if length == Int(-1) then Some(Parsed(Null, None))
    else if length.Int? && |b| < start + length.n + 2 then None
    else Some(Parsed(Str(if length.Int? then Slice(t, start, start + length.n) else []), None))
  }

  /** The values of `count` children, the first at the start of `rest`. */
  function ParseItems(rest: Bytes, count: nat): (r: Option<seq<Value>>)
    ensures r.Some? ==> |r.value| == count
    decreases |rest|, 1 + count
  {
    if count == 0 then Some([])
    else
      var first := Parse(rest);
      if first.None? then None
      else
        var others := ParseItems(Subarray(rest, Advance(rest)), count - 1);
        if others.None? then None else Some([first.value.value] + others.value)
  }

  /** The text has its first line break at `e`. */
  predicate FirstLineEnds(t: Text, e: nat) {
    BreaksAt(t, e) && forall i | 0 <= i < e :: !BreaksAt(t, i)
  }

  predicate BreaksAt(t: Text, i: int) { 0 <= i < |t| - 1 && t[i] == 13 && t[i + 1] == 10 }

  lemma {:induction false} CrlfIsFirst(t: Text, e: nat)
    ensures IndexOfCrlf(t) == Some(e) <==> FirstLineEnds(t, e)
  {
    if |t| >= 2 && !BreaksAt(t, 0) && e > 0 {
      CrlfIsFirst(t[1..], e - 1);
      assert forall i :: BreaksAt(t[1..], i) <==> i >= 0 && BreaksAt(t, i + 1);
      assert forall i | i > 0 :: BreaksAt(t, i) <==> BreaksAt(t[1..], i - 1);
    }
  }

  /** What any bytes whose text has a first line are read as, by that line's first character. */
  lemma LineOutcome(b: Bytes, e: nat)
    requires FirstLineEnds(Decode(b), e)
    ensures var t := Decode(b);
            if e == 0 || t[0] !in {45, 58, 43, 42, 36} then Parse(b) == None
            else
              var rest := t[1..e];
              && (t[0] == 45 ==> Parse(b) == Some(Parsed(Null, Some(rest))))
              && (t[0] == 58 ==> Parse(b) == Some(Parsed(Num(ToNumber(rest)), None)))
              && (t[0] == 43 ==> Parse(b) == Some(Parsed(Str(rest), None)))
              && (t[0] == 42 && (ToNumber(rest) == NaN || ToNumber(rest).n <= 0) ==>
                    Parse(b) == Some(Parsed(List([]), None)))
  {
    hide Decode, ToNumber;
    CrlfIsFirst(Decode(b), e);
  }

  /** A bulk header: -1 is null; a length that is not a number is an empty text; any other length waits until
      the buffer has that many bytes and two more behind the header, and then takes that many units of the
      text, a negative one counting from its end. */
  lemma BulkOutcome(b: Bytes, e: nat)
    requires FirstLineEnds(Decode(b), e) && e > 0 && Decode(b)[0] == 36
    ensures var t := Decode(b);
            match ToNumber(t[1..e]) {
              case NaN => Parse(b) == Some(Parsed(Str([]), None))
              case Int(n) =>
                var from := e + 2;
                if n == -1 then Parse(b) == Some(Parsed(Null, None))
                else if |b| < from + n + 2 then Parse(b) == None
                else
                  var to := if from + n >= 0 then Min(from + n, |t|) else Max(0, |t| + from + n);
                  Parse(b) == Some(Parsed(Str(if from <= to then t[from..to] else []), None))
            }
  {
    hide Decode, ToNumber;
    CrlfIsFirst(Decode(b), e);
  }

  /** Without a line break the response is incomplete, whatever its bytes. */
  lemma NoLineYet(b: Bytes)
    requires forall e: nat :: !FirstLineEnds(Decode(b), e)
    ensures Parse(b) == None
  {
    hide Decode;
    var end := IndexOfCrlf(Decode(b));
    if end.Some? {
      CrlfIsFirst(Decode(b), end.value);
    }
  }

  lemma SubarrayTwice(b: Bytes, i: nat, j: nat)
    ensures Subarray(Subarray(b, i), j) == Subarray(b, i + j)
  {
  }

  lemma ShorterSubarray(b: Bytes, offset: nat)
    requires b != [] && offset > 0
    ensures |Subarray(b, offset)| < |b|
  {
  }

  /** Values already read, then what is left to read. */
  function Prepend(values: seq<Value>, others: Option<seq<Value>>): Option<seq<Value>> {
    if others.None? then None else Some(values + others.value)
  }

  lemma PrependStep(values: seq<Value>, rest: Bytes, count: nat)
    requires count > 0
    ensures var first := Parse(rest);
            Prepend(values, ParseItems(rest, count))
            == if first.None? then None
               else Prepend(values + [first.value.value], ParseItems(Subarray(rest, Advance(rest)), count - 1))
  {
    hide Parse, Advance, Subarray;
    var first, others := Parse(rest), ParseItems(Subarray(rest, Advance(rest)), count - 1);
    if first.Some? && others.Some? {
      assert values + ([first.value.value] + others.value) == (values + [first.value.value]) + others.value;
    }
  }

  lemma PrependNothing(values: seq<Value>, rest: Bytes, count: nat)
    ensures Prepend([], ParseItems(rest, count)) == ParseItems(rest, count)
    ensures Prepend(values, ParseItems(rest, 0)) == Some(values)
  {
    var others := ParseItems(rest, count);
    assert others.Some? ==> [] + others.value == others.value;
    assert values + [] == values;
  }

  method ParseResponse(buffer: Bytes) returns (r: Option<Parsed>)
    ensures r == Parse(buffer)
    decreases |buffer|
  {
    hide ToNumber, Decode, IndexOfCrlf, ParseItems, Advance, Prepend, Subarray;
    var text := Decode(buffer);
    var end := IndexOfCrlf(text);
    if end.None? {
      return None;
    }
    var header := text[..end.value];
    if header == [] {
      return None;
    }
    assert header[1..] == text[1..end.value];
    if header[0] == 45 {
      return Some(Parsed(Null, Some(header[1..])));
    }
    if header[0] == 58 {
      return Some(Parsed(Num(ToNumber(header[1..])), None));
    }
    if header[0] == 43 {
      return Some(Parsed(Str(header[1..]), None));
    }
    if header[0] == 42 {
      var count := ToNumber(header[1..]);
      var times := if count.Int? then Max(0, count.n) else 0;
      var offset := end.value + 2;
      var values: seq<Value> := [];
      var index := 0;
      PrependNothing([], Subarray(buffer, offset), times);
      while index < times
        invariant 0 <= index <= times && offset >= 2
        invariant ParseItems(Subarray(buffer, end.value + 2), times)
                  == Prepend(values, ParseItems(Subarray(buffer, offset), times - index))
      {
        PrependStep(values, Subarray(buffer, offset), times - index);
        ShorterSubarray(buffer, offset);
        var parsed := ParseResponse(Subarray(buffer, offset));
        if parsed.None? {
          return None;
        }
        SubarrayTwice(buffer, offset, Advance(Subarray(buffer, offset)));
        values := values + [parsed.value.value];
        offset := offset + Advance(Subarray(buffer, offset));
        index := index + 1;
      }
      PrependNothing(values, Subarray(buffer, offset), 0);
      return Some(Parsed(List(values), None));
    }
    if header[0] == 36 {
      var length := ToNumber(header[1..]);
      if length == Int(-1) {
        return Some(Parsed(Null, None));
      }
      var start := end.value + 2;
      if length.Int? && |buffer| < start + length.n + 2 {
        return None;
      }
      return Some(Parsed(Str(if length.Int? then Slice(text, start, start + length.n) else []), None));
    }
    return None;
  }
}
