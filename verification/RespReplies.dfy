/** Redis replies on the wire, what the parser makes of them, and when that is what they say. */
module RespReplies {
  import opened Common
  import opened Utf8
  import opened Resp

  /** The reply types of RESP2; a `Bulk` payload is binary-safe. */
  datatype Reply =
    | Simple(s: Bytes)
    | Failure(s: Bytes)
    | Integer(n: int)
    | NoBulk
    | Bulk(p: Bytes)
    | Array(items: seq<Reply>)

  function Line(kind: Byte, h: Bytes): Bytes { [kind] + h + CRLF }

  function Wire(r: Reply): (w: Bytes)
    ensures |w| > 0
    decreases r, 0
  {
    match r
    case Simple(s) => Line(PLUS, s)
    case Failure(s) => Line(MINUS, s)
    case Integer(n) => Line(COLON, IntBytes(n))
    case NoBulk => Line(DOLLAR, IntBytes(-1))
    case Bulk(p) => Line(DOLLAR, IntBytes(|p|)) + p + CRLF
    case Array(items) => Line(STAR, IntBytes(|items|)) + WireAll(items)
  }

  function WireAll(items: seq<Reply>): Bytes
    decreases items, 1
  {
    if items == [] then [] else Wire(items[0]) + WireAll(items[1..])
  }

  /** The value a reply stands for; an error inside an array stands for null. */
  function Meaning(r: Reply): Value
    decreases r, 0
  {
    match r
    case Simple(s) => Str(Decode(s))
    case Failure(_) => Null
    case Integer(n) => Num(Int(n))
    case NoBulk => Null
    case Bulk(p) => Str(Decode(p))
    case Array(items) => List(MeaningAll(items))
  }

  function MeaningAll(items: seq<Reply>): (vs: seq<Value>)
    ensures |vs| == |items|
    decreases items, 1
  {
    if items == [] then [] else [Meaning(items[0])] + MeaningAll(items[1..])
  }

  function Result(r: Reply): Parsed {
    Parsed(Meaning(r), if r.Failure? then Some(Decode(r.s)) else None)
  }

  /** One text unit per byte: no multi-byte sequence is decoded. */
  predicate Compact(p: Bytes) { |Decode(p)| == |p| }

  /** The array loop steps over exactly this reply. */
  predicate Skippable(r: Reply) {
    match r
    case Simple(s) => Compact(s)
    case Failure(s) => Compact(s)
    case Integer(_) => true
    case NoBulk => true
    case Bulk(p) => p != []
    case Array(items) => items == []
  }

  /** Lines hold no CR, and inside arrays everything but the last element can be stepped over. */
  predicate Framed(r: Reply)
    decreases r, 0
  {
    match r
    case Simple(s) => CR !in s
    case Failure(s) => CR !in s
    case Array(items) => FramedAll(items)
    case _ => true
  }

  predicate FramedAll(items: seq<Reply>)
    decreases items, 1
  {
    items != [] ==>
      && Framed(items[0]) && FramedAll(items[1..])
      && (|items| > 1 ==> Skippable(items[0]))
  }

  predicate BulksCompact(r: Reply)
    decreases r, 0
  {
    match r
    case Bulk(p) => Compact(p)
    case Array(items) => AllBulksCompact(items)
    case _ => true
  }

  predicate AllBulksCompact(items: seq<Reply>)
    decreases items, 1
  {
    items != [] ==> BulksCompact(items[0]) && AllBulksCompact(items[1..])
  }

  // ------------------------------------------------------------ reading one line

  lemma {:induction false} CrlfAfter(a: Text, rest: Text)
    requires 13 !in a
    ensures IndexOfCrlf(a + [13, 10] + rest) == Some(|a|)
  {
    var t := a + [13, 10] + rest;
    if a != [] {
      assert t[1..] == a[1..] + [13, 10] + rest;
      CrlfAfter(a[1..], rest);
      assert t[0] == a[0];
    }
  }

  lemma DecodedLine(kind: Byte, h: Bytes, rest: Bytes)
    requires kind < 0x80 && kind != CR && CR !in h
    ensures var t := Decode(Line(kind, h) + rest); var end := 1 + |Decode(h)|;
            && IndexOfCrlf(t) == Some(end)
            && t == [kind as Unit] + Decode(h) + [13, 10] + Decode(rest)
            && t[0] == kind as Unit && t[1..end] == Decode(h)
  {
    hide Decode, IndexOfCrlf;
    assert Line(kind, h) + rest == ([kind] + h) + (CRLF + rest);
    DecodeSplits([kind] + h, CRLF + rest);
    DecodeAscii([kind], h);
    DecodeAscii(CRLF, rest);
    assert Widen([kind]) == [kind as Unit] && Widen(CRLF) == [13, 10];
    var a := [kind as Unit] + Decode(h);
    if 13 in Decode(h) {
      DecodedUnitWasByte(h, 13);
      assert false;
    }
    assert Decode(Line(kind, h) + rest) == a + [13, 10] + Decode(rest);
    CrlfAfter(a, Decode(rest));
  }

  /** A line whose content is the decimal text of a number. */
  lemma NumberLine(kind: Byte, n: int, rest: Bytes)
    requires kind < 0x80 && kind != CR
    ensures var t := Decode(Line(kind, IntBytes(n)) + rest); var end := |Line(kind, IntBytes(n))| - 2;
            && IndexOfCrlf(t) == Some(end) && t[0] == kind as Unit
            && ToNumber(t[1..end]) == Int(n)
            && |t| >= end + 2 && t[end + 2..] == Decode(rest)
  {
    hide Decode, IndexOfCrlf, ToNumber;
    var h := IntBytes(n);
    DecodedLine(kind, h, rest);
    NumberRoundTrip(n);
    DecodeAscii(h, []);
    assert h + [] == h && Widen(h) + Decode([]) == Widen(h) by { EmptyDecodes(); }
  }


  // ------------------------------------------------------------ reading one reply

  /** What `text.slice` takes for a bulk of |p| bytes: as many text units, whatever they come from. */
  function BulkText(p: Bytes, rest: Bytes): Text {
    Slice(Decode(p) + [13, 10] + Decode(rest), 0, |p|)
  }

  lemma BulkTextIsRight(p: Bytes, rest: Bytes)
    ensures BulkText(p, rest) == Decode(p) <==> Compact(p)
  {
    hide Decode;
    var t := Decode(p) + [13, 10] + Decode(rest);
    assert |Decode(p)| <= |p|;
    if Compact(p) {
      assert t[0..|p|] == Decode(p);
    } else {
      assert |BulkText(p, rest)| > |Decode(p)|;
    }
  }

  /** What the parser reads at the start of `Wire(r) + rest`. */
  function Read(r: Reply, rest: Bytes): Value
    decreases r, 0
  {
    match r
    case Bulk(p) => Str(BulkText(p, rest))
    case Array(items) => List(ReadAll(items, rest))
    case _ => Meaning(r)
  }

  function ReadAll(items: seq<Reply>, rest: Bytes): (vs: seq<Value>)
    ensures |vs| == |items|
    decreases items, 1
  {
    if items == [] then [] else [Read(items[0], WireAll(items[1..]) + rest)] + ReadAll(items[1..], rest)
  }

  function ReadResult(r: Reply, rest: Bytes): Parsed {
    Parsed(Read(r, rest), if r.Failure? then Some(Decode(r.s)) else None)
  }

  lemma ParseLine(kind: Byte, h: Bytes, rest: Bytes)
    requires CR !in h && (kind == PLUS || kind == MINUS)
    ensures Parse(Line(kind, h) + rest)
            == Some(if kind == PLUS then Parsed(Str(Decode(h)), None) else Parsed(Null, Some(Decode(h))))
  {
    hide Decode, IndexOfCrlf, Line;
    DecodedLine(kind, h, rest);
  }

  lemma ParseInteger(n: int, rest: Bytes)
    ensures Parse(Wire(Integer(n)) + rest) == Some(Parsed(Num(Int(n)), None))
  {
    hide Decode, IndexOfCrlf, Line, ToNumber;
    LineLength(COLON, n);
    NumberLine(COLON, n, rest);
  }

  lemma LineLength(kind: Byte, n: int)
    ensures |Line(kind, IntBytes(n))| >= 4
  {
  }

  lemma ParseNoBulk(rest: Bytes)
    ensures Parse(Wire(NoBulk) + rest) == Some(Parsed(Null, None))
  {
    hide Decode, IndexOfCrlf, Line, ToNumber;
    LineLength(DOLLAR, -1);
    NumberLine(DOLLAR, -1, rest);
  }

  lemma SliceShift(t: Text, start: nat, n: nat)
    requires start <= |t|
    ensures Slice(t, start, start + n) == Slice(t[start..], 0, n)
  {
  }

  lemma ParseBulkReply(p: Bytes, rest: Bytes)
    ensures Parse(Wire(Bulk(p)) + rest) == Some(Parsed(Str(BulkText(p, rest)), None))
  {
    hide Decode, IndexOfCrlf, Line, ToNumber, Slice;
    var h := Line(DOLLAR, IntBytes(|p|));
    var b, after := Wire(Bulk(p)) + rest, p + (CRLF + rest);
    assert b == h + after;
    LineLength(DOLLAR, |p|);
    NumberLine(DOLLAR, |p|, after);
    DecodeSplits(p, CRLF + rest);
    DecodeAscii(CRLF, rest);
    assert Widen(CRLF) == [13, 10];
    assert Decode(after) == Decode(p) + [13, 10] + Decode(rest);
    SliceShift(Decode(b), |h|, |p|);
    assert Parse(b) == ParseBulk(b, Decode(b), |h|, Int(|p|));
  }

  lemma ParseArray(n: nat, body: Bytes)
    ensures Parse(Line(STAR, IntBytes(n)) + body)
            == var vs := ParseItems(body, n); if vs.None? then None else Some(Parsed(List(vs.value), None))
  {
    hide Decode, IndexOfCrlf, Line, ToNumber, ParseItems;
    var h := Line(STAR, IntBytes(n));
    LineLength(STAR, n);
    NumberLine(STAR, n, body);
    assert Subarray(h + body, |h|) == body;
  }

  /** RESP2's null array is read as an array without elements. */
  lemma NullArrayIsReadAsEmpty(rest: Bytes)
    ensures Parse(Line(STAR, IntBytes(-1)) + rest) == Some(Parsed(List([]), None))
  {
    hide Decode, IndexOfCrlf, Line, ToNumber;
    LineLength(STAR, -1);
    NumberLine(STAR, -1, rest);
  }

  // ------------------------------------------------------------ stepping over one reply

  lemma AdvanceLine(kind: Byte, h: Bytes, rest: Bytes)
    requires CR !in h && (kind == PLUS || kind == MINUS)
    ensures Advance(Line(kind, h) + rest) == |Line(kind, h)| - |h| + |Decode(h)|
  {
    hide Decode, IndexOfCrlf;
    DecodedLine(kind, h, rest);
  }

  /** A numeric line, and the payload whose length it may announce. */
  lemma AdvanceNumber(kind: Byte, n: int, rest: Bytes)
    requires kind < 0x80 && kind != CR
    ensures Advance(Line(kind, IntBytes(n)) + rest)
            == |Line(kind, IntBytes(n))| + if kind == DOLLAR && n > 0 then n + 2 else 0
  {
    hide Decode, IndexOfCrlf, Line, ToNumber;
    LineLength(kind, n);
    NumberLine(kind, n, rest);
    var t, end := Decode(Line(kind, IntBytes(n)) + rest), |Line(kind, IntBytes(n))| - 2;
    assert Slice(t, 1, end) == t[1..end];
  }

  lemma SkipsReply(r: Reply, rest: Bytes)
    requires Framed(r) && Skippable(r)
    ensures Subarray(Wire(r) + rest, Advance(Wire(r) + rest)) == rest
  {
    hide Decode, Advance, IntBytes;
    match r
    case Simple(s) => AdvanceLine(PLUS, s, rest);
    case Failure(s) => AdvanceLine(MINUS, s, rest);
    case Integer(n) => AdvanceNumber(COLON, n, rest);
    case NoBulk => AdvanceNumber(DOLLAR, -1, rest);
    case Bulk(p) =>
      AdvanceNumber(DOLLAR, |p|, p + CRLF + rest);
      assert Wire(r) + rest == Line(DOLLAR, IntBytes(|p|)) + (p + CRLF + rest);
    case Array(items) =>
      AdvanceNumber(STAR, 0, rest);
      assert WireAll(items) == [] && Wire(r) == Line(STAR, IntBytes(0)) + [] == Line(STAR, IntBytes(0));
  }

  // ------------------------------------------------------------ reading whole trees

  lemma {:induction false} ParseReply(r: Reply, rest: Bytes)
    requires Framed(r)
    ensures Parse(Wire(r) + rest) == Some(ReadResult(r, rest))
    decreases r, 0
  {
    hide Parse, Decode, Line, BulkText;
    match r
    case Simple(s) => ParseLine(PLUS, s, rest);
    case Failure(s) => ParseLine(MINUS, s, rest);
    case Integer(n) => ParseInteger(n, rest);
    case NoBulk => ParseNoBulk(rest);
    case Bulk(p) => ParseBulkReply(p, rest);
    case Array(items) =>
      ParseArray(|items|, WireAll(items) + rest);
      assert Wire(r) + rest == Line(STAR, IntBytes(|items|)) + (WireAll(items) + rest);
      ParseAll(items, rest);
  }

  lemma {:induction false} ParseAll(items: seq<Reply>, rest: Bytes)
    requires FramedAll(items)
    ensures ParseItems(WireAll(items) + rest, |items|) == Some(ReadAll(items, rest))
    decreases items, 1
  {
    hide Parse, Wire, Read, Skippable, Advance, Subarray;
    if items != [] {
      var more := WireAll(items[1..]) + rest;
      var b := WireAll(items) + rest;
      assert b == Wire(items[0]) + more;
      ParseReply(items[0], more);
      if |items| == 1 {
        assert ParseItems(Subarray(b, Advance(b)), 0) == Some([]);
      } else {
        SkipsReply(items[0], more);
        ParseAll(items[1..], rest);
      }
    }
  }

  lemma {:induction false} ReadIsMeaning(r: Reply, rest: Bytes)
    ensures Read(r, rest) == Meaning(r) <==> BulksCompact(r)
    decreases r, 0
  {
    match r
    case Bulk(p) => BulkTextIsRight(p, rest);
    case Array(items) => ReadAllIsMeaning(items, rest);
    case _ =>
  }

  lemma {:induction false} ReadAllIsMeaning(items: seq<Reply>, rest: Bytes)
    ensures ReadAll(items, rest) == MeaningAll(items) <==> AllBulksCompact(items)
    decreases items, 1
  {
    if items != [] {
      ReadIsMeaning(items[0], WireAll(items[1..]) + rest);
      ReadAllIsMeaning(items[1..], rest);
      var a, b := ReadAll(items, rest), MeaningAll(items);
      assert a[1..] == ReadAll(items[1..], rest) && b[1..] == MeaningAll(items[1..]);
      ConsEqual(a[0], a[1..], b[0], b[1..]);
    }
  }

  /** A framed reply, followed by anything, is always complete, and is read as what it says exactly
      when no bulk in it holds a multi-byte character. */
  lemma FramedReplyIsRead(r: Reply, rest: Bytes)
    requires Framed(r)
    ensures Parse(Wire(r) + rest).Some?
    ensures Parse(Wire(r) + rest) == Some(Result(r)) <==> BulksCompact(r)
  {
    hide Parse, Read, Meaning, BulksCompact, Framed;
    ParseReply(r, rest);
    ReadIsMeaning(r, rest);
  }

  // ------------------------------------------------------------ incomplete replies

  /** A strict prefix. */
  predicate Cut(q: Bytes, whole: Bytes) { |q| < |whole| && q <= whole }

  lemma {:induction false} NoCrlf(a: Text)
    requires 13 !in a
    ensures IndexOfCrlf(a) == IndexOfCrlf(a + [13]) == None
  {
    if a != [] {
      assert (a + [13])[1..] == a[1..] + [13];
      NoCrlf(a[1..]);
    }
  }

  lemma CutLine(kind: Byte, h: Bytes, q: Bytes)
    requires kind < 0x80 && kind != CR && CR !in h
    requires Cut(q, Line(kind, h))
    ensures Parse(q) == None
  {
    hide Decode, IndexOfCrlf;
    var all := [kind] + h;
    var whole := if |q| <= |all| then q else all;
    assert CR !in whole by {
      assert forall i | 0 <= i < |whole| :: whole[i] == Line(kind, h)[i] == all[i];
    }
    if 13 in Decode(whole) {
      DecodedUnitWasByte(whole, 13);
      assert false;
    }
    NoCrlf(Decode(whole));
    if |q| > |all| {
      assert q == all + [CR];
      DecodeSplits(all, [CR]);
      DecodeAscii([CR], []);
      EmptyDecodes();
      assert [CR] + [] == [CR] && Widen([CR]) + [] == [13];
    }
  }

  lemma CutBulk(p: Bytes, q: Bytes)
    requires Cut(q, Wire(Bulk(p)))
    ensures Parse(q) == None
  {
    hide Decode, IndexOfCrlf, Line, ToNumber, Slice;
    var h := Line(DOLLAR, IntBytes(|p|));
    if |q| < |h| {
      assert q == Wire(Bulk(p))[..|q|] == h[..|q|];
      CutLine(DOLLAR, IntBytes(|p|), q);
    } else {
      LineLength(DOLLAR, |p|);
      NumberLine(DOLLAR, |p|, q[|h|..]);
      assert q == h + q[|h|..];
      assert Parse(q) == ParseBulk(q, Decode(q), |h|, Int(|p|));
    }
  }

  /** No strict prefix of a framed reply is taken for a reply. */
  lemma {:induction false} CutReplyIsIncomplete(r: Reply, q: Bytes)
    requires Framed(r) && Cut(q, Wire(r))
    ensures Parse(q) == None
    decreases r, 0
  {
    hide Parse, Decode, Line;
    match r
    case Simple(s) => CutLine(PLUS, s, q);
    case Failure(s) => CutLine(MINUS, s, q);
    case Integer(n) => CutLine(COLON, IntBytes(n), q);
    case NoBulk => CutLine(DOLLAR, IntBytes(-1), q);
    case Bulk(p) => CutBulk(p, q);
    case Array(items) =>
      var h := Line(STAR, IntBytes(|items|));
      if |q| < |h| {
        assert q == Wire(r)[..|q|] == h[..|q|];
        CutLine(STAR, IntBytes(|items|), q);
      } else {
        assert q == h + q[|h|..] && q[|h|..] <= WireAll(items);
        ParseArray(|items|, q[|h|..]);
        CutItemsAreIncomplete(items, q[|h|..]);
      }
  }

  lemma {:induction false} CutItemsAreIncomplete(items: seq<Reply>, q: Bytes)
    requires FramedAll(items) && Cut(q, WireAll(items))
    ensures ParseItems(q, |items|) == None
    decreases items, 1
  {
    hide Parse, Wire, Skippable, Advance, Subarray;
    var w := Wire(items[0]);
    if |q| < |w| {
      assert q == WireAll(items)[..|q|] == w[..|q|];
      CutReplyIsIncomplete(items[0], q);
    } else {
      assert q == w + q[|w|..] && q[|w|..] <= WireAll(items[1..]);
      ParseReply(items[0], q[|w|..]);
      SkipsReply(items[0], q[|w|..]);
      CutItemsAreIncomplete(items[1..], q[|w|..]);
    }
  }

  // ------------------------------------------------------------ flat arrays

  /** No array, and if it is a line, one without CR and multi-byte characters. */
  predicate IsLeaf(r: Reply) { !r.Array? && Framed(r) && (r.Bulk? || Skippable(r)) }

  predicate Flat(items: seq<Reply>) { forall i | 0 <= i < |items| :: IsLeaf(items[i]) }

  /** Bulks hold no multi-byte character, and only the last element is an empty bulk. */
  predicate BulksReadable(items: seq<Reply>) {
    forall i | 0 <= i < |items| ::
      items[i].Bulk? ==> Compact(items[i].p) && (i < |items| - 1 ==> items[i].p != [])
  }

  /** After an empty bulk the array loop resumes two bytes early, at a line it cannot read. */
  lemma EmptyBulkStallsLoop(rest: Bytes)
    ensures Parse(Subarray(Wire(Bulk([])) + rest, Advance(Wire(Bulk([])) + rest))) == None
  {
    hide Decode, IndexOfCrlf, Line, Advance;
    var h := Line(DOLLAR, IntBytes(0));
    var b := Wire(Bulk([])) + rest;
    assert b == h + (CRLF + rest);
    AdvanceNumber(DOLLAR, 0, CRLF + rest);
    assert Subarray(b, |h|) == CRLF + rest;
    DecodeAscii(CRLF, rest);
    assert Widen(CRLF) == [] + [13, 10];
    CrlfAfter([], Decode(rest));
  }

  /** For flat arrays the two conditions are exactly what correct reading needs. */
  lemma {:induction false} FlatItemsAreRead(items: seq<Reply>, rest: Bytes)
    requires Flat(items)
    ensures ParseItems(WireAll(items) + rest, |items|) == Some(MeaningAll(items)) <==> BulksReadable(items)
  {
    hide Parse, Wire, Read, Skippable, Framed, Advance, Subarray, Compact, Meaning;
    if items != [] {
      var first, tail := items[0], items[1..];
      var more := WireAll(tail) + rest;
      assert WireAll(items) + rest == Wire(first) + more;
      ParseReply(first, more);
      ReadFirst(first, more);
      assert BulksReadable(items) <==>
             (first.Bulk? ==> Compact(first.p) && (tail != [] ==> first.p != [])) && BulksReadable(tail) by {
        ReadableTail(items);
      }
      if tail == [] {
        assert ParseItems(Subarray(Wire(first) + more, Advance(Wire(first) + more)), 0) == Some([]);
        ConsEqual(Read(first, more), [], Meaning(first), MeaningAll(tail));
      } else if first == Bulk([]) {
        EmptyBulkStallsLoop(more);
        assert ParseItems(Subarray(Wire(first) + more, Advance(Wire(first) + more)), |tail|) == None;
      } else {
        NonEmptySkips(first);
        SkipsReply(first, more);
        FlatItemsAreRead(tail, rest);
        var others := ParseItems(more, |tail|);
        if others.Some? {
          ConsEqual(Read(first, more), others.value, Meaning(first), MeaningAll(tail));
        }
      }
    }
  }

  lemma ConsEqual(a: Value, x: seq<Value>, b: Value, y: seq<Value>)
    ensures [a] + x == [b] + y <==> a == b && x == y
  {
    if [a] + x == [b] + y {
      assert ([a] + x)[0] == ([b] + y)[0] && ([a] + x)[1..] == ([b] + y)[1..];
    }
  }

  lemma ReadFirst(r: Reply, rest: Bytes)
    requires !r.Array?
    ensures Read(r, rest) == Meaning(r) <==> (r.Bulk? ==> Compact(r.p))
  {
    ReadIsMeaning(r, rest);
  }

  lemma NonEmptySkips(r: Reply)
    requires r != Bulk([]) && (r.Bulk? || Skippable(r))
    ensures Skippable(r)
  {
  }

  lemma ReadableTail(items: seq<Reply>)
    requires items != []
    ensures BulksReadable(items) <==>
            (items[0].Bulk? ==> Compact(items[0].p) && (items[1..] != [] ==> items[0].p != []))
            && BulksReadable(items[1..])
  {
    hide Compact;
    if BulksReadable(items) {
      assert forall i | 0 <= i < |items| - 1 :: items[1..][i] == items[i + 1];
    }
    if BulksReadable(items[1..]) {
      forall i | 1 <= i < |items|
        ensures items[i].Bulk? ==> Compact(items[i].p) && (i < |items| - 1 ==> items[i].p != [])
      {
        assert items[i] == items[1..][i - 1];
      }
    }
  }

  lemma FlatArrayIsRead(items: seq<Reply>, rest: Bytes)
    requires Flat(items)
    ensures Parse(Wire(Array(items)) + rest) == Some(Result(Array(items))) <==> BulksReadable(items)
  {
    hide Parse, Line, MeaningAll, Flat, BulksReadable, ParseItems;
    var r := Array(items);
    assert Wire(r) + rest == Line(STAR, IntBytes(|items|)) + (WireAll(items) + rest);
    ParseArray(|items|, WireAll(items) + rest);
    FlatItemsAreRead(items, rest);
  }
}
