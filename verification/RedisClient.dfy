/** One Redis command: what is written to the socket, and how the chunks that come back settle it. */
module RedisClient {
  import opened Common
  import opened Utf8
  import opened Resp
  import opened RespReplies

  // ------------------------------------------------------------ the command

  function PartText(part: Text): Text {
    [36] + Widen(IntBytes(|Encode(part)|)) + [13, 10] + part + [13, 10]
  }

  function PartsText(parts: seq<Text>): Text {
    if parts == [] then [] else PartText(parts[0]) + PartsText(parts[1..])
  }

  /** The payload text of a command; `socket.write` sends it as UTF-8. */
  function Payload(parts: seq<Text>): Text { [42] + Widen(IntBytes(|parts|)) + [13, 10] + PartsText(parts) }

  /** The same parts as bulk strings. */
  function Bulks(parts: seq<Text>): (rs: seq<Reply>)
    ensures |rs| == |parts| && forall i | 0 <= i < |rs| :: rs[i] == Bulk(Encode(parts[i]))
  {
    if parts == [] then [] else [Bulk(Encode(parts[0]))] + Bulks(parts[1..])
  }

  /** The values that give the parts back, unpaired surrogates having been replaced on the way. */
  function Echo(parts: seq<Text>): (vs: seq<Value>)
    ensures |vs| == |parts| && forall i | 0 <= i < |vs| :: vs[i] == Str(Repaired(parts[i]))
  {
    if parts == [] then [] else [Str(Repaired(parts[0]))] + Echo(parts[1..])
  }

  lemma EncodedLine(kind: Byte, n: int, tail: Text)
    requires kind < 0x80
    ensures Encode([kind as Unit] + Widen(IntBytes(n)) + [13, 10] + tail) == Line(kind, IntBytes(n)) + Encode(tail)
  {
    hide Encode, IntBytes;
    var line := Line(kind, IntBytes(n));
    var t := [kind as Unit] + Widen(IntBytes(n)) + [13, 10];
    assert t == Widen(line);
    EncodeAscii(line, tail);
  }

  lemma EncodedPart(part: Text, tail: Text)
    ensures Encode(PartText(part) + tail) == Wire(Bulk(Encode(part))) + Encode(tail)
  {
    hide Encode, Line, IntBytes;
    var n, after := |Encode(part)|, [13, 10] + tail;
    EncodedLine(DOLLAR, n, part + after);
    assert PartText(part) + tail == [DOLLAR as Unit] + Widen(IntBytes(n)) + [13, 10] + (part + after);
    EncodeSplits(part, after);
    EncodeAscii(CRLF, tail);
    assert Widen(CRLF) + tail == after;
  }

  lemma {:induction false} EncodedParts(parts: seq<Text>)
    ensures Encode(PartsText(parts)) == WireAll(Bulks(parts))
  {
    hide PartText, Wire;
    if parts != [] {
      EncodedPart(parts[0], PartsText(parts[1..]));
      EncodedParts(parts[1..]);
      assert Bulks(parts)[1..] == Bulks(parts[1..]);
    }
  }

  /** The bytes of a command are the RESP array of its parts: the announced lengths are right for
      every text, ASCII or not. */
  lemma CommandIsWellFormed(parts: seq<Text>)
    ensures Encode(Payload(parts)) == Wire(Array(Bulks(parts)))
  {
    hide Encode, Line, IntBytes, PartsText, WireAll;
    EncodedLine(STAR, |parts|, PartsText(parts));
    EncodedParts(parts);
  }

  lemma {:induction false} BulksMean(parts: seq<Text>)
    ensures MeaningAll(Bulks(parts)) == Echo(parts)
  {
    hide Decode, Encode, Repaired;
    if parts != [] {
      EncodeRoundTrip(parts[0]);
      BulksMean(parts[1..]);
      assert Bulks(parts)[1..] == Bulks(parts[1..]);
    }
  }

  lemma CompactIsAscii(t: Text)
    ensures Compact(Encode(t)) <==> AsciiText(t)
    ensures Encode(t) == [] <==> t == []
  {
    hide Decode, Encode, AsciiText;
    EncodeRoundTrip(t);
    EncodedLength(t);
    if t == [] {
      assert AsciiText(t) by { EmptyIsAscii(); }
    }
  }

  lemma EmptyIsAscii()
    ensures AsciiText([])
  {
  }

  /** Parsing an encoded command, whatever follows it, gives the parts back exactly when all are
      ASCII and none but the last is empty. */
  lemma CommandRoundTrip(parts: seq<Text>, rest: Bytes)
    ensures Parse(Encode(Payload(parts)) + rest) == Some(Parsed(List(Echo(parts)), None))
            <==> forall i | 0 <= i < |parts| :: AsciiText(parts[i]) && (i < |parts| - 1 ==> parts[i] != [])
  {
    hide Parse, Wire, Encode, Payload, MeaningAll, Compact, AsciiText, Echo, Skippable;
    CommandIsWellFormed(parts);
    BulksMean(parts);
    FlatArrayIsRead(Bulks(parts), rest);
    forall i | 0 <= i < |parts|
      ensures Compact(Encode(parts[i])) <==> AsciiText(parts[i])
      ensures Encode(parts[i]) == [] <==> parts[i] == []
    {
      CompactIsAscii(parts[i]);
    }
  }

  // ------------------------------------------------------------ arrival

  datatype Settled = Resolved(value: Value) | Rejected(message: Text)

  datatype Arrival = Arrival(buffer: Bytes, settled: Option<Settled>)

  const NOTHING_YET := Arrival([], None)

  /** How a complete response settles the command; an empty error text counts as no error. */
  function Settlement(p: Parsed): Settled {
    if p.error.Some? && p.error.value != [] then Rejected(p.error.value) else Resolved(p.value)
  }

  /** One `data` event; a settled command has destroyed its socket and hears nothing more. */
  function Arrive(a: Arrival, chunk: Bytes): Arrival {
    if a.settled.Some? then a
    else
      var buffer := a.buffer + chunk;
      var parsed := Parse(buffer);
      Arrival(buffer, if parsed.None? then None else Some(Settlement(parsed.value)))
  }

  function ArriveAll(a: Arrival, chunks: seq<Bytes>): Arrival
    decreases |chunks|
  {
    if chunks == [] then a else ArriveAll(Arrive(a, chunks[0]), chunks[1..])
  }

  function Joined(chunks: seq<Bytes>): Bytes { if chunks == [] then [] else chunks[0] + Joined(chunks[1..]) }

  lemma {:induction false} SettledStays(a: Arrival, chunks: seq<Bytes>)
    requires a.settled.Some?
    ensures ArriveAll(a, chunks) == a
  {
    if chunks != [] {
      SettledStays(a, chunks[1..]);
    }
  }

  lemma {:induction false} SettlesFrom(r: Reply, b: Bytes, chunks: seq<Bytes>, rest: Bytes)
    requires Framed(r) && |b| < |Wire(r)| && b + Joined(chunks) <= Wire(r) + rest
    ensures SettledBy(r, |b + Joined(chunks)|, ArriveAll(Arrival(b, None), chunks).settled)
    decreases |chunks|
  {
    hide Parse, Framed, BulksCompact, Wire, SettledBy;
    if chunks == [] {
      assert b + [] == b;
      NotYet(r, |b|);
    } else {
      var b', all := b + chunks[0], Wire(r) + rest;
      assert b' + Joined(chunks[1..]) == b + Joined(chunks);
      assert b' == (b + Joined(chunks))[..|b'|] == all[..|b'|];
      if |b'| < |Wire(r)| {
        assert b' == Wire(r)[..|b'|];
        CutReplyIsIncomplete(r, b');
        SettlesFrom(r, b', chunks[1..], rest);
      } else {
        var extra := b'[|Wire(r)|..];
        assert b' == Wire(r) + extra;
        ParseReply(r, extra);
        SettlesNow(r, extra, |b + Joined(chunks)|);
        SettledStays(Arrive(Arrival(b, None), chunks[0]), chunks[1..]);
      }
    }
  }

  /** Open before the reply's last byte; settled from then on, with what the reply says if and only if no
      bulk in it holds a multi-byte character. */
  predicate SettledBy(r: Reply, arrived: nat, settled: Option<Settled>) {
    if arrived < |Wire(r)| then settled.None?
    else settled.Some? && (settled.value == Settlement(Result(r)) <==> BulksCompact(r))
  }

  lemma NotYet(r: Reply, arrived: nat)
    requires arrived < |Wire(r)|
    ensures SettledBy(r, arrived, None)
  {
  }

  lemma SettlesNow(r: Reply, extra: Bytes, arrived: nat)
    requires |Wire(r)| <= arrived
    ensures SettledBy(r, arrived, Some(Settlement(ReadResult(r, extra))))
  {
    hide Wire, Decode, BulkText;
    ReadIsMeaning(r, extra);
  }

  /** However a framed reply and what follows it is cut into chunks, the command stays open until the
      reply's last byte arrives and is then settled. */
  lemma ReplySettlesOnLastByte(r: Reply, chunks: seq<Bytes>, rest: Bytes)
    requires Framed(r) && Joined(chunks) <= Wire(r) + rest
    ensures SettledBy(r, |Joined(chunks)|, ArriveAll(NOTHING_YET, chunks).settled)
  {
    hide Framed, SettledBy, Wire, ArriveAll;
    assert [] + Joined(chunks) == Joined(chunks);
    SettlesFrom(r, [], chunks, rest);
  }

  /** What a bulk is taken for depends on the bytes that came with its last one exactly when the missing
      text units reach beyond its line break. */
  lemma BulkDependsOnChunk(p: Bytes)
    ensures (forall extra: Bytes :: BulkText(p, extra) == BulkText(p, [])) <==> |p| <= |Decode(p)| + 2
  {
    hide Decode;
    EmptyDecodes();
    var t := Decode(p) + [13, 10];
    if |p| <= |Decode(p)| + 2 {
      forall extra: Bytes ensures BulkText(p, extra) == BulkText(p, []) {
        assert (t + Decode(extra))[0..|p|] == t[0..|p|] == (t + Decode([]))[0..|p|];
      }
    } else {
      DecodeAscii([65], []);
      assert [65] + [] == [65] && |Decode([65])| == 1;
      assert |BulkText(p, [65])| == |Decode(p)| + 3 && |BulkText(p, [])| == |Decode(p)| + 2;
    }
  }

  // ------------------------------------------------------------ the command in progress

  class RedisCommand {
    const parts: seq<Text>
    var sent: Bytes
    var buffer: Bytes
    var settled: Option<Settled>

    constructor (parts: seq<Text>)
      ensures this.parts == parts && sent == [] && State() == NOTHING_YET
    {
      this.parts := parts;
      sent := [];
      buffer := [];
      settled := None;
    }

    function State(): Arrival
      reads this
    {
      Arrival(buffer, settled)
    }

    method OnConnect()
      modifies this`sent
      ensures sent == old(sent) + Wire(Array(Bulks(parts)))
    {
      hide Wire;
      CommandIsWellFormed(parts);
      sent := sent + Encode(Payload(parts));
    }

    method OnData(chunk: Bytes)
      modifies this`buffer, this`settled
      ensures State() == Arrive(old(State()), chunk)
      ensures old(settled).Some? ==> buffer == old(buffer) && settled == old(settled)
      ensures old(settled).None? ==>
                && buffer == old(buffer) + chunk
                && settled == match Parse(buffer) {
                     case None => None
                     case Some(Parsed(value, None)) => Some(Resolved(value))
                     case Some(Parsed(value, Some(error))) =>
                       Some(if |error| > 0 then Rejected(error) else Resolved(value))
                   }
    {
      if settled.Some? {
        return;
      }
      buffer := buffer + chunk;
      var parsed := ParseResponse(buffer);
      if parsed.None? {
        return;
      }
      if parsed.value.error.Some? && parsed.value.error.value != [] {
        Finish(Rejected(parsed.value.error.value));
      } else {
        Finish(Resolved(parsed.value.value));
      }
    }

    method Finish(outcome: Settled)
      requires settled.None?
      modifies this`settled
      ensures settled == Some(outcome)
    {
      settled := Some(outcome);
    }
  }
}
