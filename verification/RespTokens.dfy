/** What the parser makes of nested arrays: every loop takes one line of the reply per element. */
module RespTokens {
  import opened Common
  import opened Utf8
  import opened Resp
  import opened RespReplies

  /** A reply cut into the pieces the array loop steps over. */
  datatype Token = Leaf(r: Reply) | Head(n: nat)

  function TokenWire(t: Token): Bytes {
    match t
    case Leaf(r) => Wire(r)
    case Head(n) => Line(STAR, IntBytes(n))
  }

  function WireOf(ts: seq<Token>): Bytes { if ts == [] then [] else TokenWire(ts[0]) + WireOf(ts[1..]) }

  function Tokens(r: Reply): (ts: seq<Token>)
    ensures |ts| > 0 && Supplied(ts)
    decreases r, 0
  {
    if r.Array? then [Head(|r.items|)] + TokensAll(r.items) else [Leaf(r)]
  }

  function TokensAll(items: seq<Reply>): (ts: seq<Token>)
    ensures |ts| >= |items| && Supplied(ts)
    decreases items, 1
  {
    if items == [] then [] else Tokens(items[0]) + TokensAll(items[1..])
  }

  predicate LeavesOk(r: Reply)
    decreases r, 0
  {
    if r.Array? then AllLeavesOk(r.items) else IsLeaf(r)
  }

  predicate AllLeavesOk(items: seq<Reply>)
    decreases items, 1
  {
    items != [] ==> LeavesOk(items[0]) && AllLeavesOk(items[1..])
  }

  /** After the header of an array of n there are at least n tokens. */
  predicate Supplied(ts: seq<Token>) { forall j | 0 <= j < |ts| && ts[j].Head? :: j + ts[j].n < |ts| }

  predicate TokensOk(ts: seq<Token>) { forall j | 0 <= j < |ts| && ts[j].Leaf? :: IsLeaf(ts[j].r) }

  lemma {:induction false} WireOfConcat(a: seq<Token>, b: seq<Token>)
    ensures WireOf(a + b) == WireOf(a) + WireOf(b)
  {
    hide TokenWire;
    if a == [] {
      assert a + b == b;
    } else {
      assert (a + b)[1..] == a[1..] + b;
      WireOfConcat(a[1..], b);
    }
  }

  /** The tokens of a reply make up its wire form. */
  lemma {:induction false} WireIsTokens(r: Reply)
    ensures WireOf(Tokens(r)) == Wire(r)
    decreases r, 0
  {
    hide Line;
    if r.Array? {
      WireIsAllTokens(r.items);
      WireOfConcat([Head(|r.items|)], TokensAll(r.items));
      assert WireOf([Head(|r.items|)]) == TokenWire(Head(|r.items|)) + [];
    } else {
      assert WireOf([Leaf(r)]) == Wire(r) + [];
    }
  }

  lemma {:induction false} WireIsAllTokens(items: seq<Reply>)
    ensures WireOf(TokensAll(items)) == WireAll(items)
    decreases items, 1
  {
    hide Wire, Tokens;
    if items != [] {
      WireIsTokens(items[0]);
      WireIsAllTokens(items[1..]);
      WireOfConcat(Tokens(items[0]), TokensAll(items[1..]));
    }
  }

  lemma {:induction false} TokensAreOk(r: Reply)
    requires LeavesOk(r)
    ensures TokensOk(Tokens(r))
    decreases r, 0
  {
    hide IsLeaf;
    if r.Array? {
      AllTokensAreOk(r.items);
    }
  }

  lemma {:induction false} AllTokensAreOk(items: seq<Reply>)
    requires AllLeavesOk(items)
    ensures TokensOk(TokensAll(items))
    decreases items, 1
  {
    hide IsLeaf, Tokens;
    if items != [] {
      TokensAreOk(items[0]);
      AllTokensAreOk(items[1..]);
    }
  }

  // ------------------------------------------------------------ reading one token per element

  /** The value of the reply that starts with the first token. */
  function See(ts: seq<Token>, rest: Bytes): Option<Value>
    requires ts != [] && Supplied(ts)
    decreases |ts|, 0
  {
    match ts[0]
    case Leaf(r) => Some(Read(r, WireOf(ts[1..]) + rest))
    case Head(n) =>
      var vs := SeeAll(ts[1..], n, rest);
      if vs.None? then None else Some(List(vs.value))
  }

  /** The values of `n` elements: each starts one token after the one before, an array's own elements
      included. */
  function SeeAll(ts: seq<Token>, n: nat, rest: Bytes): Option<seq<Value>>
    requires n <= |ts| && Supplied(ts)
    decreases |ts|, 1 + n
  {
    if n == 0 then Some([])
    else
      var first := See(ts, rest);
      if first.None? || (n > 1 && ts[0] == Leaf(Bulk([]))) then None
      else
        var others := SeeAll(ts[1..], n - 1, rest);
        if others.None? then None else Some([first.value] + others.value)
  }

  lemma {:induction false} ParseSees(ts: seq<Token>, rest: Bytes)
    requires ts != [] && Supplied(ts) && TokensOk(ts)
    ensures var parsed := Parse(WireOf(ts) + rest); var seen := See(ts, rest);
            && (parsed.Some? <==> seen.Some?)
            && (parsed.Some? ==> parsed.value.value == seen.value && (ts[0].Head? ==> parsed.value.error == None))
    decreases |ts|, 0
  {
    hide Parse, Line, Read, Wire;
    var more := WireOf(ts[1..]) + rest;
    assert WireOf(ts) + rest == TokenWire(ts[0]) + more;
    match ts[0]
    case Leaf(r) => ParseReply(r, more);
    case Head(n) =>
      ParseArray(n, more);
      ParseItemsSees(ts[1..], n, rest);
  }

  lemma {:induction false} ParseItemsSees(ts: seq<Token>, n: nat, rest: Bytes)
    requires n <= |ts| && Supplied(ts) && TokensOk(ts)
    ensures ParseItems(WireOf(ts) + rest, n) == SeeAll(ts, n, rest)
    decreases |ts|, 1 + n
  {
    hide Parse, Line, Read, Wire, See, Advance, Subarray, Skippable, Framed;
    if n > 0 {
      var more := WireOf(ts[1..]) + rest;
      var b := WireOf(ts) + rest;
      assert b == TokenWire(ts[0]) + more;
      ParseSees(ts, rest);
      if n == 1 {
        assert ParseItems(Subarray(b, Advance(b)), 0) == Some([]);
      } else if ts[0] == Leaf(Bulk([])) {
        EmptyBulkStallsLoop(more);
        assert ParseItems(Subarray(b, Advance(b)), n - 1) == None;
      } else {
        StepsOver(ts[0], more);
        ParseItemsSees(ts[1..], n - 1, rest);
      }
    }
  }

  lemma StepsOver(t: Token, rest: Bytes)
    requires t.Leaf? ==> IsLeaf(t.r) && t.r != Bulk([])
    ensures Subarray(TokenWire(t) + rest, Advance(TokenWire(t) + rest)) == rest
  {
    hide Decode, Advance, Wire, Line;
    match t
    case Leaf(r) =>
      NonEmptySkips(r);
      SkipsReply(r, rest);
    case Head(n) => AdvanceNumber(STAR, n, rest);
  }

  /** For every reply whose lines hold no CR and no multi-byte character, however deeply nested, the
      parser computes the reading by tokens. */
  lemma ParseReadsTokens(r: Reply, rest: Bytes)
    requires LeavesOk(r)
    ensures Parse(Wire(r) + rest)
            == var seen := See(Tokens(r), rest);
               if seen.None? then None
               else Some(Parsed(seen.value, if r.Failure? then Some(Decode(r.s)) else None))
  {
    hide Parse, Wire, Read;
    TokensAreOk(r);
    WireIsTokens(r);
    if r.Array? {
      ParseSees(Tokens(r), rest);
    } else {
      hide Decode;
      ParseReply(r, rest);
      assert Tokens(r)[1..] == [] && WireOf([]) + rest == rest;
    }
  }

  // ------------------------------------------------------------ an array inside an array

  /** Read right wherever it stands. */
  predicate Plain(r: Reply) { IsLeaf(r) && r != Bulk([]) && BulksCompact(r) }

  predicate AllPlain(rs: seq<Reply>) { forall i | 0 <= i < |rs| :: Plain(rs[i]) }

  function Leaves(rs: seq<Reply>): (ts: seq<Token>)
    ensures |ts| == |rs| && forall i | 0 <= i < |ts| :: ts[i] == Leaf(rs[i])
  {
    seq(|rs|, i requires 0 <= i < |rs| => Leaf(rs[i]))
  }

  lemma {:induction false} TokensConcat(a: seq<Reply>, b: seq<Reply>)
    ensures TokensAll(a + b) == TokensAll(a) + TokensAll(b)
  {
    hide Tokens;
    if a == [] {
      assert a + b == b;
    } else {
      assert (a + b)[1..] == a[1..] + b;
      TokensConcat(a[1..], b);
    }
  }

  lemma {:induction false} PlainTokens(rs: seq<Reply>)
    requires AllPlain(rs)
    ensures TokensAll(rs) == Leaves(rs) && AllLeavesOk(rs)
  {
    hide Framed, Skippable, BulksCompact;
    if rs != [] {
      assert Plain(rs[0]);
      PlainTokens(rs[1..]);
      assert Tokens(rs[0]) == [Leaf(rs[0])];
    }
  }

  /** Plain elements in front are read as what they say. */
  lemma {:induction false} SeePlain(rs: seq<Reply>, k: nat, ts: seq<Token>, n: nat, rest: Bytes)
    requires AllPlain(rs) && k <= |rs| && Supplied(ts)
    requires n == 0 || (k == |rs| && n <= |ts|)
    ensures Supplied(Leaves(rs) + ts)
    ensures SeeAll(Leaves(rs) + ts, k + n, rest) == Prepend(MeaningAll(rs[..k]), SeeAll(ts, n, rest))
  {
    hide Read, Meaning, BulksCompact, IsLeaf;
    var all := Leaves(rs) + ts;
    SuppliedBehind(rs, ts);
    if k == 0 {
      if n > 0 {
        assert all == ts;
      }
      NothingInFront(SeeAll(ts, n, rest));
      assert rs[..0] == [];
    } else {
      assert Plain(rs[0]);
      assert all[1..] == Leaves(rs[1..]) + ts;
      SeePlain(rs[1..], k - 1, ts, n, rest);
      ReadIsMeaning(rs[0], WireOf(all[1..]) + rest);
      assert rs[..k][1..] == rs[1..][..k - 1] && rs[..k][0] == rs[0];
      OneInFront(Meaning(rs[0]), MeaningAll(rs[1..][..k - 1]), SeeAll(ts, n, rest));
    }
  }

  lemma SuppliedBehind(rs: seq<Reply>, ts: seq<Token>)
    requires Supplied(ts)
    ensures Supplied(Leaves(rs) + ts)
  {
    var all := Leaves(rs) + ts;
    forall j | 0 <= j < |all| && all[j].Head? ensures j + all[j].n < |all| {
      assert all[j] == ts[j - |rs|];
    }
  }

  lemma NothingInFront(others: Option<seq<Value>>)
    ensures Prepend([], others) == others
  {
    if others.Some? {
      assert [] + others.value == others.value;
    }
  }

  lemma OneInFront(v: Value, vs: seq<Value>, others: Option<seq<Value>>)
    ensures Prepend([v] + vs, others)
            == var more := Prepend(vs, others); if more.None? then None else Some([v] + more.value)
  {
    if others.Some? {
      assert ([v] + vs) + others.value == [v] + (vs + others.value);
    }
  }

  lemma {:induction false} MeaningConcat(a: seq<Reply>, b: seq<Reply>)
    ensures MeaningAll(a + b) == MeaningAll(a) + MeaningAll(b)
  {
    hide Meaning;
    if a == [] {
      assert a + b == b;
    } else {
      assert (a + b)[1..] == a[1..] + b;
      MeaningConcat(a[1..], b);
    }
  }

  /** What follows a nested array is read from the array's own elements on, so the reply is read right
      exactly when those happen to say the same. */
  lemma NestedArrayIsRead(before: seq<Reply>, sub: seq<Reply>, after: seq<Reply>, rest: Bytes)
    requires AllPlain(before) && AllPlain(sub) && AllPlain(after)
    ensures var r := Array(before + [Array(sub)] + after);
            Parse(Wire(r) + rest) == Some(Result(r))
            <==> MeaningAll((sub + after)[..|after|]) == MeaningAll(after)
  {
    hide Parse, Wire, See, MeaningAll, Tokens, TokensAll, LeavesOk;
    var items := before + [Array(sub)] + after;
    var r := Array(items);
    NestedTokens(before, sub, after);
    ParseReadsTokens(r, rest);
    SeeNested(before, sub, after, rest);
    NestedMeaning(before, sub, after);
    SeeHead(Tokens(r), rest);
    var read, meant := MeaningAll((sub + after)[..|after|]), MeaningAll(after);
    var front := MeaningAll(before) + [List(MeaningAll(sub))];
    assert front + read == front + meant <==> read == meant by { CancelFront(front, read, meant); }
  }

  lemma CancelFront(front: seq<Value>, a: seq<Value>, b: seq<Value>)
    ensures front + a == front + b <==> a == b
  {
    if front + a == front + b {
      assert a == (front + a)[|front|..] == (front + b)[|front|..] == b;
    }
  }

  lemma SeeHead(ts: seq<Token>, rest: Bytes)
    requires ts != [] && Supplied(ts) && ts[0].Head?
    ensures See(ts, rest) == var vs := SeeAll(ts[1..], ts[0].n, rest); if vs.None? then None else Some(List(vs.value))
  {
    hide SeeAll;
  }

  lemma NestedTokens(before: seq<Reply>, sub: seq<Reply>, after: seq<Reply>)
    requires AllPlain(before) && AllPlain(sub) && AllPlain(after)
    ensures var items := before + [Array(sub)] + after;
            && Tokens(Array(items))
               == [Head(|items|)] + (Leaves(before) + ([Head(|sub|)] + Leaves(sub + after)))
            && LeavesOk(Array(items))
  {
    hide AllPlain, TokensAll, AllLeavesOk, Leaves;
    var items := before + [Array(sub)] + after;
    PlainTokens(before);
    PlainTokens(sub);
    PlainTokens(after);
    SingleArray(sub);
    TokensConcat(before + [Array(sub)], after);
    TokensConcat(before, [Array(sub)]);
    LeavesConcat(sub, after);
    var head := [Head(|sub|)];
    assert TokensAll(items) == Leaves(before) + (head + Leaves(sub)) + Leaves(after);
    assert Leaves(before) + (head + Leaves(sub)) + Leaves(after)
           == Leaves(before) + (head + (Leaves(sub) + Leaves(after)));
    AllLeavesConcat(before, [Array(sub)]);
    AllLeavesConcat(before + [Array(sub)], after);
  }

  lemma SingleArray(sub: seq<Reply>)
    requires AllLeavesOk(sub)
    ensures TokensAll([Array(sub)]) == [Head(|sub|)] + TokensAll(sub) && AllLeavesOk([Array(sub)])
  {
    assert [Array(sub)][1..] == [];
    assert TokensAll([Array(sub)]) == Tokens(Array(sub)) + [];
  }

  lemma LeavesConcat(a: seq<Reply>, b: seq<Reply>)
    ensures Leaves(a + b) == Leaves(a) + Leaves(b)
  {
  }

  lemma {:induction false} AllLeavesConcat(a: seq<Reply>, b: seq<Reply>)
    requires AllLeavesOk(a) && AllLeavesOk(b)
    ensures AllLeavesOk(a + b)
  {
    hide LeavesOk;
    if a == [] {
      assert a + b == b;
    } else {
      assert (a + b)[1..] == a[1..] + b;
      AllLeavesConcat(a[1..], b);
    }
  }

  lemma SeeNested(before: seq<Reply>, sub: seq<Reply>, after: seq<Reply>, rest: Bytes)
    requires AllPlain(before) && AllPlain(sub) && AllPlain(after)
    ensures var inner := [Head(|sub|)] + Leaves(sub + after); var ts := Leaves(before) + inner;
            && Supplied(ts)
            && SeeAll(ts, |before| + 1 + |after|, rest)
               == Some(MeaningAll(before) + [List(MeaningAll(sub))] + MeaningAll((sub + after)[..|after|]))
  {
    hide Plain, MeaningAll, See;
    var leaves := Leaves(sub + after);
    var inner := [Head(|sub|)] + leaves;
    assert AllPlain(sub + after);
    assert Supplied([]) && Supplied(inner);
    assert leaves + [] == leaves && inner[1..] == leaves;
    SeePlain(sub + after, |sub|, [], 0, rest);
    SeePlain(sub + after, |after|, [], 0, rest);
    assert (sub + after)[..|sub|] == sub;
    NothingBehind(MeaningAll(sub));
    NothingBehind(MeaningAll((sub + after)[..|after|]));
    SeeHead(inner, rest);
    assert SeeAll(inner, 1 + |after|, rest)
           == Some([List(MeaningAll(sub))] + MeaningAll((sub + after)[..|after|])) by {
      NoFurther(inner, rest);
    }
    SeePlain(before, |before|, inner, 1 + |after|, rest);
    assert before[..|before|] == before;
    assert MeaningAll(before) + ([List(MeaningAll(sub))] + MeaningAll((sub + after)[..|after|]))
           == MeaningAll(before) + [List(MeaningAll(sub))] + MeaningAll((sub + after)[..|after|]);
  }

  lemma NoFurther(ts: seq<Token>, rest: Bytes)
    requires ts != [] && Supplied(ts)
    ensures SeeAll(ts, 0, rest) == Some([]) && SeeAll(ts[1..], 0, rest) == Some([])
  {
  }

  lemma NothingBehind(vs: seq<Value>)
    ensures Prepend(vs, Some([])) == Some(vs)
  {
    assert vs + [] == vs;
  }

  lemma NestedMeaning(before: seq<Reply>, sub: seq<Reply>, after: seq<Reply>)
    ensures MeaningAll(before + [Array(sub)] + after)
            == MeaningAll(before) + [List(MeaningAll(sub))] + MeaningAll(after)
  {
    MeaningConcat(before + [Array(sub)], after);
    MeaningConcat(before, [Array(sub)]);
    assert [Array(sub)][1..] == [];
    assert MeaningAll([Array(sub)]) == [Meaning(Array(sub))] + [];
  }
}
