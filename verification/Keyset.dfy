/** Keyset pagination against offset pagination. */
module Keyset {
  import opened Common

  datatype Cursor = Cursor(createdAt: int, orderId: int)

  datatype Row = Row(orderId: int, createdAt: int, userId: int) {
    function Key(): Cursor { Cursor(createdAt, orderId) }
  }

  /** `a` comes before `b` under ORDER BY created_at DESC, id DESC. */
  predicate Newer(a: Cursor, b: Cursor) {
    a.createdAt > b.createdAt || (a.createdAt == b.createdAt && a.orderId > b.orderId)
  }

  /** A query result in its required order; no two rows share a key. */
  ghost predicate Ordered(q: seq<Row>) {
    forall i, j | 0 <= i < j < |q| :: Newer(q[i].Key(), q[j].Key())
  }

  function Filter(q: seq<Row>, p: Row -> bool): seq<Row> {
    if q == [] then []
    else if p(q[0]) then [q[0]] + Filter(q[1..], p) else Filter(q[1..], p)
  }

  function Take<T>(q: seq<T>, n: nat): seq<T> { if n <= |q| then q[..n] else q }

  function Drop<T>(q: seq<T>, n: nat): seq<T> { if n <= |q| then q[n..] else [] }

  predicate BelowCursor(c: Option<Cursor>, r: Row) { c.None? || Newer(c.value, r.Key()) }

  function IsBelow(c: Option<Cursor>): Row -> bool { (r: Row) => BelowCursor(c, r) }

  /** The rows the cursor predicate keeps. */
  function Below(q: seq<Row>, c: Option<Cursor>): seq<Row> { Filter(q, IsBelow(c)) }

  datatype PageInfo =
    | OffsetInfo(limit: nat, offset: nat, hasMore: bool, nextOffset: Option<nat>)
    | CursorInfo(limit: nat, hasMore: bool, nextCursor: Option<Cursor>)

  datatype Page = Page(items: seq<Row>, info: PageInfo)

  function OffsetPage(q: seq<Row>, limit: nat, offset: nat): Page {
    var rows := Take(Drop(q, offset), limit + 1);
    Page(Take(rows, limit), OffsetInfo(limit, offset, |rows| > limit,
                                       if |rows| > limit then Some(offset + limit) else None))
  }

  function CursorPage(q: seq<Row>, limit: nat, c: Option<Cursor>): Page {
    var rows := Take(Below(q, c), limit + 1);
    var items := Take(rows, limit);
    Page(items, CursorInfo(limit, |rows| > limit,
                           if |rows| > limit && items != [] then Some(items[|items| - 1].Key()) else None))
  }

  // ------------------------------------------------------------ filtering ordered rows

  lemma {:induction false} FilterMembers(q: seq<Row>, p: Row -> bool)
    ensures |Filter(q, p)| <= |q|
    ensures forall r :: r in Filter(q, p) <==> r in q && p(r)
  {
    if q != [] {
      FilterMembers(q[1..], p);
    }
  }

  lemma {:induction false} FilterOrdered(q: seq<Row>, p: Row -> bool)
    requires Ordered(q)
    ensures Ordered(Filter(q, p))
  {
    if q != [] {
      FilterOrdered(q[1..], p);
      FilterMembers(q[1..], p);
      var rest := Filter(q[1..], p);
      forall j | 0 <= j < |rest| ensures Newer(q[0].Key(), rest[j].Key()) {
        assert rest[j] in q[1..];
      }
    }
  }

  lemma {:induction false} FilterAll(q: seq<Row>, p: Row -> bool)
    requires forall i | 0 <= i < |q| :: p(q[i])
    ensures Filter(q, p) == q
  {
    if q != [] {
      FilterAll(q[1..], p);
    }
  }

  /** Applying two conditions at once or one after the other. */
  lemma {:induction false} FilterTwice(q: seq<Row>, p: Row -> bool, p': Row -> bool, both: Row -> bool)
    requires forall r :: both(r) <==> p(r) && p'(r)
    ensures Filter(q, both) == Filter(Filter(q, p), p')
  {
    if q != [] {
      FilterTwice(q[1..], p, p', both);
    }
  }

  lemma {:induction false} FilterExt(q: seq<Row>, p: Row -> bool, p': Row -> bool)
    requires forall r :: p(r) <==> p'(r)
    ensures Filter(q, p) == Filter(q, p')
  {
    if q != [] {
      FilterExt(q[1..], p, p');
    }
  }

  /** Below the key of row k - 1 is exactly the rest of the result. */
  lemma {:induction false} BelowIsSuffix(q: seq<Row>, k: nat)
    requires Ordered(q) && 0 < k <= |q|
    ensures Below(q, Some(q[k - 1].Key())) == q[k..]
  {
    var c := Some(q[k - 1].Key());
    if k == 1 {
      FilterAll(q[1..], IsBelow(c));
    } else {
      assert q[1..][k - 2] == q[k - 1] && q[1..][k - 1..] == q[k..];
      BelowIsSuffix(q[1..], k - 1);
    }
  }

  lemma BelowNothing(q: seq<Row>)
    ensures Below(q, None) == q
  {
    FilterAll(q, IsBelow(None));
  }

  // ------------------------------------------------------------ a walk over an unchanging result

  /** The cursor a client holds after the first k rows. */
  function CursorAt(q: seq<Row>, k: nat): Option<Cursor>
    requires k <= |q|
  {
    if k == 0 then None else Some(q[k - 1].Key())
  }

  lemma PageAt(q: seq<Row>, limit: nat, k: nat)
    requires Ordered(q) && limit >= 1 && k <= |q|
    ensures var p := CursorPage(q, limit, CursorAt(q, k)); var o := OffsetPage(q, limit, k);
            && p.items == o.items == q[k..Min(k + limit, |q|)]
            && p.info.hasMore == o.info.hasMore == (k + limit < |q|)
            && p.info.nextCursor == if k + limit < |q| then CursorAt(q, k + limit) else None
  {
    if k == 0 {
      BelowNothing(q);
    } else {
      BelowIsSuffix(q, k);
    }
    assert Below(q, CursorAt(q, k)) == q[k..] == Drop(q, k);
  }

  /** An offset page, for any position, also one past the end: the slice that starts there, whether rows
      follow it, and where they start. */
  lemma OffsetPageIs(q: seq<Row>, limit: nat, offset: nat)
    ensures var p := OffsetPage(q, limit, offset);
            && p.items == q[Min(offset, |q|)..Min(offset + limit, |q|)]
            && p.info == OffsetInfo(limit, offset, offset + limit < |q|,
                                    if offset + limit < |q| then Some(offset + limit) else None)
  {
  }

  /** A cursor page, for any cursor, also one that is no row's key: the first rows strictly below it in
      descending order of time and id. `hasMore` says whether a row below the cursor is missing, and then
      the next cursor is the last row's key. */
  lemma CursorPageIs(q: seq<Row>, limit: nat, c: Option<Cursor>)
    requires Ordered(q)
    ensures var p := CursorPage(q, limit, c);
            && (forall r | r in p.items :: r in q && Under(r, c))
            && (forall i, j | 0 <= i < j < |p.items| :: Under(p.items[j], Some(p.items[i].Key())))
            && |p.items| <= limit
            && (forall r | r in q && Under(r, c) && r !in p.items ::
                  |p.items| == limit && forall x | x in p.items :: Under(r, Some(x.Key())))
            && p.info == CursorInfo(limit, exists r :: r in q && Under(r, c) && r !in p.items, p.info.nextCursor)
            && p.info.nextCursor == if p.info.hasMore && limit > 0 then Some(p.items[limit - 1].Key()) else None
  {
    hide Ordered, Under, Newer;
    var b := Below(q, c);
    FilterMembers(q, IsBelow(c));
    FilterOrdered(q, IsBelow(c));
    forall r ensures Under(r, c) <==> BelowCursor(c, r) {
      UnderIsBelow(r, c);
    }
    Prefix(b, limit);
    assert CursorPage(q, limit, c).items == Take(b, limit);
    assert |b| > limit <==> exists r :: r in q && Under(r, c) && r !in Take(b, limit);
  }

  lemma UnderIsBelow(r: Row, c: Option<Cursor>)
    ensures Under(r, c) <==> BelowCursor(c, r)
  {
  }

  /** The first rows of an ordered list: what is left out is below all of them. */
  lemma Prefix(b: seq<Row>, limit: nat)
    requires Ordered(b)
    ensures var items := Take(b, limit);
            && (forall r | r in items :: r in b)
            && (forall i, j | 0 <= i < j < |items| :: Under(items[j], Some(items[i].Key())))
            && (forall r | r in b && r !in items ::
                  |items| == limit < |b| && forall x | x in items :: Under(r, Some(x.Key())))
            && (|b| > limit <==> exists r :: r in b && r !in items)
  {
    var items := Take(b, limit);
    assert forall i | 0 <= i < |items| :: items[i] == b[i];
    forall r | r in b && r !in items
      ensures |items| == limit < |b| && forall x | x in items :: Under(r, Some(x.Key()))
    {
      var i :| 0 <= i < |b| && b[i] == r;
    }
    if |b| > limit {
      assert b[limit] in b && b[limit] !in items;
    }
  }

  /** Older than the cursor, or as old with a smaller id. */
  predicate Under(r: Row, c: Option<Cursor>) {
    match c
    case None => true
    case Some(k) => r.createdAt < k.createdAt || (r.createdAt == k.createdAt && r.orderId < k.orderId)
  }

  lemma {:induction false} FilterShorter(q: seq<Row>, p: Row -> bool, p': Row -> bool, x: Row)
    requires forall r | p'(r) :: p(r)
    ensures |Filter(q, p')| <= |Filter(q, p)|
    ensures x in q && p(x) && !p'(x) ==> |Filter(q, p')| < |Filter(q, p)|
  {
    if q != [] {
      FilterShorter(q[1..], p, p', x);
    }
  }

  /** Every page with a `nextCursor` leaves fewer rows below it. */
  lemma NextCursorAdvances(q: seq<Row>, limit: nat, c: Option<Cursor>)
    requires Ordered(q)
    ensures var next := CursorPage(q, limit, c).info.nextCursor; next.Some? ==> |Below(q, next)| < |Below(q, c)|
  {
    var p := CursorPage(q, limit, c);
    FilterMembers(q, IsBelow(c));
    if p.info.nextCursor.Some? {
      var x := p.items[|p.items| - 1];
      assert x in Below(q, c);
      FilterShorter(q, IsBelow(c), IsBelow(p.info.nextCursor), x);
    }
  }

  /** Following `nextCursor` until it is absent. */
  ghost function Walk(q: seq<Row>, limit: nat, c: Option<Cursor>): seq<Page>
    requires Ordered(q)
    decreases |Below(q, c)|
  {
    var p := CursorPage(q, limit, c);
    if p.info.nextCursor.None? then [p]
    else
      NextCursorAdvances(q, limit, c);
      [p] + Walk(q, limit, p.info.nextCursor)
  }

  /** `p` is max(1, ceil(n / limit)). */
  predicate IsPageCount(p: nat, n: nat, limit: nat) {
    p >= 1 && n <= Start(p, limit) && (p > 1 ==> Start(p - 1, limit) < n)
  }

  /** Where page `i` starts. */
  function Start(i: nat, limit: nat): nat { i * limit }

  lemma StartNext(i: nat, limit: nat)
    ensures Start(0, limit) == 0 && Start(i + 1, limit) == Start(i, limit) + limit
  {
  }

  lemma {:induction false} WalkLength(q: seq<Row>, limit: nat, k: nat)
    requires Ordered(q) && limit >= 1 && k <= |q|
    ensures IsPageCount(|Walk(q, limit, CursorAt(q, k))|, |q| - k, limit)
    decreases |q| - k
  {
    hide CursorPage, OffsetPage, Ordered, Below, Start;
    StartNext(0, limit);
    PageAt(q, limit, k);
    if k + limit < |q| {
      WalkLength(q, limit, k + limit);
      var n := |Walk(q, limit, CursorAt(q, k + limit))|;
      StartNext(n, limit);
      StartNext(n - 1, limit);
    }
  }

  lemma {:induction false} WalkPage(q: seq<Row>, limit: nat, k: nat, i: nat)
    requires Ordered(q) && limit >= 1 && k <= |q| && i < |Walk(q, limit, CursorAt(q, k))|
    ensures k + Start(i, limit) <= |q|
    ensures Walk(q, limit, CursorAt(q, k))[i] == CursorPage(q, limit, CursorAt(q, k + Start(i, limit)))
    decreases i
  {
    hide CursorPage, OffsetPage, Ordered, Below, Start;
    StartNext(0, limit);
    PageAt(q, limit, k);
    if i > 0 {
      StartNext(i - 1, limit);
      WalkPage(q, limit, k + limit, i - 1);
    }
  }

  lemma {:induction false} WalkRowsOf(q: seq<Row>, limit: nat, k: nat)
    requires Ordered(q) && limit >= 1 && k <= |q|
    ensures Flatten(Walk(q, limit, CursorAt(q, k))) == q[k..]
    decreases |q| - k
  {
    hide CursorPage, OffsetPage, Ordered, Below, Start;
    PageAt(q, limit, k);
    var w, p := Walk(q, limit, CursorAt(q, k)), CursorPage(q, limit, CursorAt(q, k));
    if k + limit < |q| {
      WalkRowsOf(q, limit, k + limit);
      assert w[1..] == Walk(q, limit, CursorAt(q, k + limit));
    } else {
      assert w[1..] == [];
    }
  }

  function Flatten(pages: seq<Page>): seq<Row> {
    if pages == [] then [] else pages[0].items + Flatten(pages[1..])
  }

  /** Page i of a walk against the offset page at position i * limit. */
  ghost predicate LikeOffset(q: seq<Row>, limit: nat, p: Page, position: nat) {
    var o := OffsetPage(q, limit, position);
    p.items == o.items && p.info.hasMore == o.info.hasMore == (position + limit < |q|)
  }

  /** A walk visits the whole result once, in order, page by page like offset pagination, in
      max(1, ceil(n / limit)) pages; `hasMore` tells exactly whether rows follow. */
  lemma WalkIsOffsetPagination(q: seq<Row>, limit: nat)
    requires Ordered(q) && limit >= 1
    ensures var w := Walk(q, limit, None);
            && IsPageCount(|w|, |q|, limit)
            && Flatten(w) == q
            && forall i | 0 <= i < |w| :: LikeOffset(q, limit, w[i], Start(i, limit))
  {
    hide Walk, CursorPage, OffsetPage, Ordered, Start;
    StartNext(0, limit);
    WalkLength(q, limit, 0);
    WalkRowsOf(q, limit, 0);
    assert q[0..] == q;
    forall i | 0 <= i < |Walk(q, limit, None)| ensures LikeOffset(q, limit, Walk(q, limit, None)[i], Start(i, limit)) {
      WalkPage(q, limit, 0, i);
      PageAt(q, limit, Start(i, limit));
    }
  }

  // ------------------------------------------------------------ a walk while the table changes

  /** All rows returned by a walk whose i-th request sees the result `tables[i]`. */
  function WalkRows(tables: seq<seq<Row>>, limit: nat, c: Option<Cursor>): seq<Row> {
    if tables == [] then []
    else
      var p := CursorPage(tables[0], limit, c);
      p.items + if p.info.nextCursor.None? then [] else WalkRows(tables[1..], limit, p.info.nextCursor)
  }

  /** The walk got a page without `nextCursor` before running out of requests. */
  predicate WalkEnds(tables: seq<seq<Row>>, limit: nat, c: Option<Cursor>) {
    tables != []
    && (CursorPage(tables[0], limit, c).info.nextCursor.None?
        || WalkEnds(tables[1..], limit, CursorPage(tables[0], limit, c).info.nextCursor))
  }

  lemma PageRows(q: seq<Row>, limit: nat, c: Option<Cursor>)
    requires Ordered(q)
    ensures var p := CursorPage(q, limit, c);
            && Ordered(p.items)
            && (forall r | r in p.items :: r in q && BelowCursor(c, r))
            && (p.info.nextCursor.Some? ==> p.items != [] && p.info.nextCursor.value == p.items[|p.items| - 1].Key())
            && (forall r | r in q && BelowCursor(c, r) && r !in p.items ::
                  limit >= 1 ==> p.info.nextCursor.Some? && Newer(p.info.nextCursor.value, r.Key()))
  {
    var p, b := CursorPage(q, limit, c), Below(q, c);
    FilterMembers(q, IsBelow(c));
    FilterOrdered(q, IsBelow(c));
    assert p.items == Take(b, limit);
    assert forall i | 0 <= i < Min(limit, |b|) :: b[i] == p.items[i];
    forall r | r in q && BelowCursor(c, r) && r !in p.items
      ensures limit >= 1 ==> p.info.nextCursor.Some? && Newer(p.info.nextCursor.value, r.Key())
    {
      var i :| 0 <= i < |b| && b[i] == r;
    }
  }

  /** Whatever is inserted, deleted or changed between requests, the rows returned are in strictly
      descending key order: no key comes twice. */
  lemma {:induction false} ChangingWalkNeverRepeats(tables: seq<seq<Row>>, limit: nat, c: Option<Cursor>)
    requires forall i | 0 <= i < |tables| :: Ordered(tables[i])
    ensures Ordered(WalkRows(tables, limit, c))
    ensures forall r | r in WalkRows(tables, limit, c) :: BelowCursor(c, r)
  {
    if tables != [] {
      PageRows(tables[0], limit, c);
      var p := CursorPage(tables[0], limit, c);
      if p.info.nextCursor.Some? {
        var rest := WalkRows(tables[1..], limit, p.info.nextCursor);
        ChangingWalkNeverRepeats(tables[1..], limit, p.info.nextCursor);
        OrderedConcat(p.items, rest);
      }
    }
  }

  lemma OrderedConcat(a: seq<Row>, b: seq<Row>)
    requires Ordered(a) && Ordered(b) && a != []
    requires forall r | r in b :: Newer(a[|a| - 1].Key(), r.Key())
    ensures Ordered(a + b)
  {
    forall i, j | 0 <= i < |a| && 0 <= j < |b| ensures Newer(a[i].Key(), b[j].Key()) {
      assert Newer(a[|a| - 1].Key(), b[j].Key());
      assert i == |a| - 1 || Newer(a[i].Key(), a[|a| - 1].Key());
    }
  }

  /** When the walk ends it has returned every row that was there at each of its requests. */
  lemma {:induction false} ChangingWalkMissesNothing(tables: seq<seq<Row>>, limit: nat, c: Option<Cursor>, r: Row)
    requires limit >= 1 && forall i | 0 <= i < |tables| :: Ordered(tables[i])
    requires WalkEnds(tables, limit, c)
    requires BelowCursor(c, r) && forall i | 0 <= i < |tables| :: r in tables[i]
    ensures r in WalkRows(tables, limit, c)
  {
    PageRows(tables[0], limit, c);
    var p := CursorPage(tables[0], limit, c);
    if r !in p.items {
      ChangingWalkMissesNothing(tables[1..], limit, p.info.nextCursor, r);
    }
  }

  // ------------------------------------------------------------ the activity query of a user

  function IsOwnedBy(userId: int): Row -> bool { (r: Row) => r.userId == userId }

  /** The WHERE clause with its placeholders bound. */
  function ActivityCondition(hasCursor: bool, values: seq<int>): Row -> bool
    requires |values| > if hasCursor then 3 else 0
  {
    (r: Row) =>
      r.userId == values[0]
      && (hasCursor ==> r.createdAt < values[1] || (r.createdAt == values[2] && r.orderId < values[3]))
  }

  /** What the database does with the activity query text and the bound values, in placeholder
      order: user id, three cursor values if that condition is present, limit, then offset. */
  function RunActivityQuery(orders: seq<Row>, hasCursor: bool, hasOffset: bool, values: seq<int>): (rows: seq<Row>)
    requires |values| == 2 + (if hasCursor then 3 else 0) + (if hasOffset then 1 else 0)
  {
    var n := if hasCursor then 4 else 1;
    var hits := Filter(orders, ActivityCondition(hasCursor, values));
    var from := if hasOffset then Drop(hits, Max(0, values[n + 1])) else hits;
    Take(from, Max(0, values[n]))
  }

  datatype Pagination = ByOffset | ByCursor

  datatype ActivityQuery = ActivityQuery(pagination: Pagination, limit: nat, offset: nat, cursor: Option<Cursor>)

  class UsersRepository {
    /** The orders of all users, newest first. */
    var orders: seq<Row>

    constructor (orders: seq<Row>)
      ensures this.orders == orders
    {
      this.orders := orders;
    }

    function OrdersOf(userId: int): seq<Row>
      reads this
    {
      Filter(orders, IsOwnedBy(userId))
    }

    /** `findActivity`: bind the values, ask for one row too many, cut it off. */
    method FindActivity(userId: int, query: ActivityQuery) returns (page: Page)
      ensures query.pagination == ByOffset ==> page == OffsetPage(OrdersOf(userId), query.limit, query.offset)
      ensures query.pagination == ByCursor ==> page == CursorPage(OrdersOf(userId), query.limit, query.cursor)
    {
      hide Filter, Below;
      var values: seq<int> := [userId];
      var hasCursor := query.pagination == ByCursor && query.cursor.Some?;
      if hasCursor {
        values := values + [query.cursor.value.createdAt, query.cursor.value.createdAt, query.cursor.value.orderId];
      }
      values := values + [query.limit + 1];
      if query.pagination == ByOffset {
        values := values + [query.offset];
      }
      var rows := RunActivityQuery(orders, hasCursor, query.pagination == ByOffset, values);
      BoundQuery(orders, hasCursor, query, values);
      var hasMore := |rows| > query.limit;
      var items := Take(rows, query.limit);
      var info := ToActivityPageInfo(query, items, hasMore);
      page := Page(items, info);
    }

    method ToActivityPageInfo(query: ActivityQuery, items: seq<Row>, hasMore: bool) returns (info: PageInfo)
      ensures query.pagination == ByOffset ==>
                info == OffsetInfo(query.limit, query.offset, hasMore,
                                   if hasMore then Some(query.offset + query.limit) else None)
      ensures query.pagination == ByCursor ==>
                info == CursorInfo(query.limit, hasMore,
                                   if hasMore && items != [] then Some(items[|items| - 1].Key()) else None)
    {
      if query.pagination == ByOffset {
        info := OffsetInfo(query.limit, query.offset, hasMore, None);
        if hasMore {
          info := info.(nextOffset := Some(query.offset + query.limit));
        }
        return;
      }
      info := CursorInfo(query.limit, hasMore, None);
      if hasMore && items != [] {
        info := info.(nextCursor := Some(items[|items| - 1].Key()));
      }
    }

    lemma BoundQuery(orders: seq<Row>, hasCursor: bool, query: ActivityQuery, values: seq<int>)
      requires hasCursor <==> query.pagination == ByCursor && query.cursor.Some?
      requires |values| == 2 + (if hasCursor then 3 else 0) + (if query.pagination == ByOffset then 1 else 0)
      requires hasCursor ==> values[1] == values[2] == query.cursor.value.createdAt
                             && values[3] == query.cursor.value.orderId && values[4] == query.limit + 1
      requires !hasCursor ==> values[1] == query.limit + 1
      requires query.pagination == ByOffset ==> values[2] == query.offset
      ensures var q := Filter(orders, IsOwnedBy(values[0]));
              RunActivityQuery(orders, hasCursor, query.pagination == ByOffset, values)
              == if query.pagination == ByOffset then Take(Drop(q, query.offset), query.limit + 1)
                 else Take(Below(q, query.cursor), query.limit + 1)
    {
      var both, own := ActivityCondition(hasCursor, values), IsOwnedBy(values[0]);
      if query.pagination == ByCursor {
        FilterTwice(orders, own, IsBelow(query.cursor), both);
      } else {
        FilterExt(orders, both, own);
      }
    }
  }
}
