/** The orders report: its query object, and its pages against keyset pagination. */
module Reports {
  import opened Common
  import opened SqlSpec
  import K = Keyset

  datatype ReportOrdersQuery = ReportOrdersQuery(
    createdFrom: Option<int>,
    createdTo: Option<int>,
    pagination: Option<K.Pagination>,
    limit: Option<nat>,
    offset: Option<nat>)
  {
    /** The defaults of an absent field. */
    function Pagination(): K.Pagination { if pagination.Some? then pagination.value else K.ByOffset }
    function Limit(): nat { if limit.Some? then limit.value else 50 }
    function Offset(): nat { if offset.Some? then offset.value else 0 }
  }

  predicate InRange(query: ReportOrdersQuery, r: K.Row) {
    (query.createdFrom.Some? ==> query.createdFrom.value <= r.createdAt)
    && (query.createdTo.Some? ==> r.createdAt <= query.createdTo.value)
  }

  function IsInRange(query: ReportOrdersQuery): K.Row -> bool { (r: K.Row) => InRange(query, r) }

  /** The columns of an order that the WHERE text names. */
  function Columns(r: K.Row): Row {
    (column: string) =>
      if column == "o.created_at" then Num(r.createdAt)
      else if column == "o.id" then Num(r.orderId)
      else Null
  }

  /** Whether a row passes a WHERE text whose placeholders take `values` from the left. */
  predicate Selects(where: seq<Token>, values: seq<Value>, r: K.Row) {
    where == []
    || var reading := ReadOr(where, values, Columns(r)); reading.Some? && reading.value.value == Yes
  }

  function IsSelected(where: seq<Token>, values: seq<Value>): K.Row -> bool {
    (r: K.Row) => Selects(where, values, r)
  }

  /** Rows kept by the page being asked for, before LIMIT and OFFSET. */
  predicate Wanted(query: ReportOrdersQuery, cursor: Option<K.Cursor>, r: K.Row) {
    InRange(query, r) && (query.Pagination() == K.ByCursor ==> K.BelowCursor(cursor, r))
  }

  function CursorSpec(c: K.Cursor): Spec { BeforeCursor(c.createdAt, c.orderId) }

  lemma RangeMeaning(query: ReportOrdersQuery, r: K.Row)
    ensures Meaning(DateRange("o.created_at", query.createdFrom, query.createdTo), Columns(r), Yes)
            == Of(InRange(query, r))
  {
  }

  lemma CursorMeaning(c: K.Cursor, r: K.Row)
    ensures Meaning(CursorSpec(c), Columns(r), Yes) == Of(K.BelowCursor(Some(c), r))
  {
  }

  /** The specifications the query object collects. */
  ghost predicate Collected(specs: seq<Spec>, query: ReportOrdersQuery, cursor: Option<K.Cursor>) {
    var range := DateRange("o.created_at", query.createdFrom, query.createdTo);
    var ranged := query.createdFrom.Some? || query.createdTo.Some?;
    var below := query.Pagination() == K.ByCursor && cursor.Some?;
    specs == (if ranged then [range] else []) + (if below then [CursorSpec(cursor.value)] else [])
  }

  lemma CollectedMeaning(specs: seq<Spec>, query: ReportOrdersQuery, cursor: Option<K.Cursor>, r: K.Row)
    requires Collected(specs, query, cursor)
    ensures MeaningAll(specs, Columns(r), Yes) == Of(Wanted(query, cursor, r))
  {
    hide Meaning, InRange;
    RangeMeaning(query, r);
    if cursor.Some? {
      CursorMeaning(cursor.value, r);
    }
    if |specs| == 2 {
      assert specs[1..] == [specs[1]];
      assert MeaningAll(specs[1..], Columns(r), Yes) == And(Meaning(specs[1], Columns(r), Yes), Yes);
    }
    NoBounds(query, r);
  }

  lemma NoBounds(query: ReportOrdersQuery, r: K.Row)
    ensures query.createdFrom.None? && query.createdTo.None? ==> InRange(query, r)
  {
  }

  lemma NonEmptyText(specs: seq<Spec>)
    ensures ToSql(AllOf(specs)).sql != []
    ensures specs != [] ==> ToSql(AllOf(specs)).sql != [True]
  {
    if specs != [] {
      JoinNonEmpty(KwAnd, specs);
      JoinedText(KwAnd, specs, [], []);
      var sql := Join(KwAnd, Wrapped(specs));
      assert sql + [] == sql;
      assert Parens(ToSql(specs[0]).sql)[0] == Open;
      assert sql[0] == Open;
    }
  }

  /** `createReportOrdersQueryObject`: the text selects exactly the wanted rows and takes exactly its
      own parameters, whatever values follow them. */
  method CreateReportOrdersQueryObject(query: ReportOrdersQuery, cursor: Option<K.Cursor>)
    returns (where: seq<Token>, params: seq<Value>)
    ensures Holes(where) == |params|
    ensures forall ps: seq<Value>, r: K.Row :: Selects(where, params + ps, r) <==> Wanted(query, cursor, r)
  {
    hide ToSql, MeaningAll, Holes, ReadOr, Wanted, InRange, Columns, Of;
    var specs: seq<Spec> := [];
    if query.createdFrom.Some? || query.createdTo.Some? {
      specs := specs + [DateRange("o.created_at", query.createdFrom, query.createdTo)];
    }
    if query.Pagination() == K.ByCursor && cursor.Some? {
      specs := specs + [CursorSpec(cursor.value)];
    }
    var fragment := ToSql(AllOf(specs));
    where := if fragment.sql == [True] then [] else fragment.sql;
    params := fragment.params;
    QueryObjectSelects(specs, query, cursor, where, params);
  }

  lemma QueryObjectSelects(specs: seq<Spec>, query: ReportOrdersQuery, cursor: Option<K.Cursor>,
                           where: seq<Token>, params: seq<Value>)
    requires Collected(specs, query, cursor)
    requires var f := ToSql(AllOf(specs)); params == f.params && where == if f.sql == [True] then [] else f.sql
    ensures Holes(where) == |params|
    ensures forall ps: seq<Value>, r: K.Row :: Selects(where, params + ps, r) <==> Wanted(query, cursor, r)
  {
    hide ReadOr, Wanted, InRange, Columns, Collected, AllParams, Wrapped, Join;
    HolesMatchParams(AllOf(specs));
    NonEmptyText(specs);
    if specs == [] {
      NoParams(specs, []);
    }
    forall ps: seq<Value>, r: K.Row ensures Selects(where, params + ps, r) <==> Wanted(query, cursor, r) {
      CollectedMeaning(specs, query, cursor, r);
      if where == [] {
        MeaningOfNothing(Columns(r));
      } else {
        ReadSpec(AllOf(specs), [], ps, Columns(r));
        assert where + [] == where;
      }
    }
  }

  lemma MeaningOfNothing(row: Row)
    ensures MeaningAll([], row, Yes) == Yes
  {
  }

  /** What the database does with the report query: the WHERE text takes the first values, LIMIT the
      next, OFFSET the one after. */
  function RunOrdersQuery(orders: seq<K.Row>, where: seq<Token>, hasOffset: bool, values: seq<Value>): seq<K.Row>
    requires |values| == Holes(where) + if hasOffset then 2 else 1
    requires forall i | Holes(where) <= i < |values| :: values[i].Num? && values[i].n >= 0
  {
    var hits := K.Filter(orders, IsSelected(where, values));
    K.Take(if hasOffset then K.Drop(hits, values[Holes(where) + 1].n) else hits, values[Holes(where)].n)
  }

  /** The report ranges over exactly the orders created between the given bounds, both inclusive, in
      their order. */
  lemma ReportRange(orders: seq<K.Row>, query: ReportOrdersQuery)
    requires K.Ordered(orders)
    ensures var rows := K.Filter(orders, IsInRange(query));
            && K.Ordered(rows)
            && forall r :: r in rows <==>
                 && r in orders
                 && (query.createdFrom == None || r.createdAt >= query.createdFrom.value)
                 && (query.createdTo == None || r.createdAt <= query.createdTo.value)
  {
    K.FilterMembers(orders, IsInRange(query));
    K.FilterOrdered(orders, IsInRange(query));
  }

  // ------------------------------------------------------------ walking the report while orders change

  /** What the report ranges over at each request, the orders being `tables[i]` at the i-th. */
  function Results(tables: seq<seq<K.Row>>, query: ReportOrdersQuery): (out: seq<seq<K.Row>>)
    ensures |out| == |tables| && forall i | 0 <= i < |out| :: out[i] == K.Filter(tables[i], IsInRange(query))
  {
    seq(|tables|, i requires 0 <= i < |tables| => K.Filter(tables[i], IsInRange(query)))
  }

  /** A cursor walk of the report over changing orders returns nothing twice and, once it ends, has
      returned every order in range that was there throughout; nothing out of range is returned. */
  lemma ReportWalk(tables: seq<seq<K.Row>>, query: ReportOrdersQuery, limit: nat, r: K.Row)
    requires forall i | 0 <= i < |tables| :: K.Ordered(tables[i])
    ensures var rows := K.WalkRows(Results(tables, query), limit, None);
            && K.Ordered(rows)
            && ((limit >= 1 && K.WalkEnds(Results(tables, query), limit, None) && InRange(query, r)
                 && forall i | 0 <= i < |tables| :: r in tables[i])
                ==> r in rows)
            && (r in rows ==> InRange(query, r))
  {
    hide InRange, K.Filter, K.WalkRows, K.WalkEnds, K.Ordered;
    var results := Results(tables, query);
    forall i | 0 <= i < |tables|
      ensures K.Ordered(results[i]) && forall x :: x in results[i] <==> x in tables[i] && InRange(query, x)
    {
      K.FilterOrdered(tables[i], IsInRange(query));
      K.FilterMembers(tables[i], IsInRange(query));
    }
    K.ChangingWalkNeverRepeats(results, limit, None);
    WalkStaysInRange(results, query, limit, None);
    if limit >= 1 && K.WalkEnds(results, limit, None) && InRange(query, r)
       && forall i | 0 <= i < |tables| :: r in tables[i]
    {
      K.ChangingWalkMissesNothing(results, limit, None, r);
    }
  }

  lemma {:induction false} WalkStaysInRange(results: seq<seq<K.Row>>, query: ReportOrdersQuery, limit: nat,
                                            c: Option<K.Cursor>)
    requires forall i | 0 <= i < |results| :: K.Ordered(results[i])
    requires forall i, x | 0 <= i < |results| && x in results[i] :: InRange(query, x)
    ensures forall x | x in K.WalkRows(results, limit, c) :: InRange(query, x)
    decreases |results|
  {
    hide InRange, K.Ordered, K.Below;
    if results != [] {
      K.PageRows(results[0], limit, c);
      var p := K.CursorPage(results[0], limit, c);
      WalkStaysInRange(results[1..], query, limit, p.info.nextCursor);
    }
  }

  class ReportsRepository {
    /** The joined orders, newest first. */
    var orders: seq<K.Row>

    constructor (orders: seq<K.Row>)
      ensures this.orders == orders
    {
      this.orders := orders;
    }

    /** The orders in the date range asked for. */
    function OrdersIn(query: ReportOrdersQuery): seq<K.Row>
      reads this
    {
      K.Filter(orders, IsInRange(query))
    }

    method FindOrdersPage(query: ReportOrdersQuery, cursor: Option<K.Cursor>) returns (page: K.Page)
      ensures page == if query.Pagination() == K.ByOffset
                      then K.OffsetPage(OrdersIn(query), query.Limit(), query.Offset())
                      else K.CursorPage(OrdersIn(query), query.Limit(), cursor)
      ensures page.info.limit == match query.limit { case Some(n) => n case None => 50 }
      ensures page.info.OffsetInfo? <==> query.pagination != Some(K.ByCursor)
      ensures page.info.OffsetInfo? ==> page.info.offset == match query.offset { case Some(n) => n case None => 0 }
    {
      hide K.Filter, Holes, Selects, Wanted;
      var pagination, limit, offset := query.Pagination(), query.Limit(), query.Offset();
      var where, params := CreateReportOrdersQueryObject(query, cursor);
      var values := params + [Num(limit + 1)];
      if pagination == K.ByOffset {
        values := values + [Num(offset)];
        assert values == params + [Num(limit + 1), Num(offset)];
      }
      var rows := RunOrdersQuery(orders, where, pagination == K.ByOffset, values);
      WantedRows(orders, query, cursor, IsSelected(where, values));
      var hasMore := |rows| > limit;
      var items := K.Take(rows, limit);
      var info := ToPageInfo(pagination, limit, offset, items, hasMore);
      page := K.Page(items, info);
    }

    method ToPageInfo(pagination: K.Pagination, limit: nat, offset: nat, items: seq<K.Row>, hasMore: bool)
      returns (info: K.PageInfo)
      ensures pagination == K.ByOffset ==>
                info == K.OffsetInfo(limit, offset, hasMore, if hasMore then Some(offset + limit) else None)
      ensures pagination == K.ByCursor ==>
                info == K.CursorInfo(limit, hasMore,
                                     if hasMore && items != [] then Some(items[|items| - 1].Key()) else None)
    {
      if pagination == K.ByOffset {
        info := K.OffsetInfo(limit, offset, hasMore, None);
        if hasMore {
          info := info.(nextOffset := Some(offset + limit));
        }
        return;
      }
      info := K.CursorInfo(limit, hasMore, None);
      if hasMore && items != [] {
        info := info.(nextCursor := Some(items[|items| - 1].Key()));
      }
    }

    static lemma WantedRows(orders: seq<K.Row>, query: ReportOrdersQuery, cursor: Option<K.Cursor>,
                            selected: K.Row -> bool)
      requires forall r :: selected(r) <==> Wanted(query, cursor, r)
      ensures var q := K.Filter(orders, IsInRange(query));
              K.Filter(orders, selected) == if query.Pagination() == K.ByOffset then q else K.Below(q, cursor)
    {
      if query.Pagination() == K.ByCursor {
        K.FilterTwice(orders, IsInRange(query), K.IsBelow(cursor), selected);
      } else {
        K.FilterExt(orders, selected, IsInRange(query));
      }
    }
  }
}
