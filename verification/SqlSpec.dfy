/** Specifications rendered to parameterised SQL, and a reader of that SQL to hold them against. */
module SqlSpec {
  import opened Common

  /** SQL text as its tokens; `True` is the literal condition `1 = 1`, `Hole` a placeholder. */
  datatype Token =
    | Open | Close | KwAnd | KwOr | KwNot | KwBetween | True | Hole
    | Column(name: string)
    | Operator(op: Op)

  datatype Op = Eq | Lt | Le | Ge

  datatype Value = Null | Num(n: int) | Text(s: string)

  /** SQL's three truth values. */
  datatype Truth = Yes | No | Unknown

  function Of(b: bool): Truth { if b then Yes else No }

  function Not(a: Truth): Truth {
    match a
    case Yes => No
    case No => Yes
    case Unknown => Unknown
  }

  function And(a: Truth, b: Truth): Truth {
    if a == No || b == No then No else if a == Yes && b == Yes then Yes else Unknown
  }

  function Or(a: Truth, b: Truth): Truth { Not(And(Not(a), Not(b))) }

  /** Comparing with NULL, or a number with a text, is unknown. */
  function Compare(op: Op, a: Value, b: Value): Truth {
    match (a, b)
    case (Num(x), Num(y)) =>
      Of(match op { case Eq => x == y case Lt => x < y case Le => x <= y case Ge => x >= y })
    case (Text(x), Text(y)) => if op == Eq then Of(x == y) else Unknown
    case _ => Unknown
  }

  type Row = string -> Value

  // ------------------------------------------------------------ specifications

  datatype Fragment = Fragment(sql: seq<Token>, params: seq<Value>)

  /** The leaf predicates, and the three combinators. */
  datatype Spec =
    | Ownership(column: string, userId: int)
    | HasStatus(column: string, status: string)
    | DateRange(column: string, from: Option<int>, to: Option<int>)
    | Nearby(south: int, north: int, west: int, east: int)
    | BeforeCursor(createdAt: int, orderId: int)
    | AllOf(specs: seq<Spec>)
    | AnyOf(specs: seq<Spec>)
    | Negation(spec: Spec)

  function Comparison(column: string, op: Op): seq<Token> { [Column(column), Operator(op), Hole] }

  function BetweenHoles(column: string): seq<Token> { [Column(column), KwBetween, Hole, KwAnd, Hole] }

  function FixedPredicate(sql: seq<Token>, params: seq<Value>): Fragment { Fragment(sql, params) }

  const CURSOR_SQL: seq<Token> :=
    [Open] + Comparison("o.created_at", Lt) + [KwOr, Open] + Comparison("o.created_at", Eq) + [KwAnd]
    + Comparison("o.id", Lt) + [Close, Close]

  function ToSql(spec: Spec): Fragment
    decreases spec, 0
  {
    match spec
    case Ownership(column, userId) => FixedPredicate(Comparison(column, Eq), [Num(userId)])
    case HasStatus(column, status) => FixedPredicate(Comparison(column, Eq), [Text(status)])
    case DateRange(column, from, to) => DateRangeSql(column, from, to)
    case Nearby(south, north, west, east) =>
      FixedPredicate(BetweenHoles("latitude") + [KwAnd] + BetweenHoles("longitude"),
                     [Num(south), Num(north), Num(west), Num(east)])
    case BeforeCursor(createdAt, orderId) =>
      Fragment(CURSOR_SQL, [Num(createdAt), Num(createdAt), Num(orderId)])
    case AllOf(specs) => Compose(KwAnd, specs)
    case AnyOf(specs) => Compose(KwOr, specs)
    case Negation(inner) =>
      var f := ToSql(inner);
      Fragment([KwNot, Open] + f.sql + [Close], f.params)
  }

  function DateRangeSql(column: string, from: Option<int>, to: Option<int>): Fragment {
    var predicates := (if from.Some? then [Comparison(column, Ge)] else [])
                      + (if to.Some? then [Comparison(column, Le)] else []);
    var params := (if from.Some? then [Num(from.value)] else []) + (if to.Some? then [Num(to.value)] else []);
    FixedPredicate(OrTrue(Join(KwAnd, predicates)), params)
  }

  /** `dateRange`: a predicate and a parameter for each bound that is given. */
  method BuildDateRange(column: string, from: Option<int>, to: Option<int>) returns (f: Fragment)
    ensures f == ToSql(DateRange(column, from, to))
  {
    var predicates: seq<seq<Token>>, params: seq<Value> := [], [];
    if from.Some? {
      predicates := predicates + [Comparison(column, Ge)];
      params := params + [Num(from.value)];
    }
    if to.Some? {
      predicates := predicates + [Comparison(column, Le)];
      params := params + [Num(to.value)];
    }
    f := FixedPredicate(OrTrue(Join(KwAnd, predicates)), params);
  }

  function Join(operator: Token, parts: seq<seq<Token>>): seq<Token> {
    if parts == [] then []
    else if |parts| == 1 then parts[0]
    else parts[0] + [operator] + Join(operator, parts[1..])
  }

  /** `|| '1 = 1'` */
  function OrTrue(sql: seq<Token>): seq<Token> { if sql == [] then [True] else sql }

  function Compose(operator: Token, specs: seq<Spec>): Fragment
    decreases specs, 1
  {
    Fragment(OrTrue(Join(operator, Wrapped(specs))), AllParams(specs))
  }

  /** `fragments.map(f => '(' + f.sql + ')')` */
  function Wrapped(specs: seq<Spec>): (out: seq<seq<Token>>)
    decreases specs, 0
  {
    if specs == [] then [] else [[Open] + ToSql(specs[0]).sql + [Close]] + Wrapped(specs[1..])
  }

  /** `fragments.flatMap(f => f.params)` */
  function AllParams(specs: seq<Spec>): seq<Value>
    decreases specs, 0
  {
    if specs == [] then [] else ToSql(specs[0]).params + AllParams(specs[1..])
  }

  // ------------------------------------------------------------ what a specification means

  /** `emptyOr` is the value of a disjunction of nothing. */
  function Meaning(spec: Spec, row: Row, emptyOr: Truth): Truth
    decreases spec, 0
  {
    match spec
    case Ownership(column, userId) => Compare(Eq, row(column), Num(userId))
    case HasStatus(column, status) => Compare(Eq, row(column), Text(status))
    case DateRange(column, from, to) =>
      And(if from.Some? then Compare(Ge, row(column), Num(from.value)) else Yes,
          if to.Some? then Compare(Le, row(column), Num(to.value)) else Yes)
    case Nearby(south, north, west, east) =>
      And(Within(row("latitude"), Num(south), Num(north)), Within(row("longitude"), Num(west), Num(east)))
    case BeforeCursor(createdAt, orderId) =>
      Or(Compare(Lt, row("o.created_at"), Num(createdAt)),
         And(Compare(Eq, row("o.created_at"), Num(createdAt)), Compare(Lt, row("o.id"), Num(orderId))))
    case AllOf(specs) => MeaningAll(specs, row, emptyOr)
    case AnyOf(specs) => if specs == [] then emptyOr else MeaningAny(specs, row, emptyOr)
    case Negation(inner) => Not(Meaning(inner, row, emptyOr))
  }

  function MeaningAll(specs: seq<Spec>, row: Row, emptyOr: Truth): Truth
    decreases specs, 1
  {
    if specs == [] then Yes else And(Meaning(specs[0], row, emptyOr), MeaningAll(specs[1..], row, emptyOr))
  }

  function MeaningAny(specs: seq<Spec>, row: Row, emptyOr: Truth): Truth
    decreases specs, 1
  {
    if specs == [] then No else Or(Meaning(specs[0], row, emptyOr), MeaningAny(specs[1..], row, emptyOr))
  }

  function Within(v: Value, low: Value, high: Value): Truth { And(Compare(Ge, v, low), Compare(Le, v, high)) }

  // ------------------------------------------------------------ reading SQL

  /** What is left after reading a phrase, and its value. */
  datatype Reading = Reading(value: Truth, sql: seq<Token>, params: seq<Value>)

  predicate StartsWith(sql: seq<Token>, t: Token) { sql != [] && sql[0] == t }

  /** Disjunctions of conjunctions of negations of primaries; placeholders take the parameters from
      left to right. */
  function ReadOr(sql: seq<Token>, params: seq<Value>, row: Row): (r: Option<Reading>)
    ensures r.Some? ==> |r.value.sql| < |sql|
    decreases |sql|, 3
  {
    var first := ReadAnd(sql, params, row);
    if first.None? || !StartsWith(first.value.sql, KwOr) then first
    else
      var rest := ReadOr(first.value.sql[1..], first.value.params, row);
      if rest.None? then None
      else Some(rest.value.(value := Or(first.value.value, rest.value.value)))
  }

  function ReadAnd(sql: seq<Token>, params: seq<Value>, row: Row): (r: Option<Reading>)
    ensures r.Some? ==> |r.value.sql| < |sql|
    decreases |sql|, 2
  {
    var first := ReadNot(sql, params, row);
    if first.None? || !StartsWith(first.value.sql, KwAnd) then first
    else
      var rest := ReadAnd(first.value.sql[1..], first.value.params, row);
      if rest.None? then None
      else Some(rest.value.(value := And(first.value.value, rest.value.value)))
  }

  function ReadNot(sql: seq<Token>, params: seq<Value>, row: Row): (r: Option<Reading>)
    ensures r.Some? ==> |r.value.sql| < |sql|
    decreases |sql|, 1
  {
    if StartsWith(sql, KwNot) then
      var inner := ReadNot(sql[1..], params, row);
      if inner.None? then None else Some(inner.value.(value := Not(inner.value.value)))
    else ReadPrimary(sql, params, row)
  }

  function ReadPrimary(sql: seq<Token>, params: seq<Value>, row: Row): (r: Option<Reading>)
    ensures r.Some? ==> |r.value.sql| < |sql|
    decreases |sql|, 0
  {
    if StartsWith(sql, True) then Some(Reading(Yes, sql[1..], params))
    else if StartsWith(sql, Open) then
      var inner := ReadOr(sql[1..], params, row);
      if inner.None? || !StartsWith(inner.value.sql, Close) then None
      else Some(inner.value.(sql := inner.value.sql[1..]))
    else ReadPredicate(sql, params, row)
  }

  function ReadPredicate(sql: seq<Token>, params: seq<Value>, row: Row): (r: Option<Reading>)
    ensures r.Some? ==> |r.value.sql| < |sql|
  {
    if |sql| >= 3 && sql[0].Column? && sql[1].Operator? && sql[2] == Hole && params != [] then
      Some(Reading(Compare(sql[1].op, row(sql[0].name), params[0]), sql[3..], params[1..]))
    else if |sql| >= 5 && sql[0].Column? && sql[1..5] == [KwBetween, Hole, KwAnd, Hole] && |params| >= 2 then
      Some(Reading(Within(row(sql[0].name), params[0], params[1]), sql[5..], params[2..]))
    else None
  }

  // ------------------------------------------------------------ rendering then reading

  /** The text after a complete condition: nothing, or a closing parenthesis. */
  predicate Stops(sql: seq<Token>) { sql == [] || sql[0] == Close }

  /** Algebra the reader's grouping relies on. */
  lemma TruthLaws(a: Truth, b: Truth)
    ensures And(a, Yes) == a && Or(a, No) == a && And(a, b) == And(b, a)
  {
  }

  lemma ColumnStartsPredicate(sql: seq<Token>, params: seq<Value>, row: Row)
    requires sql != [] && sql[0].Column?
    ensures ReadNot(sql, params, row) == ReadPredicate(sql, params, row)
  {
    assert ReadPrimary(sql, params, row) == ReadPredicate(sql, params, row);
  }

  lemma PredicateOfComparison(column: string, op: Op, v: Value, rest: seq<Token>, ps: seq<Value>, row: Row)
    ensures ReadNot(Comparison(column, op) + rest, [v] + ps, row)
            == Some(Reading(Compare(op, row(column), v), rest, ps))
  {
    hide ReadNot, Compare;
    var sql := Comparison(column, op) + rest;
    assert sql[0] == Column(column) && sql[1] == Operator(op) && sql[2] == Hole && sql[3..] == rest;
    assert ([v] + ps)[1..] == ps && ([v] + ps)[0] == v;
    ColumnStartsPredicate(sql, [v] + ps, row);
  }

  lemma PredicateOfBetween(column: string, low: Value, high: Value, rest: seq<Token>, ps: seq<Value>, row: Row)
    ensures ReadNot(BetweenHoles(column) + rest, [low, high] + ps, row)
            == Some(Reading(Within(row(column), low, high), rest, ps))
  {
    hide ReadNot, Within;
    var sql, params := BetweenHoles(column) + rest, [low, high] + ps;
    assert sql[0] == Column(column) && sql[1] == KwBetween;
    assert sql[1..5] == [KwBetween, Hole, KwAnd, Hole] && sql[5..] == rest;
    assert params[2..] == ps && params[0] == low && params[1] == high;
    ColumnStartsPredicate(sql, params, row);
  }

  /** A negation level phrase that no AND follows, and one that an AND follows. */
  lemma AndIsNot(sql: seq<Token>, params: seq<Value>, row: Row, r: Reading)
    requires ReadNot(sql, params, row) == Some(r) && !StartsWith(r.sql, KwAnd)
    ensures ReadAnd(sql, params, row) == Some(r)
  {
  }

  lemma AndContinues(sql: seq<Token>, params: seq<Value>, row: Row, v: Truth, rest: seq<Token>, ps: seq<Value>,
                     r: Reading)
    requires ReadNot(sql, params, row) == Some(Reading(v, [KwAnd] + rest, ps))
    requires ReadAnd(rest, ps, row) == Some(r)
    ensures ReadAnd(sql, params, row) == Some(r.(value := And(v, r.value)))
  {
    hide And, ReadNot;
    assert ([KwAnd] + rest)[1..] == rest;
  }

  lemma OrContinues(sql: seq<Token>, params: seq<Value>, row: Row, v: Truth, rest: seq<Token>, ps: seq<Value>,
                    r: Reading)
    requires ReadNot(sql, params, row) == Some(Reading(v, [KwOr] + rest, ps))
    requires ReadOr(rest, ps, row) == Some(r)
    ensures ReadOr(sql, params, row) == Some(r.(value := Or(v, r.value)))
  {
    hide Or, ReadNot;
    assert ([KwOr] + rest)[1..] == rest;
    AndIsNot(sql, params, row, Reading(v, [KwOr] + rest, ps));
  }

  lemma OrIsNot(sql: seq<Token>, params: seq<Value>, row: Row, r: Reading)
    requires ReadNot(sql, params, row) == Some(r) && Stops(r.sql)
    ensures ReadOr(sql, params, row) == ReadAnd(sql, params, row) == Some(r)
  {
    AndIsNot(sql, params, row, r);
    OrIsAnd(sql, params, row, r);
  }

  lemma OrIsAnd(sql: seq<Token>, params: seq<Value>, row: Row, r: Reading)
    requires ReadAnd(sql, params, row) == Some(r) && Stops(r.sql)
    ensures ReadOr(sql, params, row) == Some(r)
  {
  }

  /** `spec`'s text, followed by anything that stops a condition, reads back as its meaning and
      takes exactly its parameters. */
  ghost predicate ReadsBack(spec: Spec, rest: seq<Token>, ps: seq<Value>, row: Row) {
    var f := ToSql(spec);
    ReadOr(f.sql + rest, f.params + ps, row) == Some(Reading(Meaning(spec, row, Yes), rest, ps))
  }

  lemma ReadEquality(column: string, v: Value, rest: seq<Token>, ps: seq<Value>, row: Row)
    requires Stops(rest)
    ensures ReadOr(Comparison(column, Eq) + rest, [v] + ps, row) == Some(Reading(Compare(Eq, row(column), v), rest, ps))
  {
    hide Compare, Comparison, ReadOr, ReadAnd, ReadNot;
    PredicateOfComparison(column, Eq, v, rest, ps, row);
    OrIsNot(Comparison(column, Eq) + rest, [v] + ps, row, Reading(Compare(Eq, row(column), v), rest, ps));
  }

  lemma ReadDateRange(column: string, from: Option<int>, to: Option<int>, rest: seq<Token>, ps: seq<Value>, row: Row)
    requires Stops(rest)
    ensures ReadsBack(DateRange(column, from, to), rest, ps, row)
  {
    hide Compare, Comparison, ReadOr, ReadAnd, ReadNot, And;
    DateRangeText(column, from, to);
    var f := DateRangeSql(column, from, to);
    var sql, params := f.sql + rest, f.params + ps;
    if from.Some? {
      var low := Compare(Ge, row(column), Num(from.value));
      TruthLaws(low, Yes);
      if to.Some? {
        var high := Compare(Le, row(column), Num(to.value));
        var tail, qs := Comparison(column, Le) + rest, [Num(to.value)] + ps;
        assert sql == Comparison(column, Ge) + ([KwAnd] + tail);
        assert params == [Num(from.value)] + qs;
        PredicateOfComparison(column, Ge, Num(from.value), [KwAnd] + tail, qs, row);
        PredicateOfComparison(column, Le, Num(to.value), rest, ps, row);
        AndIsNot(tail, qs, row, Reading(high, rest, ps));
        AndContinues(sql, params, row, low, tail, qs, Reading(high, rest, ps));
        OrIsAnd(sql, params, row, Reading(And(low, high), rest, ps));
      } else {
        PredicateOfComparison(column, Ge, Num(from.value), rest, ps, row);
        OrIsNot(sql, params, row, Reading(low, rest, ps));
      }
    } else if to.Some? {
      var high := Compare(Le, row(column), Num(to.value));
      TruthLaws(Yes, high);
      TruthLaws(high, Yes);
      PredicateOfComparison(column, Le, Num(to.value), rest, ps, row);
      OrIsNot(sql, params, row, Reading(high, rest, ps));
    } else {
      TruthLaws(Yes, Yes);
      ReadTrue(rest, ps, row);
    }
  }

  lemma DateRangeText(column: string, from: Option<int>, to: Option<int>)
    ensures DateRangeSql(column, from, to)
            == match (from, to)
               case (Some(a), Some(b)) =>
                 Fragment(Comparison(column, Ge) + [KwAnd] + Comparison(column, Le), [Num(a), Num(b)])
               case (Some(a), None) => Fragment(Comparison(column, Ge), [Num(a)])
               case (None, Some(b)) => Fragment(Comparison(column, Le), [Num(b)])
               case (None, None) => Fragment([True], [])
  {
    var parts := [Comparison(column, Ge)] + [Comparison(column, Le)];
    assert parts[1..] == [Comparison(column, Le)];
    assert Join(KwAnd, parts[1..]) == Comparison(column, Le);
  }

  lemma ReadNearby(south: int, north: int, west: int, east: int, rest: seq<Token>, ps: seq<Value>, row: Row)
    requires Stops(rest)
    ensures ReadsBack(Nearby(south, north, west, east), rest, ps, row)
  {
    hide Within, BetweenHoles, ReadOr, ReadAnd, ReadNot, And;
    var f := ToSql(Nearby(south, north, west, east));
    var tail, qs := BetweenHoles("longitude") + rest, [Num(west), Num(east)] + ps;
    assert f.sql + rest == BetweenHoles("latitude") + ([KwAnd] + tail);
    assert f.params + ps == [Num(south), Num(north)] + qs;
    PredicateOfBetween("latitude", Num(south), Num(north), [KwAnd] + tail, qs, row);
    PredicateOfBetween("longitude", Num(west), Num(east), rest, ps, row);
    var lat, lng := Within(row("latitude"), Num(south), Num(north)), Within(row("longitude"), Num(west), Num(east));
    AndIsNot(tail, qs, row, Reading(lng, rest, ps));
    AndContinues(f.sql + rest, f.params + ps, row, lat, tail, qs, Reading(lng, rest, ps));
    OrIsAnd(f.sql + rest, f.params + ps, row, Reading(And(lat, lng), rest, ps));
  }

  function Parens(sql: seq<Token>): seq<Token> { [Open] + sql + [Close] }

  /** A parenthesised condition is a primary. */
  lemma ReadParens(sql: seq<Token>, rest: seq<Token>, params: seq<Value>, ps: seq<Value>, row: Row, v: Truth)
    requires ReadOr(sql + ([Close] + rest), params, row) == Some(Reading(v, [Close] + rest, ps))
    ensures ReadNot(Parens(sql) + rest, params, row) == Some(Reading(v, rest, ps))
  {
    hide ReadOr;
    var all := Parens(sql) + rest;
    assert all[1..] == sql + ([Close] + rest);
    assert ([Close] + rest)[1..] == rest;
    assert ReadPrimary(all, params, row) == Some(Reading(v, rest, ps));
  }

  const TIE_SQL: seq<Token> := Comparison("o.created_at", Eq) + [KwAnd] + Comparison("o.id", Lt)

  lemma ReadTie(createdAt: Value, orderId: Value, rest: seq<Token>, ps: seq<Value>, row: Row)
    ensures ReadNot(Parens(TIE_SQL) + rest, [createdAt, orderId] + ps, row)
            == Some(Reading(And(Compare(Eq, row("o.created_at"), createdAt), Compare(Lt, row("o.id"), orderId)),
                            rest, ps))
  {
    hide Compare, Comparison, ReadOr, ReadAnd, ReadNot, And;
    var same, lower := Compare(Eq, row("o.created_at"), createdAt), Compare(Lt, row("o.id"), orderId);
    var stop := [Close] + rest;
    var tail, qs := Comparison("o.id", Lt) + stop, [orderId] + ps;
    assert TIE_SQL + stop == Comparison("o.created_at", Eq) + ([KwAnd] + tail);
    assert [createdAt, orderId] + ps == [createdAt] + qs;
    PredicateOfComparison("o.created_at", Eq, createdAt, [KwAnd] + tail, qs, row);
    PredicateOfComparison("o.id", Lt, orderId, stop, ps, row);
    AndIsNot(tail, qs, row, Reading(lower, stop, ps));
    AndContinues(TIE_SQL + stop, [createdAt] + qs, row, same, tail, qs, Reading(lower, stop, ps));
    OrIsAnd(TIE_SQL + stop, [createdAt] + qs, row, Reading(And(same, lower), stop, ps));
    ReadParens(TIE_SQL, rest, [createdAt] + qs, ps, row, And(same, lower));
  }

  lemma ReadCursor(createdAt: int, orderId: int, rest: seq<Token>, ps: seq<Value>, row: Row)
    requires Stops(rest)
    ensures ReadsBack(BeforeCursor(createdAt, orderId), rest, ps, row)
  {
    hide Compare, Comparison, ReadOr, ReadAnd, ReadNot, And, Or, Parens;
    var at, id := Num(createdAt), Num(orderId);
    var older := Compare(Lt, row("o.created_at"), at);
    var tie := And(Compare(Eq, row("o.created_at"), at), Compare(Lt, row("o.id"), id));
    var stop := [Close] + rest;
    var tail, qs := Parens(TIE_SQL) + stop, [at, id] + ps;
    var inner := Comparison("o.created_at", Lt) + [KwOr] + Parens(TIE_SQL);
    ReadTie(at, id, stop, ps, row);
    OrIsNot(tail, qs, row, Reading(tie, stop, ps));
    PredicateOfComparison("o.created_at", Lt, at, [KwOr] + tail, qs, row);
    assert inner + stop == Comparison("o.created_at", Lt) + ([KwOr] + tail);
    OrContinues(inner + stop, [at] + qs, row, older, tail, qs, Reading(tie, stop, ps));
    ReadParens(inner, rest, [at] + qs, ps, row, Or(older, tie));
    OrIsNot(Parens(inner) + rest, [at] + qs, row, Reading(Or(older, tie), rest, ps));
    CursorText();
    assert [at, at, id] + ps == [at] + qs;
  }

  lemma CursorText()
    ensures CURSOR_SQL == Parens(Comparison("o.created_at", Lt) + [KwOr] + Parens(TIE_SQL))
  {
  }

  lemma JoinFirst(operator: Token, parts: seq<seq<Token>>, rest: seq<Token>)
    requires |parts| > 1
    ensures Join(operator, parts) + rest == parts[0] + ([operator] + (Join(operator, parts[1..]) + rest))
  {
  }

  lemma FirstSpec(specs: seq<Spec>, ps: seq<Value>)
    requires specs != []
    ensures |Wrapped(specs)| == 1 + |Wrapped(specs[1..])|
    ensures Wrapped(specs)[0] == Parens(ToSql(specs[0]).sql) && Wrapped(specs)[1..] == Wrapped(specs[1..])
    ensures AllParams(specs) + ps == ToSql(specs[0]).params + (AllParams(specs[1..]) + ps)
  {
    hide ToSql;
  }

  lemma {:induction false} WrappedLength(specs: seq<Spec>)
    ensures |Wrapped(specs)| == |specs|
  {
    hide ToSql;
    if specs != [] {
      WrappedLength(specs[1..]);
    }
  }

  /** The first of a list of specifications, joined to the others. */
  lemma JoinedText(operator: Token, specs: seq<Spec>, rest: seq<Token>, ps: seq<Value>)
    requires specs != []
    ensures Join(operator, Wrapped(specs)) + rest
            == Parens(ToSql(specs[0]).sql)
               + if |specs| == 1 then rest else [operator] + (Join(operator, Wrapped(specs[1..])) + rest)
    ensures AllParams(specs) + ps == ToSql(specs[0]).params + (AllParams(specs[1..]) + ps)
    ensures |specs| == 1 ==> AllParams(specs[1..]) + ps == ps
  {
    hide ToSql, Wrapped, Parens, AllParams;
    WrappedLength(specs);
    FirstSpec(specs, ps);
    if |specs| == 1 {
      NoParams(specs[1..], ps);
    } else {
      JoinFirst(operator, Wrapped(specs), rest);
    }
  }

  lemma NoParams(specs: seq<Spec>, ps: seq<Value>)
    requires specs == []
    ensures AllParams(specs) + ps == ps
  {
  }

  /** A list of parenthesised specifications joined by AND. */
  lemma {:induction false} ReadConjunction(specs: seq<Spec>, rest: seq<Token>, ps: seq<Value>, row: Row)
    requires specs != [] && Stops(rest)
    ensures ReadAnd(Join(KwAnd, Wrapped(specs)) + rest, AllParams(specs) + ps, row)
            == Some(Reading(MeaningAll(specs, row, Yes), rest, ps))
    decreases specs, 0
  {
    hide ToSql, Meaning, ReadOr, ReadAnd, ReadNot, And, Parens, Join, Wrapped, AllParams;
    var f, tail, first := ToSql(specs[0]), specs[1..], Meaning(specs[0], row, Yes);
    var qs := AllParams(tail) + ps;
    JoinedText(KwAnd, specs, rest, ps);
    TruthLaws(first, Yes);
    if tail == [] {
      ReadSpec(specs[0], [Close] + rest, qs, row);
      ReadParens(f.sql, rest, f.params + qs, qs, row, first);
      AndIsNot(Parens(f.sql) + rest, f.params + qs, row, Reading(first, rest, qs));
    } else {
      var more := Join(KwAnd, Wrapped(tail)) + rest;
      ReadSpec(specs[0], [Close] + ([KwAnd] + more), qs, row);
      ReadParens(f.sql, [KwAnd] + more, f.params + qs, qs, row, first);
      ReadConjunction(tail, rest, ps, row);
      AndContinues(Parens(f.sql) + ([KwAnd] + more), f.params + qs, row, first, more, qs,
                   Reading(MeaningAll(tail, row, Yes), rest, ps));
    }
  }

  /** The same for OR. */
  lemma {:induction false} ReadDisjunction(specs: seq<Spec>, rest: seq<Token>, ps: seq<Value>, row: Row)
    requires specs != [] && Stops(rest)
    ensures ReadOr(Join(KwOr, Wrapped(specs)) + rest, AllParams(specs) + ps, row)
            == Some(Reading(MeaningAny(specs, row, Yes), rest, ps))
    decreases specs, 0
  {
    hide ToSql, Meaning, ReadOr, ReadAnd, ReadNot, Or, Parens, Join, Wrapped, AllParams;
    var f, tail, first := ToSql(specs[0]), specs[1..], Meaning(specs[0], row, Yes);
    var qs := AllParams(tail) + ps;
    JoinedText(KwOr, specs, rest, ps);
    TruthLaws(first, No);
    if tail == [] {
      ReadSpec(specs[0], [Close] + rest, qs, row);
      ReadParens(f.sql, rest, f.params + qs, qs, row, first);
      OrIsNot(Parens(f.sql) + rest, f.params + qs, row, Reading(first, rest, qs));
    } else {
      var more := Join(KwOr, Wrapped(tail)) + rest;
      ReadSpec(specs[0], [Close] + ([KwOr] + more), qs, row);
      ReadParens(f.sql, [KwOr] + more, f.params + qs, qs, row, first);
      ReadDisjunction(tail, rest, ps, row);
      OrContinues(Parens(f.sql) + ([KwOr] + more), f.params + qs, row, first, more, qs,
                  Reading(MeaningAny(tail, row, Yes), rest, ps));
    }
  }

  lemma ReadNegation(inner: Spec, rest: seq<Token>, ps: seq<Value>, row: Row)
    requires Stops(rest) && ReadsBack(inner, [Close] + rest, ps, row)
    ensures ReadsBack(Negation(inner), rest, ps, row)
  {
    hide ReadOr, ReadAnd;
    var f, m := ToSql(inner), Meaning(inner, row, Yes);
    var sql := [KwNot] + (Parens(f.sql) + rest);
    assert ToSql(Negation(inner)) == Fragment([KwNot] + Parens(f.sql), f.params);
    assert ToSql(Negation(inner)).sql + rest == sql;
    ReadParens(f.sql, rest, f.params + ps, ps, row, m);
    assert sql[1..] == Parens(f.sql) + rest;
    assert ReadNot(sql, f.params + ps, row) == Some(Reading(Not(m), rest, ps));
    OrIsNot(sql, f.params + ps, row, Reading(Not(m), rest, ps));
  }

  lemma ReadEmpty(spec: Spec, rest: seq<Token>, ps: seq<Value>, row: Row)
    requires Stops(rest) && (spec == AllOf([]) || spec == AnyOf([]))
    ensures ReadsBack(spec, rest, ps, row)
  {
    hide ReadOr;
    assert ToSql(spec) == Fragment([True], []);
    ReadTrue(rest, ps, row);
  }

  lemma ReadGroup(spec: Spec, rest: seq<Token>, ps: seq<Value>, row: Row)
    requires Stops(rest)
    requires spec.AllOf? || spec.AnyOf?
    requires spec.specs != []
    requires spec.AllOf? ==> ReadAnd(Join(KwAnd, Wrapped(spec.specs)) + rest, AllParams(spec.specs) + ps, row)
                             == Some(Reading(MeaningAll(spec.specs, row, Yes), rest, ps))
    requires spec.AnyOf? ==> ReadOr(Join(KwOr, Wrapped(spec.specs)) + rest, AllParams(spec.specs) + ps, row)
                             == Some(Reading(MeaningAny(spec.specs, row, Yes), rest, ps))
    ensures ReadsBack(spec, rest, ps, row)
  {
    hide ReadOr, ReadAnd, Wrapped, Join, AllParams, MeaningAll, MeaningAny;
    var op := if spec.AllOf? then KwAnd else KwOr;
    JoinNonEmpty(op, spec.specs);
    assert ToSql(spec) == Fragment(Join(op, Wrapped(spec.specs)), AllParams(spec.specs));
    if spec.AllOf? {
      OrIsAnd(Join(KwAnd, Wrapped(spec.specs)) + rest, AllParams(spec.specs) + ps, row,
              Reading(MeaningAll(spec.specs, row, Yes), rest, ps));
    }
  }

  /** Reading undoes rendering, for every tree, row and surrounding text. */
  lemma {:induction false} ReadSpec(spec: Spec, rest: seq<Token>, ps: seq<Value>, row: Row)
    requires Stops(rest)
    ensures ReadsBack(spec, rest, ps, row)
    decreases spec, 1
  {
    hide ReadOr, ReadAnd, Join, Wrapped, AllParams, MeaningAll, MeaningAny;
    match spec
    case Ownership(column, userId) => ReadEquality(column, Num(userId), rest, ps, row);
    case HasStatus(column, status) => ReadEquality(column, Text(status), rest, ps, row);
    case DateRange(column, from, to) => ReadDateRange(column, from, to, rest, ps, row);
    case Nearby(south, north, west, east) => ReadNearby(south, north, west, east, rest, ps, row);
    case BeforeCursor(createdAt, orderId) => ReadCursor(createdAt, orderId, rest, ps, row);
    case Negation(inner) =>
      ReadSpec(inner, [Close] + rest, ps, row);
      ReadNegation(inner, rest, ps, row);
    case AllOf(specs) =>
      if specs == [] {
        ReadEmpty(spec, rest, ps, row);
      } else {
        ReadConjunction(specs, rest, ps, row);
        ReadGroup(spec, rest, ps, row);
      }
    case AnyOf(specs) =>
      if specs == [] {
        ReadEmpty(spec, rest, ps, row);
      } else {
        ReadDisjunction(specs, rest, ps, row);
        ReadGroup(spec, rest, ps, row);
      }
  }

  lemma ReadTrue(rest: seq<Token>, ps: seq<Value>, row: Row)
    requires Stops(rest)
    ensures ReadOr([True] + rest, [] + ps, row) == Some(Reading(Yes, rest, ps))
  {
    var sql := [True] + rest;
    assert sql[1..] == rest && [] + ps == ps;
    assert ReadPrimary(sql, ps, row) == Some(Reading(Yes, rest, ps));
    assert ReadNot(sql, ps, row) == ReadPrimary(sql, ps, row);
    OrIsNot(sql, ps, row, Reading(Yes, rest, ps));
  }

  lemma JoinNonEmpty(operator: Token, specs: seq<Spec>)
    requires specs != []
    ensures OrTrue(Join(operator, Wrapped(specs))) == Join(operator, Wrapped(specs))
  {
    hide ToSql;
    JoinedText(operator, specs, [], []);
    assert Join(operator, Wrapped(specs)) + [] == Join(operator, Wrapped(specs));
  }

  // ------------------------------------------------------------ main results

  /** Evaluating a complete text with its parameters. */
  function Evaluate(f: Fragment, row: Row): Option<Truth> {
    var r := ReadOr(f.sql, f.params, row);
    if r.Some? && r.value.sql == [] && r.value.params == [] then Some(r.value.value) else None
  }

  /** Every tree renders to well-formed SQL whose placeholders take all parameters in order and whose
      value, under SQL's precedence and three-valued logic, is the tree's, an empty `or` counting as
      true. */
  lemma RenderingPreservesMeaning(spec: Spec, row: Row)
    ensures Evaluate(ToSql(spec), row) == Some(Meaning(spec, row, Yes))
  {
    ReadSpec(spec, [], [], row);
    assert ToSql(spec).sql + [] == ToSql(spec).sql && ToSql(spec).params + [] == ToSql(spec).params;
  }

  predicate NoEmptyOr(spec: Spec)
    decreases spec
  {
    match spec
    case AllOf(specs) => forall s | s in specs :: NoEmptyOr(s)
    case AnyOf(specs) => specs != [] && forall s | s in specs :: NoEmptyOr(s)
    case Negation(inner) => NoEmptyOr(inner)
    case _ => true
  }

  lemma {:induction false} EmptyOrUnused(spec: Spec, row: Row)
    requires NoEmptyOr(spec)
    ensures Meaning(spec, row, Yes) == Meaning(spec, row, No)
    decreases spec, 1
  {
    match spec
    case AllOf(specs) => EmptyOrUnusedIn(specs, row);
    case AnyOf(specs) => EmptyOrUnusedIn(specs, row);
    case Negation(inner) => EmptyOrUnused(inner, row);
    case _ =>
  }

  lemma {:induction false} EmptyOrUnusedIn(specs: seq<Spec>, row: Row)
    requires forall s | s in specs :: NoEmptyOr(s)
    ensures MeaningAll(specs, row, Yes) == MeaningAll(specs, row, No)
    ensures MeaningAny(specs, row, Yes) == MeaningAny(specs, row, No)
    decreases specs, 0
  {
    if specs != [] {
      EmptyOrUnused(specs[0], row);
      EmptyOrUnusedIn(specs[1..], row);
    }
  }

  /** Without empty `or` nodes the value is the usual one, where a disjunction of nothing is false. */
  lemma RenderingIsStandard(spec: Spec, row: Row)
    requires NoEmptyOr(spec)
    ensures Evaluate(ToSql(spec), row) == Some(Meaning(spec, row, No))
  {
    RenderingPreservesMeaning(spec, row);
    EmptyOrUnused(spec, row);
  }

  /** An `or` of standard alternatives is standard exactly when it has an alternative. */
  lemma OrIsStandardIffNonEmpty(specs: seq<Spec>, row: Row)
    requires forall s | s in specs :: NoEmptyOr(s)
    ensures Evaluate(ToSql(AnyOf(specs)), row) == Some(MeaningAny(specs, row, No)) <==> specs != []
  {
    RenderingPreservesMeaning(AnyOf(specs), row);
    EmptyOrUnusedIn(specs, row);
  }

  function Holes(sql: seq<Token>): nat {
    if sql == [] then 0 else (if sql[0] == Hole then 1 else 0) + Holes(sql[1..])
  }

  lemma {:induction false} HolesConcat(a: seq<Token>, b: seq<Token>)
    ensures Holes(a + b) == Holes(a) + Holes(b)
  {
    if a == [] {
      assert a + b == b;
    } else {
      assert (a + b)[1..] == a[1..] + b;
      HolesConcat(a[1..], b);
    }
  }

  lemma {:induction false} HolesJoin(operator: Token, specs: seq<Spec>)
    requires operator != Hole
    ensures Holes(Join(operator, Wrapped(specs))) == |AllParams(specs)|
    decreases specs, 0
  {
    if specs != [] {
      var f := ToSql(specs[0]);
      HolesMatchParams(specs[0]);
      HolesConcat([Open] + f.sql, [Close]);
      HolesConcat([Open], f.sql);
      assert Wrapped(specs)[1..] == Wrapped(specs[1..]);
      HolesJoin(operator, specs[1..]);
      HolesConcat(Wrapped(specs)[0] + [operator], Join(operator, Wrapped(specs[1..])));
      HolesConcat(Wrapped(specs)[0], [operator]);
    }
  }

  lemma HolesDateRange(column: string, from: Option<int>, to: Option<int>)
    ensures Holes(DateRangeSql(column, from, to).sql) == |DateRangeSql(column, from, to).params|
  {
    DateRangeText(column, from, to);
    HolesConcat(Comparison(column, Ge) + [KwAnd], Comparison(column, Le));
    HolesConcat(Comparison(column, Ge), [KwAnd]);
    HolesComparison(column, Ge);
    HolesComparison(column, Le);
  }

  lemma HolesComparison(column: string, op: Op)
    ensures Holes(Comparison(column, op)) == 1
  {
    assert Comparison(column, op)[1..] == [Operator(op), Hole];
    assert [Operator(op), Hole][1..] == [Hole] && [Hole][1..] == [];
    assert Holes([Hole]) == 1;
    assert Holes([Operator(op), Hole]) == 1;
  }

  lemma HolesNearby()
    ensures Holes(BetweenHoles("latitude") + [KwAnd] + BetweenHoles("longitude")) == 4
  {
    HolesConcat(BetweenHoles("latitude") + [KwAnd], BetweenHoles("longitude"));
    HolesConcat(BetweenHoles("latitude"), [KwAnd]);
    HolesBetween("latitude");
    HolesBetween("longitude");
  }

  lemma HolesBetween(column: string)
    ensures Holes(BetweenHoles(column)) == 2
  {
    assert BetweenHoles(column) == [Column(column), KwBetween] + ([Hole, KwAnd] + [Hole]);
    HolesConcat([Column(column), KwBetween], [Hole, KwAnd] + [Hole]);
    HolesConcat([Hole, KwAnd], [Hole]);
    assert [Column(column), KwBetween][1..] == [KwBetween] && [Hole, KwAnd][1..] == [KwAnd];
  }

  /** As many placeholders as parameters. */
  lemma {:induction false} HolesMatchParams(spec: Spec)
    ensures Holes(ToSql(spec).sql) == |ToSql(spec).params|
    decreases spec, 1
  {
    hide Join, Wrapped, AllParams, Comparison, BetweenHoles;
    match spec
    case AllOf(specs) => HolesJoin(KwAnd, specs); HolesOrTrue(KwAnd, specs);
    case AnyOf(specs) => HolesJoin(KwOr, specs); HolesOrTrue(KwOr, specs);
    case Negation(inner) => HolesMatchParams(inner); HolesNegation(ToSql(inner).sql);
    case Ownership(column, _) => HolesComparison(column, Eq);
    case HasStatus(column, _) => HolesComparison(column, Eq);
    case DateRange(column, from, to) => HolesDateRange(column, from, to);
    case Nearby(_, _, _, _) => HolesNearby();
    case BeforeCursor(_, _) => HolesCursor();
  }

  lemma HolesNegation(sql: seq<Token>)
    ensures Holes([KwNot, Open] + sql + [Close]) == Holes(sql)
  {
    HolesConcat([KwNot, Open] + sql, [Close]);
    HolesConcat([KwNot, Open], sql);
    assert [KwNot, Open][1..] == [Open];
  }

  lemma HolesOrTrue(operator: Token, specs: seq<Spec>)
    ensures Holes(OrTrue(Join(operator, Wrapped(specs)))) == Holes(Join(operator, Wrapped(specs)))
  {
    assert Holes([True]) == 0;
  }

  lemma HolesCursor()
    ensures Holes(CURSOR_SQL) == 3
  {
    var c := Comparison("o.created_at", Lt);
    var e, i := Comparison("o.created_at", Eq), Comparison("o.id", Lt);
    HolesConcat([Open] + c + [KwOr, Open] + e + [KwAnd] + i, [Close, Close]);
    HolesConcat([Open] + c + [KwOr, Open] + e + [KwAnd], i);
    HolesConcat([Open] + c + [KwOr, Open] + e, [KwAnd]);
    HolesConcat([Open] + c + [KwOr, Open], e);
    HolesConcat([Open] + c, [KwOr, Open]);
    HolesConcat([Open], c);
    HolesComparison("o.created_at", Lt);
    HolesComparison("o.created_at", Eq);
    HolesComparison("o.id", Lt);
    assert [KwOr, Open][1..] == [Open] && [Close, Close][1..] == [Close];
  }
}
