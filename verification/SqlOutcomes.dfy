/** Which rows a rendered specification selects, comparison by comparison. */
module SqlOutcomes {
  import opened Common
  import opened SqlSpec

  /** The rendered text, evaluated with its own parameters, is true of the row: WHERE keeps it. */
  predicate Keeps(spec: Spec, row: Row) { Evaluate(ToSql(spec), row) == Some(Yes) }

  /** It is false of the row, so its negation keeps it. */
  predicate Excludes(spec: Spec, row: Row) { Evaluate(ToSql(spec), row) == Some(No) }

  /** A user's rows, and rows in a status; NULL is neither kept nor excluded. */
  lemma EqualityKeeps(column: string, userId: int, status: string, row: Row)
    ensures Keeps(Ownership(column, userId), row) <==> row(column) == Num(userId)
    ensures Excludes(Ownership(column, userId), row) <==> row(column).Num? && row(column) != Num(userId)
    ensures Keeps(HasStatus(column, status), row) <==> row(column) == Text(status)
    ensures Excludes(HasStatus(column, status), row) <==> row(column).Text? && row(column) != Text(status)
  {
    hide Evaluate;
    RenderingPreservesMeaning(Ownership(column, userId), row);
    RenderingPreservesMeaning(HasStatus(column, status), row);
  }

  /** Both bounds are inclusive, and an absent one does not restrict. */
  lemma DateRangeKeeps(column: string, from: Option<int>, to: Option<int>, row: Row)
    ensures Keeps(DateRange(column, from, to), row) <==>
              && (from.Some? ==> row(column).Num? && row(column).n >= from.value)
              && (to.Some? ==> row(column).Num? && row(column).n <= to.value)
    ensures Excludes(DateRange(column, from, to), row) <==>
              && row(column).Num?
              && ((from.Some? && row(column).n < from.value) || (to.Some? && row(column).n > to.value))
  {
    hide Evaluate;
    RenderingPreservesMeaning(DateRange(column, from, to), row);
  }

  /** The rectangle, edges included. */
  lemma NearbyKeeps(south: int, north: int, west: int, east: int, row: Row)
    ensures var lat, lng := row("latitude"), row("longitude");
            && (Keeps(Nearby(south, north, west, east), row) <==>
                  lat.Num? && south <= lat.n <= north && lng.Num? && west <= lng.n <= east)
            && (Excludes(Nearby(south, north, west, east), row) <==>
                  (lat.Num? && !(south <= lat.n <= north)) || (lng.Num? && !(west <= lng.n <= east)))
  {
    hide Evaluate;
    RenderingPreservesMeaning(Nearby(south, north, west, east), row);
  }

  /** Strictly older than the cursor, or as old with a smaller id. */
  lemma BeforeCursorKeeps(createdAt: int, orderId: int, row: Row)
    ensures var at, id := row("o.created_at"), row("o.id");
            && (Keeps(BeforeCursor(createdAt, orderId), row) <==>
                  at.Num? && (at.n < createdAt || (at.n == createdAt && id.Num? && id.n < orderId)))
            && (Excludes(BeforeCursor(createdAt, orderId), row) <==>
                  at.Num? && (at.n > createdAt || (at.n == createdAt && id.Num? && id.n >= orderId)))
  {
    hide Evaluate;
    RenderingPreservesMeaning(BeforeCursor(createdAt, orderId), row);
  }

  /** AND keeps what all its parts keep and excludes what one of them excludes; without parts it keeps
      everything. */
  lemma AllOfKeeps(specs: seq<Spec>, row: Row)
    ensures Keeps(AllOf(specs), row) <==> forall s | s in specs :: Keeps(s, row)
    ensures Excludes(AllOf(specs), row) <==> exists s :: s in specs && Excludes(s, row)
  {
    hide Evaluate, ToSql, Meaning, MeaningAll;
    MeaningParts(specs, row);
    MeaningOfGroups(specs, row);
    RenderingPreservesMeaning(AllOf(specs), row);
    AllTruth(specs, row);
  }

  /** OR keeps what one of its parts keeps and excludes what all of them exclude; without parts it keeps
      everything too. */
  lemma AnyOfKeeps(specs: seq<Spec>, row: Row)
    ensures Keeps(AnyOf(specs), row) <==> specs == [] || exists s :: s in specs && Keeps(s, row)
    ensures Excludes(AnyOf(specs), row) <==> specs != [] && forall s | s in specs :: Excludes(s, row)
  {
    hide Evaluate, ToSql, Meaning, MeaningAny;
    MeaningParts(specs, row);
    MeaningOfGroups(specs, row);
    RenderingPreservesMeaning(AnyOf(specs), row);
    AnyTruth(specs, row);
  }

  /** NOT exchanges the two; a row that is neither kept nor excluded stays so. */
  lemma NegationKeeps(spec: Spec, row: Row)
    ensures Keeps(Negation(spec), row) <==> Excludes(spec, row)
    ensures Excludes(Negation(spec), row) <==> Keeps(spec, row)
  {
    hide Evaluate, ToSql;
    RenderingPreservesMeaning(spec, row);
    RenderingPreservesMeaning(Negation(spec), row);
  }

  lemma MeaningParts(specs: seq<Spec>, row: Row)
    ensures forall s | s in specs :: Evaluate(ToSql(s), row) == Some(Meaning(s, row, Yes))
  {
    forall s | s in specs ensures Evaluate(ToSql(s), row) == Some(Meaning(s, row, Yes)) {
      RenderingPreservesMeaning(s, row);
    }
  }

  lemma MeaningOfGroups(specs: seq<Spec>, row: Row)
    ensures Meaning(AllOf(specs), row, Yes) == MeaningAll(specs, row, Yes)
    ensures Meaning(AnyOf(specs), row, Yes) == if specs == [] then Yes else MeaningAny(specs, row, Yes)
  {
  }

  lemma {:induction false} AllTruth(specs: seq<Spec>, row: Row)
    ensures MeaningAll(specs, row, Yes) == Yes <==> forall s | s in specs :: Meaning(s, row, Yes) == Yes
    ensures MeaningAll(specs, row, Yes) == No <==> exists s :: s in specs && Meaning(s, row, Yes) == No
  {
    if specs != [] {
      var first, rest := specs[0], specs[1..];
      AllTruth(rest, row);
      assert MeaningAll(specs, row, Yes) == And(Meaning(first, row, Yes), MeaningAll(rest, row, Yes));
      assert first in specs && forall s | s in specs :: s == first || s in rest;
      assert forall s | s in rest :: s in specs;
    }
  }

  lemma {:induction false} AnyTruth(specs: seq<Spec>, row: Row)
    ensures MeaningAny(specs, row, Yes) == Yes <==> exists s :: s in specs && Meaning(s, row, Yes) == Yes
    ensures MeaningAny(specs, row, Yes) == No <==> forall s | s in specs :: Meaning(s, row, Yes) == No
  {
    if specs != [] {
      var first, rest := specs[0], specs[1..];
      AnyTruth(rest, row);
      assert MeaningAny(specs, row, Yes) == Or(Meaning(first, row, Yes), MeaningAny(rest, row, Yes));
      assert first in specs && forall s | s in specs :: s == first || s in rest;
      assert forall s | s in rest :: s in specs;
    }
  }

  /** The reader groups as SQL does: `a OR b AND c` is `a OR (b AND c)`, `NOT a AND b` is `(NOT a) AND b`. */
  lemma ReaderPrecedence(a: string, b: string, c: string, x: Value, y: Value, z: Value, row: Row)
    ensures ReadOr(Comparison(a, Eq) + ([KwOr] + (Comparison(b, Eq) + ([KwAnd] + Comparison(c, Eq)))),
                   [x] + ([y] + [z]), row)
            == Some(Reading(Or(Compare(Eq, row(a), x), And(Compare(Eq, row(b), y), Compare(Eq, row(c), z))), [], []))
    ensures ReadOr([KwNot] + (Comparison(a, Eq) + ([KwAnd] + Comparison(b, Eq))), [x] + [y], row)
            == Some(Reading(And(Not(Compare(Eq, row(a), x)), Compare(Eq, row(b), y)), [], []))
  {
    OrOfAnd(a, b, c, x, y, z, row);
    AndOfNot(a, b, x, y, row);
  }

  lemma OrOfAnd(a: string, b: string, c: string, x: Value, y: Value, z: Value, row: Row)
    ensures ReadOr(Comparison(a, Eq) + ([KwOr] + (Comparison(b, Eq) + ([KwAnd] + Comparison(c, Eq)))),
                   [x] + ([y] + [z]), row)
            == Some(Reading(Or(Compare(Eq, row(a), x), And(Compare(Eq, row(b), y), Compare(Eq, row(c), z))), [], []))
  {
    hide Compare, ReadOr, ReadAnd, ReadNot, And, Or, Comparison;
    var vb, vc := Compare(Eq, row(b), y), Compare(Eq, row(c), z);
    var last, both := Comparison(c, Eq), Comparison(b, Eq) + ([KwAnd] + Comparison(c, Eq));
    assert last + [] == last && [z] + [] == [z];
    PredicateOfComparison(c, Eq, z, [], [], row);
    AndIsNot(last, [z], row, Reading(vc, [], []));
    PredicateOfComparison(b, Eq, y, [KwAnd] + last, [z], row);
    AndContinues(both, [y] + [z], row, vb, last, [z], Reading(vc, [], []));
    OrIsAnd(both, [y] + [z], row, Reading(And(vb, vc), [], []));
    PredicateOfComparison(a, Eq, x, [KwOr] + both, [y] + [z], row);
    OrContinues(Comparison(a, Eq) + ([KwOr] + both), [x] + ([y] + [z]), row, Compare(Eq, row(a), x), both,
                [y] + [z], Reading(And(vb, vc), [], []));
  }

  lemma AndOfNot(a: string, b: string, x: Value, y: Value, row: Row)
    ensures ReadOr([KwNot] + (Comparison(a, Eq) + ([KwAnd] + Comparison(b, Eq))), [x] + [y], row)
            == Some(Reading(And(Not(Compare(Eq, row(a), x)), Compare(Eq, row(b), y)), [], []))
  {
    hide Compare, ReadOr, ReadAnd, And, Comparison;
    var va, vb := Compare(Eq, row(a), x), Compare(Eq, row(b), y);
    var last, rest := Comparison(b, Eq), Comparison(a, Eq) + ([KwAnd] + Comparison(b, Eq));
    assert last + [] == last && [y] + [] == [y];
    PredicateOfComparison(b, Eq, y, [], [], row);
    AndIsNot(last, [y], row, Reading(vb, [], []));
    PredicateOfComparison(a, Eq, x, [KwAnd] + last, [y], row);
    var sql := [KwNot] + rest;
    assert sql[1..] == rest;
    assert ReadNot(sql, [x] + [y], row) == Some(Reading(Not(va), [KwAnd] + last, [y]));
    AndContinues(sql, [x] + [y], row, Not(va), last, [y], Reading(vb, [], []));
    OrIsAnd(sql, [x] + [y], row, Reading(And(Not(va), vb), [], []));
  }
}
