/**
 * `SqlSugarOrderBuilder.OrderBuilder`: the caller's sort fields become one
 * `ORDER BY` clause, joined with commas, unless there are none.
 */
module SqlSugarOrderBuilder {
  import opened Text

  /** `BasePageInput`: page number, page size and sort fields ("Name asc", "Id desc", ...). */
  datatype BasePageInput = BasePageInput(page: int, pageSize: int, sortFieldArrary: seq<string>)

  /** A page input as constructed without arguments. */
  const DefaultPageInput := BasePageInput(1, 20, [])

  /** The ordering a query carries: the `ORDER BY` clauses applied to it so far, in order. */
  datatype Queryable = Queryable(orderClauses: seq<string>)

  /** `queryable.OrderBuilder(pageInput)`: `OrderByIF(fields.Count() > 0, string.Join(",", fields))`. */
  function OrderBuilder(q: Queryable, input: BasePageInput): (r: Queryable)
    ensures |input.sortFieldArrary| == 0 <==> r == q
    ensures |input.sortFieldArrary| > 0 ==> |r.orderClauses| == |q.orderClauses| + 1 && r.orderClauses[..|q.orderClauses|] == q.orderClauses
  {
    if |input.sortFieldArrary| > 0 then
      q.(orderClauses := q.orderClauses + [Join(",", input.sortFieldArrary)])
    else q
  }

  /** A page input built with its defaults orders nothing. */
  lemma DefaultOrdersNothing(q: Queryable)
    ensures OrderBuilder(q, DefaultPageInput) == q
  {
  }

  /** One sort field is used verbatim, with no separator. */
  lemma SingleFieldVerbatim(q: Queryable, input: BasePageInput)
    requires |input.sortFieldArrary| == 1
    ensures OrderBuilder(q, input).orderClauses == q.orderClauses + [input.sortFieldArrary[0]]
  {
  }

  /**
   * The clause lists the fields in the order given: splitting it at its
   * commas gives the fields back, when no field holds a comma itself.
   */
  lemma ClauseListsFieldsInOrder(q: Queryable, input: BasePageInput)
    requires |input.sortFieldArrary| > 0
    requires forall i | 0 <= i < |input.sortFieldArrary| :: ',' !in input.sortFieldArrary[i]
    ensures var r := OrderBuilder(q, input);
      Split(r.orderClauses[|r.orderClauses| - 1], ',') == input.sortFieldArrary
  {
    SplitJoin(input.sortFieldArrary, ',');
  }

  /** Adding a field to the end of the list adds a comma and that field to the end of the clause. */
  lemma AppendedFieldComesLast(q: Queryable, input: BasePageInput, field: string)
    requires |input.sortFieldArrary| > 0
    ensures var before := OrderBuilder(q, input);
      var after := OrderBuilder(q, input.(sortFieldArrary := input.sortFieldArrary + [field]));
      after.orderClauses[|q.orderClauses|] == before.orderClauses[|q.orderClauses|] + "," + field
  {
    JoinSnoc(",", input.sortFieldArrary, field);
  }
}
