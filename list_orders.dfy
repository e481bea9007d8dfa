/**
 * The query the `GET /api/orders` handler sends to the store, as a description
 * value: the table, the selected columns, the equality filters in the order they
 * were added, and the ordering. The store that runs it is not part of this model.
 */
module ListOrders {
  import opened JsValues

  datatype Filter = Eq(column: string, value: JsValue)

  datatype Ordering = OrderBy(column: string, ascending: bool)

  datatype Query = Query(table: string, columns: string, filters: seq<Filter>, ordering: Option<Ordering>)
  {
    /** `.eq(column, value)`: one more equality filter. */
    function WithEq(column: string, value: JsValue): (q: Query)
      ensures q.filters == filters + [Eq(column, value)]
      ensures q.table == table && q.columns == columns && q.ordering == ordering
    {
      this.(filters := filters + [Eq(column, value)])
    }

    /** `.order(column, { ascending })`: the ordering of the result rows. */
    function WithOrder(column: string, ascending: bool): (q: Query)
      ensures q.ordering == Some(OrderBy(column, ascending))
      ensures q.table == table && q.columns == columns && q.filters == filters
    {
      this.(ordering := Some(OrderBy(column, ascending)))
    }
  }

  /** `from(table).select(columns)`: every row of the table, unfiltered and unordered. */
  function SelectFrom(table: string, columns: string): (q: Query)
    ensures q.table == table && q.columns == columns && q.filters == [] && q.ordering == None
  {
    Query(table, columns, [], None)
  }

  /** A row of a table, by column name. */
  type Row = map<string, JsValue>

  /** Whether a row passes every equality filter of a query. */
  predicate Selects(q: Query, row: Row) {
    forall i :: 0 <= i < |q.filters| ==> q.filters[i].column in row && row[q.filters[i].column] == q.filters[i].value
  }

  /** `req.query[name]`: a query-string parameter, undefined when absent. */
  function Param(query: map<string, JsValue>, name: string): (v: JsValue)
    ensures v == (if name in query then query[name] else Undefined)
  {
    Get(Obj(query), name)
  }

  /**
   * The listing query: the restaurant is `restaurant_number`, else `restaurant`,
   * else "" (a missing restaurant is not rejected); the status filter is added
   * only for a truthy `status`; the newest order (highest id) comes first.
   */
  method BuildListQuery(query: map<string, JsValue>) returns (q: Query)
    ensures q.table == "orders" && q.columns == "*"
    ensures q.ordering == Some(OrderBy("id", false))
    ensures |q.filters| == (if Truthy(Param(query, "status")) then 2 else 1)
    ensures q.filters[0].column == "restaurant_number"
    ensures Truthy(Param(query, "restaurant_number")) ==> q.filters[0].value == Param(query, "restaurant_number")
    ensures !Truthy(Param(query, "restaurant_number")) && Truthy(Param(query, "restaurant")) ==>
      q.filters[0].value == Param(query, "restaurant")
    ensures !Truthy(Param(query, "restaurant_number")) && !Truthy(Param(query, "restaurant")) ==>
      q.filters[0].value == Str("")
    ensures |q.filters| == 2 ==> q.filters[1] == Eq("status", Param(query, "status"))
    ensures forall row: Row {:trigger Selects(q, row)} :: Selects(q, row) <==>
      && "restaurant_number" in row && row["restaurant_number"] == q.filters[0].value
      && (Truthy(Param(query, "status")) ==> "status" in row && row["status"] == Param(query, "status"))
  {
    var restaurant := Or(Or(Param(query, "restaurant_number"), Param(query, "restaurant")), Str(""));
    var status := Or(Param(query, "status"), Null);
    q := SelectFrom("orders", "*").WithEq("restaurant_number", restaurant).WithOrder("id", false);
    if Truthy(status) {
      q := q.WithEq("status", status);
    }
  }
}
