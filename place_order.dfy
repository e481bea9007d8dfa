/**
 * The record the `POST /api/order` handler inserts into the `orders` table,
 * built from the loosely typed request body with a truthy fallback (`||`) per
 * field. The timestamp is a parameter: the handler reads the clock.
 */
module PlaceOrder {
  import opened JsValues

  /** The keys of the inserted record; `status` and `payment_status` are not among them. */
  const PayloadKeys: set<string> :=
    {"restaurant_number", "table_no", "items", "total", "payment_mode", "placed_at"}

  /**
   * The insert record: each field is the body's value when truthy and its
   * default otherwise; `table_no` falls back to the legacy name `table_number`
   * before its default; `placed_at` is the time of the request.
   */
  function PlacementPayload(raw: JsValue, now: string): (r: map<string, JsValue>)
    ensures r.Keys == PayloadKeys
    ensures r["placed_at"] == Str(now)
    ensures var body := RequestBody(raw);
      && (Truthy(Get(body, "restaurant_number")) ==> r["restaurant_number"] == Get(body, "restaurant_number"))
      && (!Truthy(Get(body, "restaurant_number")) ==> r["restaurant_number"] == Null)
      && (Truthy(Get(body, "table_no")) ==> r["table_no"] == Get(body, "table_no"))
      && (!Truthy(Get(body, "table_no")) && Truthy(Get(body, "table_number")) ==> r["table_no"] == Get(body, "table_number"))
      && (!Truthy(Get(body, "table_no")) && !Truthy(Get(body, "table_number")) ==> r["table_no"] == Null)
      && (Truthy(Get(body, "items")) ==> r["items"] == Get(body, "items"))
      && (!Truthy(Get(body, "items")) ==> r["items"] == Arr([]))
      && (Truthy(Get(body, "total")) ==> r["total"] == Get(body, "total"))
      && (!Truthy(Get(body, "total")) ==> r["total"] == Zero)
      && (Truthy(Get(body, "payment_mode")) ==> r["payment_mode"] == Get(body, "payment_mode"))
      && (!Truthy(Get(body, "payment_mode")) ==> r["payment_mode"] == Str("cash"))
  {
    var body := RequestBody(raw);
    map[
      "restaurant_number" := Or(Get(body, "restaurant_number"), Null),
      "table_no" := Or(Or(Get(body, "table_no"), Get(body, "table_number")), Null),
      "items" := Or(Get(body, "items"), Arr([])),
      "total" := Or(Get(body, "total"), Zero),
      "payment_mode" := Or(Get(body, "payment_mode"), Str("cash")),
      "placed_at" := Str(now)
    ]
  }

  /**
   * The inserted `total` is never null or undefined, and it is truthy exactly
   * when the submitted one is: an explicit 0, "", false, null or NaN is stored as 0.
   */
  lemma TotalNeverNullish(m: map<string, JsValue>, now: string)
    ensures var r := PlacementPayload(Obj(m), now);
      && !Nullish(r["total"])
      && (Truthy(r["total"]) <==> "total" in m && Truthy(m["total"]))
      && ("total" in m && !Truthy(m["total"]) ==> r["total"] == Zero)
  {
  }

  /**
   * A table number supplied as `table_no` or as `table_number` gives the same
   * record, whatever the value and whatever else the body holds.
   */
  lemma TableNumberAlias(m: map<string, JsValue>, v: JsValue, now: string)
    requires "table_no" !in m && "table_number" !in m
    ensures PlacementPayload(Obj(m["table_no" := v]), now) == PlacementPayload(Obj(m["table_number" := v]), now)
  {
  }

  /** A request without a body inserts the all-defaults record. */
  lemma MissingBodyDefaults(raw: JsValue, now: string)
    requires !Truthy(raw)
    ensures PlacementPayload(raw, now) == map[
      "restaurant_number" := Null, "table_no" := Null, "items" := Arr([]),
      "total" := Zero, "payment_mode" := Str("cash"), "placed_at" := Str(now)]
  {
  }

  /**
   * An order for restaurant "7" with line items and nothing else keeps the
   * restaurant and the items (an array, even an empty one, is truthy) and gets
   * total 0, payment mode "cash" and no table.
   */
  lemma RestaurantSevenExample(items: seq<JsValue>, now: string)
    ensures PlacementPayload(Obj(map["restaurant_number" := Str("7"), "items" := Arr(items)]), now) == map[
      "restaurant_number" := Str("7"), "table_no" := Null, "items" := Arr(items),
      "total" := Zero, "payment_mode" := Str("cash"), "placed_at" := Str(now)]
  {
  }
}
