# Order request shaping of the web-AR backend

The backend is a small Express server. It places, lists and updates restaurant
orders stored in a hosted database. Each handler reads the request, shapes it
into one store call and wraps the answer. This project models the shaping step
of the three order handlers in `index.js`, lifted out of the handlers:

- `POST /api/order`: the insert record built from a loose body with truthy
  (`||`) defaults per field (`PlaceOrder.PlacementPayload`).
- `GET /api/orders`: the query built from the query string, as a description
  value with its equality filters and ordering (`ListOrders.BuildListQuery`).
- `PATCH /api/orders/:id`: the whitelist loop that copies the updatable fields
  into a fresh map, and the 400 answer when none is present
  (`UpdateOrder.FilterUpdate`, specified by `UpdateOrder.Patch`).

Request data is modelled as JavaScript values (`JsValues.JsValue`: null,
undefined, booleans, numbers with NaN and infinities, strings, arrays, objects).
The module also models the three language operations the handlers rely on:
truthiness with `||`, property access `v.k`, and the `in` operator.

The model follows the code as written. In particular:
- the whitelist has four fields and leaves out `payment_mode`;
- no `updated_at` is added to an update;
- `status` and `payment_status` get no default on insert;
- `total` falls back to 0 on any falsy value, not only a missing one;
- a missing restaurant number is not rejected. It is inserted as `null` and
  listed as `""`;
- the restaurant number is not converted to a string.

## Model

| member | source | states |
|---|---|---|
| JsValues.Truthy | index.js:45-49 | ToBoolean: null and undefined are falsy, every array and object (even empty) is truthy, a string is truthy iff non-empty, a finite number iff non-zero, NaN is falsy and the infinities truthy, a boolean is itself |
| JsValues.Or | index.js:45-49 | JavaScript's logical or gives its left operand when that is truthy and its right operand otherwise; the result is truthy iff either operand is |
| JsValues.Get | index.js:45-49 | `v.k` on an object is the value stored under k, or undefined when k is absent; on an array an index reads that element; every key of a boolean or number, and every key that is not an own property, reads as undefined |
| JsValues.In | index.js:98 | `k in v` on an object is whether k is a key (whatever its value, falsy included); on an array whether k is an index or "length"; on any other value it is the TypeError the handler turns into a 500 |
| JsValues.RequestBody | index.js:42 | the body read by both handlers (here and at index.js:92) is never null or undefined; a falsy body becomes `{}`, a truthy one is kept |
| PlaceOrder.PlacementPayload | index.js:42-51 | the insert record has exactly the keys restaurant_number, table_no, items, total, payment_mode, placed_at; each field is the body's value when truthy, else null / `table_number` then null / `[]` / 0 / "cash"; placed_at is the given time |
| PlaceOrder.TotalNeverNullish | index.js:48 | the inserted total is never null or undefined, is truthy iff the submitted one is, and an explicit falsy total is stored as 0 |
| PlaceOrder.TableNumberAlias | index.js:46 | a value supplied as `table_no` or as `table_number` yields the same insert record |
| PlaceOrder.MissingBodyDefaults | index.js:42-51 | a missing or falsy body inserts the all-defaults record with the given time |
| PlaceOrder.RestaurantSevenExample | index.js:44-51 | `{restaurant_number: "7", items}` inserts restaurant "7", those items, table null, total 0, payment mode "cash", and no status |
| ListOrders.Query.WithEq | index.js:73 | `.eq` appends one equality filter and leaves the rest of the query alone |
| ListOrders.Query.WithOrder | index.js:74 | `.order` sets the ordering and leaves the rest of the query alone |
| ListOrders.SelectFrom | index.js:70-72 | `from(t).select(c)` is an unfiltered, unordered query on table t |
| ListOrders.Param | index.js:66-68 | `req.query.x` reads the parameter's value when present and undefined when absent |
| ListOrders.BuildListQuery | index.js:66-76 | the query reads `orders`, always filters restaurant_number by `restaurant_number`, else `restaurant`, else ""; it adds a status filter iff `status` is truthy; it orders by id descending; a row passes iff it has that restaurant and, when filtered, that status |
| UpdateOrder.Patch | index.js:92-103 | an update targets the given id, is non-empty and has only whitelisted keys; every refusal is a 400 or a 500 |
| UpdateOrder.FilterUpdate | index.js:92-103 | the whitelist loop returns exactly the outcome `Patch` specifies for the id and body |
| UpdateOrder.UpdateCopiesWhitelisted | index.js:95-99 | for an object body the update's keys are exactly the whitelisted keys present in the body, each with the body's value (falsy values included); `payment_mode`, `foo` and every other key are dropped |
| UpdateOrder.RejectIffNothingUpdatable | index.js:92-103 | for an object or missing body, the answer is 400 "No updatable fields provided" iff no whitelisted key is present, and that is the only refusal |
| UpdateOrder.PatchIdempotent | index.js:95-99 | filtering an accepted update again gives the same update |
| UpdateOrder.ArrayBodyRejected | index.js:95-103 | an array body has none of the whitelisted keys and is refused with the 400 |
| UpdateOrder.PrimitiveBody500 | index.js:92-98 | a truthy body that is neither an object nor an array makes the first `in` test throw, answered with a 500 carrying the TypeError |
| UpdateOrder.ServedExample | index.js:95-103 | `{status: "served", foo: "bar"}` updates the status alone |

## Left out

- Express setup, CORS, body parsing, environment loading and `app.listen`
  (index.js:1-20, 121-123): server configuration, no logic.
- UpdateOrder.PrimitiveBody500: `bodyParser.json()` (index.js:12) runs in its
  default strict mode and rejects a JSON body that is not an object or an array
  before the handler runs, so this 500 path is reachable only with another
  parser configuration; the model takes any body the handler could be given.
- The menu endpoint (index.js:23-37): a pass-through to the store.
- Every store call and its result (insert, select, update, match, the
  `data[0]` envelopes): the store is a remote service. Queries and updates are
  description values only, and the store's type coercion when it compares a
  column with a filter value is not modelled (`ListOrders.Selects` compares
  values as given).
- The response envelopes, `console.error` and the error texts of store
  failures: I/O and error rendering.
- `new Date().toISOString()`: a clock read. The time is the parameter `now`.
- `parseInt(req.params.id, 10)`: the parsed id is an opaque parameter. Its NaN
  case is never checked by the handler and passes through unchanged.
- JsValues.In: the TypeError message leaves out the rendering of the operand
  that V8 appends (`... in 5`), because that needs JavaScript's number-to-string
  conversion.
- JsValues.Get: property access and `in` see own properties only, not those
  inherited from `Object.prototype` or `Array.prototype`. None of the keys the
  handlers use is an inherited property.
- JsValues.Number: a finite number is an unbounded real, not an IEEE double.
  The handlers do no arithmetic; their only numeric test is whether a value is
  zero or NaN, which is the same either way.
- JsValues.Get: the `length` and indices of a string count Unicode scalar
  values, not UTF-16 code units as JavaScript does. No handler reads them.
- async/await scheduling and concurrent requests: no shared state exists
  between requests.
