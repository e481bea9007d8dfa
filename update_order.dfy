/**
 * The partial update of the `PATCH /api/orders/:id` handler: the fields of the
 * request body that a client may change, copied by a loop over a fixed
 * whitelist, and the 400 answer when none is present, given before the store
 * is called. The order id is the already parsed path parameter.
 */
module UpdateOrder {
  import opened JsValues

  /** The fields a partial update may change, in the order the handler tries them. */
  const Allowed: seq<string> := ["status", "payment_status", "table_no", "total"]

  const NoFieldsMessage: string := "No updatable fields provided"

  /** Either the HTTP error the handler answers with, or the update it sends to the store. */
  datatype PatchOutcome = Reject(code: int, message: string) | Update(id: Number, fields: map<string, JsValue>)

  /** The whitelisted properties the payload has (by `in`, so falsy values too), each with its value. */
  function Updatable(payload: JsValue): map<string, JsValue>
    requires payload.Obj? || payload.Arr?
  {
    map k | k in Allowed && In(k, payload) == Ok(true) :: Get(payload, k)
  }

  /**
   * What the handler does with a body and a parsed id: the body defaults to
   * `{}`; `in` on a non-object body throws, which the handler reports as a 500;
   * an empty update is refused with a 400; otherwise the update goes to the store.
   */
  function Patch(id: Number, raw: JsValue): (o: PatchOutcome)
    ensures o.Update? ==> o.id == id && o.fields != map[] && (forall k :: k in o.fields ==> k in Allowed)
    ensures o.Reject? ==> o.code == 400 || o.code == 500
  {
    var payload := RequestBody(raw);
    if !(payload.Obj? || payload.Arr?) then Reject(500, InOperatorError(Allowed[0]))
    else if Updatable(payload) == map[] then Reject(400, NoFieldsMessage)
    else Update(id, Updatable(payload))
  }

  /** The handler's loop: copy each whitelisted key the payload has into a fresh map. */
  method FilterUpdate(id: Number, raw: JsValue) returns (o: PatchOutcome)
    ensures o == Patch(id, raw)
  {
    var payload := RequestBody(raw);
    var updates: map<string, JsValue> := map[];
    var i := 0;
    while i < |Allowed|
      invariant 0 <= i <= |Allowed|
      invariant i > 0 ==> payload.Obj? || payload.Arr?
      invariant updates == map k | k in Allowed[..i] && In(k, payload) == Ok(true) :: Get(payload, k)
    {
      var k := Allowed[i];
      var has := In(k, payload);
      if has.Err? {
        return Reject(500, has.error);
      }
      if has.value {
        updates := updates[k := Get(payload, k)];
      }
      i := i + 1;
    }
    assert Allowed[..i] == Allowed;
    if |updates| == 0 {
      return Reject(400, NoFieldsMessage);
    }
    o := Update(id, updates);
  }

  /**
   * For an object body, the update holds exactly the whitelisted keys the body
   * has, each mapped to the body's value even when that value is falsy; every
   * other key (`payment_mode`, `foo`, ...) is dropped.
   */
  lemma UpdateCopiesWhitelisted(id: Number, m: map<string, JsValue>)
    requires Patch(id, Obj(m)).Update?
    ensures var fields := Patch(id, Obj(m)).fields;
      forall k :: k in fields <==> k in Allowed && k in m
    ensures var fields := Patch(id, Obj(m)).fields;
      forall k :: k in fields ==> fields[k] == m[k]
  {
  }

  /**
   * A 400 "No updatable fields provided" comes back exactly when the body has
   * none of the whitelisted keys; a missing body counts as `{}`.
   */
  lemma RejectIffNothingUpdatable(id: Number, raw: JsValue)
    requires raw.Obj? || !Truthy(raw)
    ensures Patch(id, raw) == Reject(400, NoFieldsMessage) <==>
      !Truthy(raw) || forall k :: k in Allowed ==> k !in raw.fields
    ensures Patch(id, raw).Reject? ==> Patch(id, raw) == Reject(400, NoFieldsMessage)
  {
    if raw.Obj? && !(forall k :: k in Allowed ==> k !in raw.fields) {
      var k :| k in Allowed && k in raw.fields;
      assert k in Updatable(raw);
    }
  }

  /** Filtering an update a second time gives the same update. */
  lemma PatchIdempotent(id: Number, raw: JsValue)
    requires Patch(id, raw).Update?
    ensures Patch(id, Obj(Patch(id, raw).fields)) == Patch(id, raw)
  {
  }

  /** An array body has none of the whitelisted keys (they are not indices nor "length"). */
  lemma ArrayBodyRejected(id: Number, elems: seq<JsValue>)
    ensures Patch(id, Arr(elems)) == Reject(400, NoFieldsMessage)
  {
  }

  /**
   * A truthy body that is neither an object nor an array makes the first `in`
   * test throw, and the handler answers 500 with the TypeError.
   */
  lemma PrimitiveBody500(id: Number, raw: JsValue)
    requires Truthy(raw) && !raw.Obj? && !raw.Arr?
    ensures Patch(id, raw) == Reject(500, InOperatorError("status"))
  {
  }

  /** `{status: "served", foo: "bar"}` updates the status alone. */
  lemma ServedExample(id: Number)
    ensures Patch(id, Obj(map["status" := Str("served"), "foo" := Str("bar")]))
      == Update(id, map["status" := Str("served")])
  {
    var body := Obj(map["status" := Str("served"), "foo" := Str("bar")]);
    assert Updatable(body) == map["status" := Str("served")];
    assert "status" in Updatable(body);
    assert Patch(id, body) == Update(id, Updatable(body));
  }
}
