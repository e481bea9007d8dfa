/**
 * The JavaScript values that arrive in an Express request (parsed JSON bodies
 * and query strings), with the three pieces of the language the order handlers
 * rely on: truthiness and the `||` operator, property access `v.k`, and the
 * `k in v` operator.
 */
module JsValues {

  datatype Option<+T> = None | Some(value: T)

  datatype Result<+T> = Ok(value: T) | Err(error: string)

  /** A JavaScript number: a finite value (both zeros are Finite(0.0)), NaN or an infinity. */
  datatype Number = Finite(r: real) | NaN | Infinite(negative: bool)

  datatype JsValue =
    | Null
    | Undefined
    | Bool(b: bool)
    | Num(n: Number)
    | Str(s: string)
    | Arr(elems: seq<JsValue>)
    | Obj(fields: map<string, JsValue>)

  const Zero: JsValue := Num(Finite(0.0))
  const EmptyObject: JsValue := Obj(map[])

  /** `null` and `undefined`: the values whose property access throws. */
  predicate Nullish(v: JsValue) {
    v.Null? || v.Undefined?
  }

  /** ToBoolean: false, 0, -0, NaN, "", null and undefined are falsy; everything else is truthy. */
  predicate Truthy(v: JsValue)
    ensures Truthy(v) ==> !Nullish(v)
    ensures v.Arr? || v.Obj? ==> Truthy(v)
    ensures v.Str? ==> (Truthy(v) <==> v.s != "")
    ensures v.Num? && v.n.Finite? ==> (Truthy(v) <==> v.n.r != 0.0)
    ensures v.Num? && !v.n.Finite? ==> (Truthy(v) <==> v.n.Infinite?)
    ensures v.Bool? ==> (Truthy(v) <==> v.b)
  {
    match v
    case Null => false
    case Undefined => false
    case Bool(b) => b
    case Num(n) => n.Infinite? || (n.Finite? && n.r != 0.0)
    case Str(s) => s != ""
    case Arr(_) => true
    case Obj(_) => true
  }

  /** `a || b`: the left operand when it is truthy, the right one otherwise. */
  function Or(a: JsValue, b: JsValue): (r: JsValue)
    ensures Truthy(a) ==> r == a
    ensures !Truthy(a) ==> r == b
    ensures Truthy(r) <==> Truthy(a) || Truthy(b)
  {
    if Truthy(a) then a else b
  }

  /** `req.body || {}`: the body a handler reads from, never null or undefined. */
  function RequestBody(raw: JsValue): (b: JsValue)
    ensures Truthy(b) && !Nullish(b)
    ensures Truthy(raw) ==> b == raw
    ensures !Truthy(raw) ==> b == EmptyObject
  {
    Or(raw, EmptyObject)
  }

  predicate IsDigit(c: char) {
    '0' <= c <= '9'
  }

  function DigitsValue(s: string): nat
    requires forall i :: 0 <= i < |s| ==> IsDigit(s[i])
  {
    if s == [] then 0
    else
      assert IsDigit(s[|s| - 1]);
      DigitsValue(s[..|s| - 1]) * 10 + (s[|s| - 1] as int - '0' as int)
  }

  /** The array index a property key names: a canonical decimal numeral ("0", "17", not "017"). */
  function IndexKey(k: string): (r: Option<nat>)
    ensures r.Some? ==> k != [] && IsDigit(k[0])
  {
    if k != [] && (forall i :: 0 <= i < |k| ==> IsDigit(k[i])) && (k[0] != '0' || |k| == 1)
    then Some(DigitsValue(k))
    else None
  }

  /** The own properties of an array or a string of length n: its indices and "length". */
  predicate IndexedOwnKey(k: string, n: nat) {
    k == "length" || (IndexKey(k).Some? && IndexKey(k).value < n)
  }

  /** Property access `v.k` (own properties only) on a value that is neither null nor undefined. */
  function Get(v: JsValue, k: string): (r: JsValue)
    requires !Nullish(v)
    ensures v.Obj? ==> r == (if k in v.fields then v.fields[k] else Undefined)
    ensures v.Arr? && IndexedOwnKey(k, |v.elems|) && k != "length" ==> r == v.elems[IndexKey(k).value]
    ensures v.Arr? && k == "length" ==> r == Num(Finite(|v.elems| as real))
    ensures v.Str? && k == "length" ==> r == Num(Finite(|v.s| as real))
    ensures v.Bool? || v.Num? ==> r == Undefined
    ensures !v.Obj? && !IndexedOwnKey(k, if v.Arr? then |v.elems| else if v.Str? then |v.s| else 0) ==> r == Undefined
  {
    match v
    case Obj(m) => if k in m then m[k] else Undefined
    case Arr(s) =>
      if k == "length" then Num(Finite(|s| as real))
      else if IndexKey(k).Some? && IndexKey(k).value < |s| then s[IndexKey(k).value]
      else Undefined
    case Str(s) =>
      if k == "length" then Num(Finite(|s| as real))
      else if IndexKey(k).Some? && IndexKey(k).value < |s| then Str([s[IndexKey(k).value]])
      else Undefined
    case _ => Undefined
  }

  /** The error `k in v` throws when v is not an object, as `String(err)` renders it. */
  function InOperatorError(k: string): string {
    "TypeError: Cannot use 'in' operator to search for '" + k + "'"
  }

  /**
   * The `k in v` operator (own properties only): whether object or array v has
   * property k; on any other value it throws a TypeError.
   */
  function In(k: string, v: JsValue): (r: Result<bool>)
    ensures r.Ok? <==> v.Obj? || v.Arr?
    ensures v.Obj? ==> r == Ok(k in v.fields)
    ensures v.Arr? ==> r == Ok(IndexedOwnKey(k, |v.elems|))
    ensures r.Err? ==> r.error == InOperatorError(k)
  {
    match v
    case Obj(m) => Ok(k in m)
    case Arr(s) => Ok(IndexedOwnKey(k, |s|))
    case _ => Err(InOperatorError(k))
  }
}
