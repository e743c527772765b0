/**
 * JSON values as the route handlers see them (request bodies parsed by
 * `express.json()`, stores read back with `readJSON`), and the handful of
 * JavaScript operations on them that the handlers use: member access,
 * strict equality, truthiness and conversion to text in template literals.
 */
module Json {
  import opened Wrappers

  /** A parsed JSON value. Numbers are integers in this model. */
  datatype Value =
    | Null
    | Bool(b: bool)
    | Num(n: int)
    | Str(s: string)
    | Arr(items: seq<Value>)
    | Obj(fields: map<string, Value>)

  /** A JSON object: the authors, blogposts, comments and request bodies. */
  type Record = map<string, Value>

  /** `r.key`; `None` is `undefined`. */
  function Field(r: Record, key: string): Option<Value>
  {
    if key in r then Some(r[key]) else None
  }

  /** `v.key` for a value that is not `null`: only objects carry named members. */
  function Member(v: Value, key: string): Option<Value>
  {
    if v.Obj? then Field(v.fields, key) else None
  }

  /**
   * The value at a dotted path such as `readTime.value`, as the validators
   * resolve it: `undefined` as soon as an intermediate step is not an object.
   */
  function Lookup(r: Record, path: seq<string>): Option<Value>
    decreases |path|
  {
    if |path| == 0 then Some(Obj(r))
    else
      var head := Field(r, path[0]);
      if |path| == 1 then head
      else if head.Some? && head.value.Obj? then Lookup(head.value.fields, path[1..])
      else None
  }

  /**
   * JavaScript's `x === y` on two values that come from separately parsed
   * JSON texts: primitives compare by value, `undefined` equals `undefined`,
   * and objects and arrays, being distinct references, are never equal.
   */
  predicate StrictEquals(x: Option<Value>, y: Option<Value>)
  {
    match (x, y)
    case (None, None) => true
    case (Some(a), Some(b)) => !a.Arr? && !a.Obj? && a == b
    case _ => false
  }

  /** JavaScript truthiness (`if (x)`). */
  predicate Truthy(x: Option<Value>)
  {
    match x
    case None => false
    case Some(Null) => false
    case Some(Bool(b)) => b
    case Some(Num(n)) => n != 0
    case Some(Str(s)) => s != ""
    case Some(_) => true
  }

  /** The text `${x}` produces in a template literal. */
  function Display(x: Option<Value>): string
  {
    match x
    case None => "undefined"
    case Some(v) => DisplayValue(v)
  }

  function DisplayValue(v: Value): string
    decreases v
  {
    match v
    case Null => "null"
    case Bool(b) => if b then "true" else "false"
    case Num(n) => IntText(n)
    case Str(s) => s
    case Obj(_) => "[object Object]"
    case Arr(items) =>
      // Array.prototype.join: null elements become empty text
      JoinComma(seq(|items|, k requires 0 <= k < |items| => if items[k].Null? then "" else DisplayValue(items[k])))
  }

  function JoinComma(parts: seq<string>): string
  {
    if |parts| == 0 then ""
    else if |parts| == 1 then parts[0]
    else parts[0] + "," + JoinComma(parts[1..])
  }

  /** Decimal text of an integer. */
  function IntText(n: int): string
  {
    if n < 0 then "-" + NatText(-n) else NatText(n)
  }

  function NatText(n: nat): string
  {
    if n < 10 then [Digit(n)] else NatText(n / 10) + [Digit(n % 10)]
  }

  function Digit(d: nat): char
    requires d < 10
  {
    "0123456789"[d]
  }

  /** The callback `r => r[key] === id` for an id taken from the request path (always a string). */
  function HasId(key: string, id: string): Record -> bool
  {
    r => Field(r, key) == Some(Str(id))
  }

  /** The same callback over arbitrary values, such as the elements of a comments array. */
  function ValueHasId(key: string, id: string): Value -> bool
  {
    v => Member(v, key) == Some(Str(id))
  }

  /** The callback `v => v[key] !== id`, as `filter` receives it. */
  function ValueLacksId(key: string, id: string): Value -> bool
  {
    v => Member(v, key) != Some(Str(id))
  }
}
