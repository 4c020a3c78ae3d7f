/**
 * Parsed JSON request bodies and the two JavaScript/Mongoose conversions the routes
 * apply to their fields: truthiness (`if (!x)`) and Mongoose's cast to a String path.
 */
module Json {
  import opened Strings

  /**
   * A field of a parsed JSON body. `Undefined` stands for a key the body does not have;
   * numbers are integers; an object keeps its entries.
   */
  datatype Value =
    | Undefined | Null | Bool(b: bool) | Num(n: int) | Str(s: string) | Arr(items: seq<Value>)
    | Obj(fields: map<string, Value>)

  type Body = map<string, Value>

  /** `body[key]`, which is `undefined` for a missing key. */
  function Get(body: Body, key: string): Value {
    if key in body then body[key] else Undefined
  }

  /** JavaScript truthiness: `!v` is false exactly for these values. */
  predicate Truthy(v: Value) {
    match v
    case Undefined => false
    case Null => false
    case Bool(b) => b
    case Num(n) => n != 0
    case Str(s) => s != ""
    case Arr(_) => true
    case Obj(_) => true
  }

  /** Outcome of casting a value to a Mongoose String path. */
  datatype StringCast = Absent | Cast(text: string) | CastError

  /**
   * An object the String cast treats as a document: its `_id` is a non-empty string (a
   * truthy value of type string).
   */
  predicate HasStringId(v: Value) {
    v.Obj? && "_id" in v.fields && v.fields["_id"].Str? && v.fields["_id"].s != ""
  }

  /**
   * Mongoose's String cast: `null`/`undefined` leave the path unset, strings stay as they
   * are, numbers and booleans are rendered with `toString`, an object with a string `_id`
   * becomes that `_id`, and arrays and the other objects fail (a JSON object has no
   * `toString` of its own that could be called).
   */
  function CastString(v: Value): (r: StringCast)
    ensures r.Absent? <==> (v.Undefined? || v.Null?)
    ensures r.CastError? <==> (v.Arr? || (v.Obj? && !HasStringId(v)))
    ensures v.Str? ==> r == Cast(v.s)
    ensures HasStringId(v) ==> r == Cast(v.fields["_id"].s)
  {
    match v
    case Undefined => Absent
    case Null => Absent
    case Bool(b) => Cast(if b then "true" else "false")
    case Num(n) => Cast(IntToDecimal(n))
    case Str(s) => Cast(s)
    case Arr(_) => CastError
    case Obj(fields) =>
      if "_id" in fields && fields["_id"].Str? && fields["_id"].s != "" then Cast(fields["_id"].s) else CastError
  }
}
