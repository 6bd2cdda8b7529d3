/** The JavaScript values the modelled code inspects: parsed JSON metadata
    frames, setter arguments and camera-state fields. Numbers are reals;
    NaN and the infinities are not represented. */
module Js {
  import opened Wrappers

  datatype Value =
    | Undefined
    | Null
    | Bool(b: bool)
    | Num(n: real)
    | Str(s: string)
    | Arr(items: seq<Value>)
    | Obj(fields: map<string, Value>)

  /** A parsed JSON object, such as one metadata line. */
  type Record = map<string, Value>

  /** `!!v`: the falsy values are undefined, null, false, 0 and "". */
  predicate Truthy(v: Value) {
    match v
    case Undefined => false
    case Null => false
    case Bool(b) => b
    case Num(n) => n != 0.0
    case Str(s) => s != ""
    case Arr(_) => true
    case Obj(_) => true
  }

  /** `typeof v === "number"`. */
  predicate IsNumber(v: Value) {
    v.Num?
  }

  /** `obj[key]`: a missing key reads as `undefined`. */
  function Field(obj: Record, key: string): (v: Value)
    ensures key !in obj ==> v == Undefined
    ensures key in obj ==> v == obj[key]
  {
    if key in obj then obj[key] else Undefined
  }

  /** `v.key`: reading a property of `undefined` or `null` throws a
      TypeError; an object yields its field. Other values have no
      properties the modelled code reads, so they yield `undefined`. */
  function Member(v: Value, key: string): (r: Result<Value>)
    ensures r.Failure? <==> v.Undefined? || v.Null?
    ensures r.Failure? ==> r.error == TypeError
    ensures v.Obj? ==> r == Success(Field(v.fields, key))
  {
    match v
    case Undefined => Failure(TypeError)
    case Null => Failure(TypeError)
    case Obj(fields) => Success(Field(fields, key))
    case _ => Success(Undefined)
  }

  /** `a || b`: the left operand when it is truthy, else the right one. */
  function Or(a: Value, b: Value): (r: Value)
    ensures Truthy(a) ==> r == a
    ensures !Truthy(a) ==> r == b
  {
    if Truthy(a) then a else b
  }
}
