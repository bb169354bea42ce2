/**
 * The untyped values a server action receives from the client: `String(v)`,
 * truthiness, property access through `?.`, and the `safeString` idiom
 * `String(v ?? '').trim()`. Numbers are integers here; the text of a
 * non-integer number is not modelled.
 */
module JsValue {
  import opened JsString
  import opened JsNumber

  datatype Value =
    | Undefined
    | Null
    | Bool(b: bool)
    | Num(n: int)
    | Str(s: string)
    | Obj(props: map<string, Value>)
    | Arr(elems: seq<Value>)
  {
    predicate IsNullish() {
      Undefined? || Null?
    }

    /** `typeof v === 'object' && v !== null`: plain objects and arrays. */
    predicate IsObject() {
      Obj? || Arr?
    }
  }

  /** JavaScript truthiness (`!!v`). */
  predicate Truthy(v: Value) {
    match v
    case Undefined => false
    case Null => false
    case Bool(b) => b
    case Num(n) => n != 0
    case Str(s) => s != ""
    case Obj(_) => true
    case Arr(_) => true
  }

  /** `String(v)`; an array is its elements' texts joined by `,`, with `null` and `undefined` as empty. */
  function ToString(v: Value): string
    decreases v
  {
    match v
    case Undefined => "undefined"
    case Null => "null"
    case Bool(b) => if b then "true" else "false"
    case Num(n) => IntToString(n)
    case Str(s) => s
    case Obj(_) => "[object Object]"
    case Arr(es) =>
      Join(seq(|es|, i requires 0 <= i < |es| =>
        if es[i].IsNullish() then "" else ToString(es[i])), ",")
  }

  /** `v?.[key]` for a string key that is not an array index. */
  function Prop(v: Value, key: string): Value {
    if v.Obj? && key in v.props then v.props[key] else Undefined
  }

  /** `String(v ?? '').trim()`: absent values become the empty string. */
  function SafeString(v: Value): (r: string)
    ensures IsTrimmed(r)
    ensures v.IsNullish() ==> r == ""
    ensures v.Str? ==> r == Trim(v.s)
  {
    if v.IsNullish() then Trim("") else Trim(ToString(v))
  }
}
