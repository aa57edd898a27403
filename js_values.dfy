/**
 * The JavaScript values that `xml2js` builds with `explicitArray: false` and the few operations of
 * the language the processors apply to them: property reads, truthiness and string conversion.
 */
module JsValues {
  import opened Wrappers
  import opened Strings

  /**
   * A parsed value: element children (one child as the node itself, repeated children as an array),
   * attributes under `$` and text under `_`, all as plain objects.
   */
  datatype JsValue =
    | Undefined
    | Null
    | Str(s: string)
    | Obj(props: map<string, JsValue>)
    | Arr(items: seq<JsValue>)

  /** How every `TypeError` message of a failed property read begins. */
  const ReadErrorPrefix: string := "Cannot read properties of "

  /** The message of the `TypeError` a property read on `undefined` or `null` throws. */
  function TypeErrorMessage(base: JsValue, key: string): (m: string)
    requires base.Undefined? || base.Null?
    ensures ReadErrorPrefix <= m
  {
    ReadErrorPrefix + (if base.Undefined? then "undefined" else "null") + " (reading '" + key + "')"
  }

  /**
   * `base[key]` for the property names the processors use, none of which is an array index,
   * `length` or a member of `Object.prototype`: only own properties of objects are found.
   */
  function Get(base: JsValue, key: string): (r: Result<JsValue, string>)
    ensures r.Err? <==> base.Undefined? || base.Null?
    ensures r.Err? ==> r.error == TypeErrorMessage(base, key)
    ensures r.Ok? && base.Obj? && key in base.props ==> r.value == base.props[key]
    ensures r.Ok? && !(base.Obj? && key in base.props) ==> r.value == Undefined
  {
    match base
    case Undefined => Err(TypeErrorMessage(base, key))
    case Null => Err(TypeErrorMessage(base, key))
    case Obj(props) => Ok(if key in props then props[key] else Undefined)
    case _ => Ok(Undefined)
  }

  /** JavaScript truthiness on these values: `undefined`, `null` and `""` are the falsy ones. */
  predicate Truthy(v: JsValue) {
    match v
    case Undefined => false
    case Null => false
    case Str(s) => s != ""
    case _ => true
  }

  /** `a || b`: the left operand when it is truthy, otherwise the right one. */
  function Or(a: JsValue, b: JsValue): (r: JsValue)
    ensures Truthy(r) <==> Truthy(a) || Truthy(b)
    ensures Truthy(a) ==> r == a
    ensures !Truthy(a) ==> r == b
  {
    if Truthy(a) then a else b
  }

  /** `String(v)`, as template literals, `+` on a string and property keys convert. */
  function ToJsString(v: JsValue): (r: string)
    ensures v.Str? ==> r == v.s
    decreases v
  {
    match v
    case Undefined => "undefined"
    case Null => "null"
    case Str(s) => s
    case Obj(_) => "[object Object]"
    case Arr(items) =>
      // `Array.prototype.join` writes `undefined` and `null` elements as the empty string.
      if |items| == 0 then ""
      else Join(seq(|items|, i requires 0 <= i < |items| =>
                  if items[i].Undefined? || items[i].Null? then "" else ToJsString(items[i])), ',')
  }
}
