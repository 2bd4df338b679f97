/** The JavaScript values the runtime reads after JSON decoding, and the
    property access `v.key` on them. */
module JsValues {
  import opened Wrappers
  import opened Utf16

  /** A JavaScript value as produced by `JSON.parse` (plus `undefined`, the
      value of a missing property). Numbers carry an integer: only their
      identity matters here, since the runtime echoes them unchanged. */
  datatype JsValue =
    | Undefined
    | Null
    | Bool(b: bool)
    | Num(n: int)
    | Str(units: Utf16String)
    | Arr(items: seq<JsValue>)
    | Obj(props: map<Utf16String, JsValue>)

  /** The `TypeError` JavaScript throws when reading `key` of null or undefined. */
  datatype TypeError = CannotReadProperty(key: Utf16String)

  /** `null` and `undefined`: the values whose properties cannot be read. */
  predicate Nullish(v: JsValue) {
    v.Undefined? || v.Null?
  }

  /** The own property `key` of `v`, or `undefined` when `v` has none. */
  function Prop(v: JsValue, key: Utf16String): JsValue {
    if v.Obj? && key in v.props then v.props[key] else Undefined
  }

  /** The expression `v.key`: throws on null and undefined, otherwise yields
      the property (or `undefined`). */
  function GetProperty(v: JsValue, key: Utf16String): (r: Result<JsValue, TypeError>)
    ensures r.Failure? <==> v.Undefined? || v.Null?
    ensures r.Failure? ==> r.error == CannotReadProperty(key)
    ensures r.Success? && v.Obj? && key in v.props ==> r.value == v.props[key]
    ensures r.Success? && !(v.Obj? && key in v.props) ==> r.value == Undefined
  {
    if Nullish(v) then Failure(CannotReadProperty(key)) else Success(Prop(v, key))
  }

  /** Reading a property stored in an object gives the stored value back. */
  lemma GetPropertyReadsStoredValue(props: map<Utf16String, JsValue>, key: Utf16String, v: JsValue)
    ensures GetProperty(Obj(props[key := v]), key) == Success(v)
  {
  }

  /** JavaScript's `ToBoolean`, the test an `if` applies to its condition.
      Numbers are integers here, so `NaN` does not arise. */
  function ToBoolean(v: JsValue): bool {
    match v
    case Undefined => false
    case Null => false
    case Bool(b) => b
    case Num(n) => n != 0
    case Str(s) => s != []
    case Arr(_) => true
    case Obj(_) => true
  }
}
