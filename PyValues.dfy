/**
 * The Python values that cross the boundary between the backend and the
 * search, scrape and chat SDKs, and the parts of the Python runtime whose
 * behaviour the model takes as given.
 */
module PyValues {

  /** A JSON-shaped Python value: what `dict`, `list`, `str`, numbers, booleans and `None` can hold. */
  datatype Value =
    | VNone
    | VBool(b: bool)
    | VInt(i: int)
    | VFloat(f: real)
    | VStr(s: string)
    | VList(items: seq<Value>)
    | VDict(fields: map<string, Value>)

  /** Python's `type(v).__name__`. */
  function TypeName(v: Value): string
  {
    match v
    case VNone => "NoneType"
    case VBool(_) => "bool"
    case VInt(_) => "int"
    case VFloat(_) => "float"
    case VStr(_) => "str"
    case VList(_) => "list"
    case VDict(_) => "dict"
  }

  /** `d.get(key, default)`. */
  function Get(d: map<string, Value>, key: string, default: Value): Value
  {
    if key in d then d[key] else default
  }

  /** The exceptions the modelled code itself can raise (as opposed to those raised by the services). */
  datatype Fault =
    | NotIterable(typeName: string)                 // TypeError from `for x in v`
    | NoAttribute(typeName: string, attr: string)   // AttributeError, e.g. `.get` on a non-dict
    | NotSubscriptable(typeName: string)            // TypeError from slicing a scalar
    | SliceOfDict                                   // slicing a dict
    | Invalid(model: string, fields: seq<string>)   // pydantic ValidationError naming the failing fields

  /**
   * What the interpreter contributes and the model does not define:
   * the message text of a fault (`str(e)`), `str(v)` for a value that is not a string,
   * and `str.lower` with Python's Unicode tables.
   */
  datatype Runtime = Runtime(describe: Fault -> string, repr: Value -> string, lower: string -> string)

  /** `str(v)`, as an f-string renders a value. */
  function Str(rt: Runtime, v: Value): string
  {
    if v.VStr? then v.s else rt.repr(v)
  }
}
