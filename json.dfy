/**
 * Decoded JSON documents, as the Python client sees them after `response.json()`,
 * together with the few pieces of Python semantics the client relies on:
 * truthiness, `dict.get` with a default, and `for x in value`.
 */
module Json {
  import opened Wrappers

  /** A decoded JSON value. Objects are dicts from string keys; numbers are integers. */
  datatype Value =
    | Null
    | Bool(b: bool)
    | Num(n: int)
    | Str(s: string)
    | Arr(items: seq<Value>)
    | Obj(fields: map<string, Value>)

  /**
   * The exceptions the client code can raise while reading a response.
   * `Raised` is an `Exception(message)` raised by the client itself;
   * `Malformed` stands for the AttributeError, TypeError or KeyError Python raises
   * when the document does not have the shape the code navigates.
   */
  datatype Error = Raised(message: string) | Malformed

  /** Python truthiness: `None`, `False`, `0`, `""`, `[]` and `{}` are false. */
  predicate Truthy(v: Value) {
    match v
    case Null => false
    case Bool(b) => b
    case Num(n) => n != 0
    case Str(s) => s != ""
    case Arr(items) => items != []
    case Obj(fields) => fields != map[]
  }

  /** A non-empty string, the only kind of truthy value the model keeps as a language or script code. */
  predicate NonEmptyStr(v: Value) {
    v.Str? && v.s != ""
  }

  /** A list or an object: Python cannot hash it, as a dict key or inside a tuple added to a set. */
  predicate Unhashable(v: Value) {
    v.Arr? || v.Obj?
  }

  /** `obj.get(key)`: the value under `key`, or `None` when it is absent. */
  function Get(obj: Value, key: string): Option<Value>
    requires obj.Obj?
  {
    if key in obj.fields then Some(obj.fields[key]) else None
  }

  /** `obj.get(key, default)`; `obj.get(key)` is `GetOr(obj, key, Null)`. */
  function GetOr(obj: Value, key: string, default: Value): Value
    requires obj.Obj?
  {
    if key in obj.fields then obj.fields[key] else default
  }

  /**
   * The elements `for x in v` visits, when every one of them is a value the
   * client can call `.get` on or index. A list yields its items; an empty string
   * or an empty dict yields nothing. A non-empty string or dict yields strings
   * (characters or keys), and every loop of the client calls `.get` on its
   * element, so such a value fails exactly like `None`, a boolean or a number,
   * which are not iterable at all: `None` here means the loop raises.
   */
  function Iterable(v: Value): Option<seq<Value>> {
    match v
    case Arr(items) => Some(items)
    case Str(s) => if s == "" then Some([]) else None
    case Obj(fields) => if fields == map[] then Some([]) else None
    case _ => None
  }
}
