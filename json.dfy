/**
 * The decoded body of the feeder's `monitor.json`, as Python's `json` module
 * returns it, and the two conversions the check applies to its values:
 * `str(v)` (through `'{}'.format(v)`) and `int(v)`.
 */
module Json {
  import opened Wrappers
  import opened PyText

  /**
   * One decoded JSON value. Floats, arrays and objects are carried with their
   * Python `str()` rendering, which the model does not compute.
   */
  datatype Value =
    | Null                                  // None
    | Bool(b: bool)                         // True / False
    | Int(i: int)                           // int, unbounded as in Python
    | Float(x: real, text: string)          // a finite float
    | NonFinite(text: string)               // NaN, Infinity, -Infinity (accepted by json.loads)
    | Str(s: string)                        // str
    | Array(text: string)                   // list
    | Object(text: string)                  // dict nested inside the document

  /** What `response.json()` produced: a top-level object, or any other JSON value. */
  datatype Document = Fields(fields: map<string, Value>) | NotAnObject

  /** `data[key]`: a KeyError when absent, a TypeError when `data` is not a dict. */
  function Lookup(data: Document, key: string): (r: Option<Value>)
    ensures r.Some? <==> data.Fields? && key in data.fields
    ensures r.Some? ==> r.value == data.fields[key]
  {
    match data
    case Fields(m) => if key in m then Some(m[key]) else None
    case NotAnObject => None
  }

  /** `type(v).__name__`. */
  function TypeName(v: Value): string
  {
    match v
    case Null => "NoneType"
    case Bool(_) => "bool"
    case Int(_) => "int"
    case Float(_, _) => "float"
    case NonFinite(_) => "float"
    case Str(_) => "str"
    case Array(_) => "list"
    case Object(_) => "dict"
  }

  /** `str(v)`, which is also what `'{}'.format(v)` inserts. */
  function ToStr(v: Value): (s: string)
    ensures v.Str? ==> s == v.s
    ensures v.Int? ==> s == IntToStr(v.i)
    ensures v.Null? ==> s == "None"
    ensures v.Bool? ==> s == if v.b then "True" else "False"
  {
    match v
    case Null => "None"
    case Bool(b) => if b then "True" else "False"
    case Int(i) => IntToStr(i)
    case Float(_, text) => text
    case NonFinite(text) => text
    case Str(s) => s
    case Array(text) => text
    case Object(text) => text
  }

  /** Python's truncation of a float toward zero, as `int(x)` does. */
  function Truncate(x: real): (n: int)
    ensures x >= 0.0 ==> n as real <= x < n as real + 1.0
    ensures x < 0.0 ==> n as real - 1.0 < x <= n as real
  {
    if x >= 0.0 then x.Floor else -((-x).Floor)
  }

  /**
   * `int(v)`: ints pass through, bools become 0 or 1, finite floats truncate,
   * strings are parsed; None, NaN, infinities, lists and dicts raise (None).
   */
  function ToInt(v: Value): (r: Option<int>)
    ensures v.Int? ==> r == Some(v.i)
    ensures v.Null? || v.NonFinite? || v.Array? || v.Object? ==> r == None
    ensures v.Str? ==> r == ParseInt(v.s)
    ensures v.Bool? ==> r == Some(if v.b then 1 else 0)
    ensures v.Float? ==> r == Some(Truncate(v.x))
  {
    match v
    case Null => None
    case Bool(b) => Some(if b then 1 else 0)
    case Int(i) => Some(i)
    case Float(x, _) => Some(Truncate(x))
    case NonFinite(_) => None
    case Str(s) => ParseInt(s)
    case Array(_) => None
    case Object(_) => None
  }


  /** An integer rendered by `str()` and read back by `int()` is the same integer. */
  lemma IntRenderRoundTrip(i: int)
    ensures ToInt(Str(ToStr(Int(i)))) == Some(i)
  {
    IntStrRoundTrip(i);
  }
}
