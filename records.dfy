/** The data the tools read and return: JSON records held as Python dicts,
    the outcome of loading a JSON store, and what a tool hands back. */
module Records {
  import opened PyText

  /** A JSON value as Python holds it after `json.load`. Floats, lists and
      nested objects are kept abstract: their Python type name and the text
      `str()` gives them. `Null` is Python's `None`. */
  datatype Value =
    | Str(s: string)
    | Int(i: int)
    | Bool(b: bool)
    | Null
    | Other(typeName: string, text: string)

  /** A record of a store: a dict from string keys to values. */
  type Record = map<string, Value>

  /** Python's `r.get(key, default)`. */
  function Get(r: Record, key: string, default: Value): Value {
    if key in r then r[key] else default
  }

  /** Python's `str(v)`. */
  function PyStr(v: Value): string {
    match v
    case Str(s) => s
    case Int(i) => IntText(i)
    case Bool(b) => if b then "True" else "False"
    case Null => "None"
    case Other(_, text) => text
  }

  /** Python's `type(v).__name__`. */
  function TypeName(v: Value): string {
    match v
    case Str(_) => "str"
    case Int(_) => "int"
    case Bool(_) => "bool"
    case Null => "NoneType"
    case Other(name, _) => name
  }

  /** The text of the `AttributeError` raised by `v.lower()` on a value
      that is not a string. */
  function NoLowerText(v: Value): string {
    "'" + TypeName(v) + "' object has no attribute 'lower'"
  }

  /** What opening a store file and `json.load`-ing it gives: the array of
      records, or the failure with its text `str(e)`. */
  datatype Load = Loaded(records: seq<Record>) | Failed(detail: string)

  /** What a tool returns as text: `json.dumps` of one record, `json.dumps`
      of a list of records, or a plain sentence. */
  datatype Output = DumpRecord(record: Record) | DumpList(records: seq<Record>) | Text(text: string)

  /** A Python call that either returns a value or raises an exception,
      given by its text. */
  datatype Call = Returned(value: Value) | Raised(error: string)
}
