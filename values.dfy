/** The cell values a row can hold and how a row is looked up by column key.
    Renderings that come from the JavaScript runtime (number formatting,
    `Date` formatting, `JSON.stringify`, `String(object)`) are carried by the
    value itself, since they are not part of this model. */
module Values {

  /** An optional property: `None` stands for a property that is absent or `undefined`. */
  datatype Option<T> = None | Some(value: T)

  datatype Value =
    | Null
    | Undefined
    | Str(s: string)
    | Bool(b: bool)
      /** a number or a bigint, with its `String(...)` spelling */
    | Num(text: string)
      /** a `Date`, with its `toISOString()` and its `String(...)` spellings */
    | DateValue(iso: string, display: string)
      /** any other object, with its `JSON.stringify` and `String(...)` spellings */
    | Other(json: string, display: string)

  /** A row maps column keys to values; keys it lacks read as `undefined`. */
  type Row = map<string, Value>

  function Get(row: Row, key: string): (v: Value)
    ensures key !in row ==> v == Undefined
  {
    if key in row then row[key] else Undefined
  }

  /** `String(value)` for a value that is not null or undefined. */
  function StringOf(v: Value): string
  {
    match v
    case Null => "null"
    case Undefined => "undefined"
    case Str(s) => s
    case Bool(b) => if b then "true" else "false"
    case Num(t) => t
    case DateValue(_, d) => d
    case Other(_, d) => d
  }
}
