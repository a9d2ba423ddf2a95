/**
 The values a parsed form record holds, and the JavaScript coercions the output
 code applies to them.
 */
module Records {
  import opened Wrappers
  import opened Strings
  import opened Assoc

  /**
   A property value of a parsed record: a scalar string, an array of strings, or a
   `pair` object from string keys to string values. `Undefined` is what reading a
   missing property yields.
   */
  datatype Value = Undefined | Str(text: string) | List(items: seq<string>) | Pairs(entries: Assoc<string>)

  /** One instance of an option: parameter name to value, in insertion order. */
  type Record = Assoc<Value>

  /** `record[k]`, which is `undefined` when the property is missing. */
  function Field(r: Record, k: string): Value
  {
    match Get(r, k)
    case None => Undefined
    case Some(v) => v
  }

  /** The property key a possibly-unset variable becomes when used as `obj[x]`. */
  function PropertyKey(x: Option<string>): string
  {
    match x
    case None => "undefined"
    case Some(s) => s
  }

  /** `String(v)`, as a template literal or `join` applies it. */
  function Display(v: Value): string
  {
    match v
    case Undefined => "undefined"
    case Str(s) => s
    case List(xs) => Join(xs, ",")
    case Pairs(_) => "[object Object]"
  }

  /** `Boolean(v)`: only `undefined` and the empty string are falsy here. */
  predicate Truthy(v: Value)
  {
    match v
    case Undefined => false
    case Str(s) => s != ""
    case List(_) => true
    case Pairs(_) => true
  }
}
