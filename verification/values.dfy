/** Values that a calculable, a source field or a cutflow report can hold. */
module Values {

  /** The conventional Some/None wrapper, used for optional references. */
  datatype Option<T> = None | Some(value: T)

  /** A dynamically typed value as the analysis code handles it; `Null` is
      Python's `None`, which a calculable may legitimately return. */
  datatype Value =
    | Null
    | Bool(b: bool)
    | Int(i: int)
    | Str(s: string)
    | List(items: seq<Value>)

  /** The named fields of one input record, as a source object exposes them. */
  type Record = map<string, Value>
}
