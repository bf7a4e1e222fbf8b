/** The dynamically typed JSON value the manager stores and edits. */
module JsonValue {

  /** A JSON number. Its representation (integer or floating point) never
      matters to the operations modelled here, so it is kept abstract. */
  datatype Number = Number(literal: string)

  /** A JSON value. Objects are maps from key to value: key order is a
      serialisation concern and plays no part in any operation modelled. */
  datatype Json =
    | Null
    | Bool(b: bool)
    | Num(n: Number)
    | Str(s: string)
    | Obj(fields: map<string, Json>)
    | Arr(items: seq<Json>)
  {
    /** Objects and arrays are the only values a path can step into. */
    predicate IsContainer() {
      Obj? || Arr?
    }
  }
}
