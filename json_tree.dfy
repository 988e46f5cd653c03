/** The Gson element tree the player cache reads and writes, and the
    accessors it calls on it. Text parsing and pretty-printing are not part of
    this model: a document is the tree `JsonParser` would produce. Numbers are
    integral and written in plain decimal. */
module JsonTree {
  import opened Wrappers
  import JavaLang

  datatype Json =
    | JNull
    | JBool(b: bool)
    | JNum(n: int)
    | JStr(s: string)
    | JArr(items: seq<Json>)
    | JObj(members: map<string, Json>)
  {
    /** Instances of `JsonPrimitive`: booleans, numbers and strings (not `JsonNull`). */
    predicate IsPrimitive() { JBool? || JNum? || JStr? }
  }

  /** `getAsJsonPrimitive(key)` followed by a use of the result: `None` when the
      member is absent (a null, so the use throws `NullPointerException`) or is
      not a primitive (the cast throws `ClassCastException`). */
  function PrimitiveMember(members: map<string, Json>, key: string): (r: Option<Json>)
    ensures r.Some? <==> key in members && members[key].IsPrimitive()
    ensures r.Some? ==> r.value == members[key]
  {
    if key in members && members[key].IsPrimitive() then Some(members[key]) else None
  }

  /** `JsonPrimitive.getAsString`: the string itself, "true"/"false" for a
      boolean, the number's decimal text for a number. */
  function PrimitiveAsString(p: Json): string
    requires p.IsPrimitive()
  {
    match p
    case JStr(s) => s
    case JBool(b) => if b then "true" else "false"
    case JNum(n) => JavaLang.IntToDecimal(n)
  }

  /** `JsonPrimitive.getAsInt`: a number narrowed to `int`, otherwise
      `Integer.parseInt` of the string form; `None` is the
      `NumberFormatException`. */
  function PrimitiveAsInt(p: Json): (r: Option<int>)
    requires p.IsPrimitive()
    ensures r.Some? ==> JavaLang.IsInt32(r.value)
  {
    match p
    case JNum(n) => Some(JavaLang.ToInt32(n))
    case JStr(s) => JavaLang.ParseInt32(s)
    case JBool(_) => JavaLang.ParseInt32(PrimitiveAsString(p))
  }
}
