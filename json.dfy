/**
 * Decoded JSON values as Python's json.loads returns them, and the few Python
 * operations the client applies to them (dict.get, subscripting, indexing,
 * iterating). Each operation returns None exactly when Python would raise
 * (AttributeError, KeyError, IndexError or TypeError); Python's own None is
 * the JSON value JNull.
 */
module Json {
  import opened Wrappers

  /** JSON null is Python's None; numbers are exact reals, so 1 and 1.0 are equal as in Python. */
  datatype Json =
    | JNull
    | JBool(b: bool)
    | JNum(n: real)
    | JStr(s: string)
    | JArr(elems: seq<Json>)
    | JObj(fields: map<string, Json>)

  /** `row[key]` succeeds: the row is a dict holding the key. */
  predicate HasKey(row: Json, key: string) {
    row.JObj? && key in row.fields
  }

  /** `j.get(key)`: a dict yields the key's value, or None when it lacks the key;
      any other value has no `get` method. */
  function Get(j: Json, key: string): Option<Json> {
    match j
    case JObj(m) => Some(if key in m then m[key] else JNull)
    case _ => None
  }

  /** `j[key]` with a string key: only a dict holding the key answers;
      a missing key is a KeyError, any other value a TypeError. */
  function Subscript(j: Json, key: string): Option<Json> {
    if HasKey(j, key) then Some(j.fields[key]) else None
  }

  /** `j[0]`: the first element of a list, the first character of a string;
      an empty one is an IndexError, a dict has no key 0 (its keys are strings),
      anything else is not subscriptable. */
  function First(j: Json): Option<Json> {
    match j
    case JArr(xs) => if xs == [] then None else Some(xs[0])
    case JStr(s) => if s == [] then None else Some(JStr([s[0]]))
    case _ => None
  }

  /** The elements `for x in j` visits, for a comprehension whose body reads
      `x[key]` with a string key. A list visits its elements. A string visits
      its characters and a dict its keys, all strings, which a string key
      cannot subscript: only an empty one gets through the comprehension.
      Other values are not iterable. */
  function Rows(j: Json): Option<seq<Json>> {
    match j
    case JArr(xs) => Some(xs)
    case JStr(s) => if s == [] then Some([]) else None
    case JObj(m) => if m == map[] then Some([]) else None
    case _ => None
  }
}
