/** The JavaScript values that reach the validators: a decoded JSON body or
    the data a dashboard call sends. */
module JsValues {
  import opened Wrappers

  /** A JavaScript number: a finite value, or NaN/Infinity (not told apart). */
  datatype Num = Finite(value: real) | NonFinite

  datatype Json =
    | JNull
    | JBool(b: bool)
    | JNum(n: Num)
    | JStr(s: string)
    | JArr(items: seq<Json>)
    | JObj(fields: map<string, Json>)

  /** `value.key` on an object or array; `None` is `undefined`. Arrays carry
      none of the keys the validators read. */
  function Field(v: Json, key: string): (r: Option<Json>)
    requires v.JObj? || v.JArr?
    ensures r.Some? <==> v.JObj? && key in v.fields
    ensures r.Some? ==> r.value == v.fields[key]
  {
    match v
    case JObj(fields) => if key in fields then Some(fields[key]) else None
    case JArr(_) => None
  }

  /** One validation issue; `path` leads from the validated value to the
      offending part, and the empty path is the value itself. */
  datatype Issue = Issue(path: seq<string>)

  /** The issue of a failed field check, none for a passed one. */
  function IssuesOf<T>(r: Result<T, Issue>): seq<Issue> {
    if r.Err? then [r.error] else []
  }

  /** Some issue is about the field `key`: its path starts with `key`. */
  predicate HasIssueAt(issues: seq<Issue>, key: string) {
    exists i :: 0 <= i < |issues| && |issues[i].path| > 0 && issues[i].path[0] == key
  }

  /** `Number.isInteger(n)`. */
  predicate IsInteger(n: Num) {
    n.Finite? && n.value.Floor as real == n.value
  }
}
