/** The JavaScript objects the pages exchange with the store, as JSON values.
    A record is an object: a finite map from field names to values, so that
    the spread `{...a, ...b}` is the map union `a + b` (fields of `b` win) and
    reading `a.f` is `Get(a, "f")`, with `None` standing for `undefined`. */
module Json {
  import opened Wrappers

  datatype Value =
    | Null
    | Num(n: int)
    | Str(s: string)
    | Day(day: int)          // a date, as its day number
    | Arr(items: seq<Value>)
    | Obj(fields: map<string, Value>)

  type Record = map<string, Value>

  /** Property read `r.key`: `None` when the field is missing. */
  function Get(r: Record, key: string): Option<Value>
  {
    if key in r then Some(r[key]) else None
  }

  /** JavaScript truthiness of a field read: `undefined`, `null`, `0` and the
      empty string are falsy; every other value is truthy. */
  predicate Truthy(v: Option<Value>)
  {
    match v
    case None => false
    case Some(Null) => false
    case Some(Num(n)) => n != 0
    case Some(Str(s)) => s != ""
    case Some(_) => true
  }

  /** The fields of `r` whose names are in `keys`. */
  function Restrict(r: Record, keys: set<string>): (p: Record)
    ensures p.Keys == r.Keys * keys
    ensures forall k :: k in p ==> p[k] == r[k]
  {
    map k | k in r && k in keys :: r[k]
  }
}
