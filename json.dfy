/** A decoded JSON document, as `response.json()` hands it to Python, and the
    three ways the extraction code reads it: `j[key]`, `j[0]`, `j[0:n]` and
    `for x in j`.  Each read either succeeds or raises the exception Python
    raises for that shape. */
module Json {
  import opened Results

  datatype Json =
    | JNull
    | JBool(b: bool)
    | JInt(i: int)
    | JStr(s: string)
    | JArr(elems: seq<Json>)
    | JObj(fields: map<string, Json>)

  /** The exception a subscript or a loop raises; `KeyError` carries the key
      that was missing (a string key, or the integer index 0 used on a dict). */
  datatype LookupError =
    | KeyError(key: Json)
    | IndexError
    | TypeError

  predicate HasKey(j: Json, key: string)
  {
    j.JObj? && key in j.fields
  }

  /** `j[key]` with a string key. */
  function Get(j: Json, key: string): (r: Result<Json, LookupError>)
    ensures r.Ok? <==> HasKey(j, key)
    ensures r.Ok? ==> r.value == j.fields[key]
    ensures r.Err? ==> r.error == if j.JObj? then KeyError(JStr(key)) else TypeError
  {
    match j
    case JObj(m) => if key in m then Ok(m[key]) else Err(KeyError(JStr(key)))
    case _ => Err(TypeError)
  }

  /** `j[0]`: the first element of a list, the first character of a string. */
  function First(j: Json): (r: Result<Json, LookupError>)
    ensures r.Ok? <==> (j.JArr? && |j.elems| > 0) || (j.JStr? && |j.s| > 0)
    ensures r.Ok? && j.JArr? ==> r.value == j.elems[0]
    ensures r.Ok? && j.JStr? ==> r.value == JStr(j.s[..1])
  {
    match j
    case JArr(xs) => if |xs| > 0 then Ok(xs[0]) else Err(IndexError)
    case JStr(s) => if |s| > 0 then Ok(JStr(s[..1])) else Err(IndexError)
    case JObj(_) => Err(KeyError(JInt(0)))
    case _ => Err(TypeError)
  }

  /** `j[0:n]`: a prefix of a string or of a list, cut at the end if too short. */
  function Prefix(j: Json, n: nat): (r: Result<Json, LookupError>)
    ensures r.Ok? <==> j.JStr? || j.JArr?
    ensures r.Ok? && j.JStr? ==> r.value.JStr? && r.value.s <= j.s && |r.value.s| == Min(n, |j.s|)
    ensures r.Ok? && j.JArr? ==> r.value.JArr? && r.value.elems <= j.elems && |r.value.elems| == Min(n, |j.elems|)
  {
    match j
    case JStr(s) => Ok(JStr(if |s| <= n then s else s[..n]))
    case JArr(xs) => Ok(JArr(if |xs| <= n then xs else xs[..n]))
    case _ => Err(TypeError)
  }

  function Min(a: int, b: int): int { if a <= b then a else b }

  /** What a loop `for x in j:` whose body starts with `x["track"]` gets to
      see.  A list yields its elements.  A dict yields its keys and a string
      its characters, all strings, and subscripting a string with "track"
      raises TypeError: so such a loop fails at once on a non-empty dict or
      string and runs zero times on an empty one.  Null, booleans and numbers
      are not iterable. */
  function TrackLoopElements(j: Json): (r: Result<seq<Json>, LookupError>)
    ensures r.Ok? && j.JArr? ==> r.value == j.elems
    ensures r.Ok? && !j.JArr? ==> r.value == []
    ensures r.Err? ==> r.error == TypeError
    ensures r.Ok? <==> j.JArr? || j == JObj(map[]) || j == JStr([])
  {
    match j
    case JArr(xs) => Ok(xs)
    case JObj(m) => if |m| == 0 then Ok([]) else Err(TypeError)
    case JStr(s) => if |s| == 0 then Ok([]) else Err(TypeError)
    case _ => Err(TypeError)
  }
}
