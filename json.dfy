/** A decoded JSON response as Python holds it after `response.json()`, and the Python
    operations the backends apply to it, each with the exception it raises on a value
    of the wrong shape. */
module Json {
  import opened Outcomes
  import Text

  /** `None`, `bool`, `int`, `float`, `str`, `list` and `dict`. A JSON number with a
      fraction or exponent decodes to a float, any other to an int. A dict lists its
      entries in insertion order; a Python dict never repeats a key. */
  datatype Value =
    | Null
    | Bool(b: bool)
    | Int(i: int)
    | Float(f: real)
    | Str(s: string)
    | List(items: seq<Value>)
    | Dict(fields: seq<(string, Value)>)

  /** The value stored under `key`, if any. */
  function Lookup(fields: seq<(string, Value)>, key: string): (r: Option<Value>)
    ensures r.Some? <==> exists k :: 0 <= k < |fields| && fields[k].0 == key
    ensures r.Some? ==> (key, r.value) in fields
    decreases |fields|
  {
    if fields == [] then None
    else if fields[0].0 == key then Some(fields[0].1)
    else Lookup(fields[1..], key)
  }

  /** `len(v)` */
  function Len(v: Value): Outcome<nat> {
    match v
    case List(items) => Ok(|items|)
    case Str(s) => Ok(|s|)
    case Dict(fields) => Ok(|fields|)
    case _ => Raise(TypeError)
  }

  /** `v[k]` for a non-negative int `k`. A dict decoded from JSON has only str keys,
      so an int key is never found in it. */
  function Index(v: Value, k: nat): Outcome<Value> {
    match v
    case List(items) => if k < |items| then Ok(items[k]) else Raise(IndexError)
    case Str(s) => if k < |s| then Ok(Str([s[k]])) else Raise(IndexError)
    case Dict(_) => Raise(KeyError)
    case _ => Raise(TypeError)
  }

  /** `v[key]` for a str `key`. */
  function Subscript(v: Value, key: string): Outcome<Value> {
    match v
    case Dict(fields) =>
      var found := Lookup(fields, key);
      if found.Some? then Ok(found.value) else Raise(KeyError)
    case _ => Raise(TypeError)
  }

  /** The elements a `for` loop over `v` visits: a list's items, a str's characters,
      a dict's keys. */
  function Iterate(v: Value): Outcome<seq<Value>> {
    match v
    case List(items) => Ok(items)
    case Str(s) => Ok(seq(|s|, k requires 0 <= k < |s| => Str([s[k]])))
    case Dict(fields) => Ok(seq(|fields|, k requires 0 <= k < |fields| => Str(fields[k].0)))
    case _ => Raise(TypeError)
  }

  /** `v.get(key, default)` */
  function Get(v: Value, key: string, default: Value): Outcome<Value> {
    match v
    case Dict(fields) => Ok(Lookup(fields, key).GetOr(default))
    case _ => Raise(AttributeError)
  }

  /** The number a value stands for in a numeric comparison (`True` is 1). */
  function Number(v: Value): Option<real> {
    match v
    case Bool(b) => Some(if b then 1.0 else 0.0)
    case Int(i) => Some(i as real)
    case Float(f) => Some(f)
    case _ => None
  }

  /** `v <= t` against a number `t`. */
  function LessEq(v: Value, t: real): Outcome<bool> {
    var x := Number(v);
    if x.Some? then Ok(x.value <= t) else Raise(TypeError)
  }

  /** `v.strip(chars)` */
  function StripStr(v: Value, chars: set<char>): Outcome<string> {
    match v
    case Str(s) => Ok(Text.Strip(s, chars))
    case _ => Raise(AttributeError)
  }

  /** `int(x)` for a float: truncation toward zero. */
  function Truncate(x: real): int {
    if x >= 0.0 then x.Floor else -((-x).Floor)
  }

  /** `int(v)` */
  function ToInt(v: Value): Outcome<int> {
    match v
    case Bool(b) => Ok(if b then 1 else 0)
    case Int(i) => Ok(i)
    case Float(f) => Ok(Truncate(f))
    case Str(s) => Text.ParseInt(s)
    case _ => Raise(TypeError)
  }
}
