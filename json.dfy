/**
 * The shape of one inbound WebSocket frame after `json.loads`.
 *
 * Decoding itself is a foreign call and is not modelled: a frame reaches the
 * model as the value it decodes to. Nested lists and dicts are kept only as
 * their length, which is all Python's `len()` can observe of them; JSON
 * floats are left out.
 */
module Json {
  import opened Wrappers

  /** A Python value produced by `json.loads` under a key of a dict. */
  datatype Value =
    | Null
    | Bool(b: bool)
    | Number(n: int)
    | Str(s: string)
    | List(size: nat)
    | Dict(size: nat)

  type Fields = map<string, Value>

  /** What `json.loads` made of one frame. */
  datatype Decoded =
    | Invalid            // json.JSONDecodeError (or, for broadcasts, a zlib error)
    | Undecodable        // another exception from `json.loads`: UnicodeDecodeError on bytes that are not UTF-8, RecursionError on very deep nesting
    | NonObject          // valid JSON whose top level is not an object: `.get` raises AttributeError
    | Obj(fields: Fields)

  /** `d.get(key)`: the value, or None when the key is absent. */
  function Get(f: Fields, key: string): (r: Option<Value>)
    ensures r.Some? <==> key in f
    ensures r.Some? ==> r.value == f[key]
  {
    if key in f then Some(f[key]) else None
  }

  /** `d.get(key, default)`. */
  function GetOr(f: Fields, key: string, default: Value): (r: Value)
    ensures key in f ==> r == f[key]
    ensures key !in f ==> r == default
  {
    if key in f then f[key] else default
  }

  /** Python's `len(v)`: None where `len` raises TypeError (numbers, booleans, None). */
  function Len(v: Value): (r: Option<nat>)
    ensures r.Some? <==> (v.Str? || v.List? || v.Dict?)
    ensures v.Str? ==> r == Some(|v.s|)
  {
    match v
    case Str(s) => Some(|s|)
    case List(n) => Some(n)
    case Dict(n) => Some(n)
    case _ => None
  }
}
