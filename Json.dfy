/** The argument values a tool call carries: what JSON decodes to in
    Python, with Python's truthiness and `for` iteration over them. */
module Json {
  import opened Wrappers

  /** `None`, `bool`, `int`, `float`, `str`, `list` and `dict`. A dict's
      `entries` hold its distinct keys, each once, in insertion order, as
      `DistinctKeys` states. */
  datatype Value =
    | Null
    | Bool(b: bool)
    | Int(i: int)
    | Float(r: real)
    | Str(s: string)
    | Array(items: seq<Value>)
    | Object(entries: seq<(string, Value)>)

  /** A dict decoded from JSON names each key once. */
  predicate DistinctKeys(entries: seq<(string, Value)>) {
    forall i, j :: 0 <= i < j < |entries| ==> entries[i].0 != entries[j].0
  }

  /** Python's `bool(v)`: `None`, `False`, `0`, `0.0`, `""`, `[]` and `{}`
      are false. */
  predicate Truthy(v: Value)
    ensures !Truthy(v) <==> v in {Null, Bool(false), Int(0), Float(0.0), Str(""), Array([]), Object([])}
  {
    match v
    case Null => false
    case Bool(b) => b
    case Int(i) => i != 0
    case Float(r) => r != 0.0
    case Str(s) => s != ""
    case Array(items) => items != []
    case Object(entries) => entries != []
  }

  /** What `for x in v` visits: the items of a list, the one-character
      strings of a string, the keys of a dict; `None` stands for the
      `TypeError` raised for any other value. */
  function Iterate(v: Value): (r: Option<seq<Value>>)
    ensures r.None? <==> !(v.Array? || v.Str? || v.Object?)
    ensures v.Object? && DistinctKeys(v.entries) ==>
      forall i, j :: 0 <= i < j < |r.value| ==> r.value[i] != r.value[j]
  {
    match v
    case Array(items) => Some(items)
    case Str(s) => Some(Characters(s))
    case Object(entries) => Some(Keys(entries))
    case _ => None
  }

  /** The one-character strings of `s`, in order. */
  function Characters(s: string): (r: seq<Value>)
    ensures |r| == |s| && forall i :: 0 <= i < |s| ==> r[i] == Str([s[i]])
  {
    if s == [] then [] else Characters(s[..|s| - 1]) + [Str([s[|s| - 1]])]
  }

  /** The keys of a dict, in order. */
  function Keys(entries: seq<(string, Value)>): (r: seq<Value>)
    ensures |r| == |entries| && forall i :: 0 <= i < |entries| ==> r[i] == Str(entries[i].0)
  {
    if entries == [] then [] else Keys(entries[..|entries| - 1]) + [Str(entries[|entries| - 1].0)]
  }

  /** `arguments.get(key)`. */
  function Get(arguments: map<string, Value>, key: string): Value {
    if key in arguments then arguments[key] else Null
  }
}
