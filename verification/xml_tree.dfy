/** The tree `xmltodict.parse` returns, and the Python operations the parsers
    apply to it, each with the exception it raises on the wrong node shape. */
module XmlTree {
  import opened Results
  import opened Strings
  import opened PyModel

  /** A parsed XML value: element text, `None` for an empty element, a dict of
      children and `@`/`#text` entries, or a list of repeated children. */
  datatype Node = Str(s: string) | Null | Dict(entries: seq<(string, Node)>) | List(items: seq<Node>) {
    /** Python truthiness: empty strings, `None` and empty containers are false. */
    predicate Truthy() {
      match this
      case Str(s) => s != ""
      case Null => false
      case Dict(es) => es != []
      case List(xs) => xs != []
    }
  }

  /** The value stored under `key`; the first entry wins (xmltodict never
      produces a dict with a repeated key). */
  function Lookup(entries: seq<(string, Node)>, key: string): (r: Option<Node>)
    ensures r.None? <==> forall i :: 0 <= i < |entries| ==> entries[i].0 != key
    ensures r.Some? ==> (key, r.value) in entries
    decreases |entries|
  {
    if |entries| == 0 then None
    else if entries[0].0 == key then Some(entries[0].1)
    else Lookup(entries[1..], key)
  }

  /** `n.get(key, default)`. */
  function Get(n: Node, key: string, default: Node): (r: Result<Node, PyError>)
    ensures r.Ok? <==> n.Dict?
    ensures r.Ok? && Lookup(n.entries, key).Some? ==> r.value == Lookup(n.entries, key).value
    ensures r.Ok? && Lookup(n.entries, key).None? ==> r.value == default
  {
    match n
    case Dict(es) => Ok(Lookup(es, key).GetOr(default))
    case _ => Err(AttributeError)
  }

  /** `key in n`: a key test on a dict, a substring test on a string, an
      element test on a list; `None` is not a container. */
  function Has(n: Node, key: string): (r: Result<bool, PyError>)
    ensures r.Err? <==> n.Null?
    ensures n.Dict? ==> r == Ok(Lookup(n.entries, key).Some?)
    ensures n.Str? ==> r == Ok(Contains(n.s, key))
    ensures n.List? ==> r == Ok(Str(key) in n.items)
  {
    match n
    case Dict(es) => Ok(Lookup(es, key).Some?)
    case Str(s) => Ok(Contains(s, key))
    case List(xs) => Ok(Str(key) in xs)
    case Null => Err(TypeError)
  }

  /** `n[key]`: only a dict can be indexed by a string, and only by a key it holds. */
  function Index(n: Node, key: string): (r: Result<Node, PyError>)
    ensures r.Ok? <==> n.Dict? && Lookup(n.entries, key).Some?
    ensures r.Ok? ==> (key, r.value) in n.entries
  {
    match n
    case Dict(es) => if Lookup(es, key).Some? then Ok(Lookup(es, key).value) else Err(KeyError)
    case _ => Err(TypeError)
  }

  /** `for x in n`: a list yields its items, a string its characters, a dict
      its keys; iterating `None` raises. */
  function Elements(n: Node): (r: Result<seq<Node>, PyError>)
    ensures r.Err? <==> n.Null?
    ensures n.List? ==> r == Ok(n.items)
    ensures n.Str? ==> r.Ok? && |r.value| == |n.s| && forall i :: 0 <= i < |n.s| ==> r.value[i] == Str([n.s[i]])
    ensures n.Dict? ==> r.Ok? && |r.value| == |n.entries| && forall i :: 0 <= i < |n.entries| ==> r.value[i] == Str(n.entries[i].0)
  {
    match n
    case List(xs) => Ok(xs)
    case Str(s) => Ok(seq(|s|, i requires 0 <= i < |s| => Str([s[i]])))
    case Dict(es) => Ok(seq(|es|, i requires 0 <= i < |es| => Str(es[i].0)))
    case Null => Err(TypeError)
  }
}
