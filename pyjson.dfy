/**
 * A decoded JSON response as a Python program sees it, and the handful of
 * Python operations logic.py applies to it: subscripting, iteration,
 * the membership test `in`, `dict.get`, `dict.keys()` and hashing. Each
 * operation either yields a value or raises the exception Python raises
 * for that shape of value.
 */
module PyJson {
  import opened Wrappers
  import Text

  /** Objects keep their keys in the order of the response, as Python dicts do. */
  datatype Json =
    | JNull
    | JBool(b: bool)
    | JNum(n: real)
    | JStr(s: string)
    | JList(items: seq<Json>)
    | JObj(fields: seq<(string, Json)>)

  /** The exceptions the weekly computation can raise. */
  datatype PyError = KeyError | IndexError | TypeError | AttributeError | ValueError

  type Py<T> = Result<T, PyError>

  function KeysOf(fields: seq<(string, Json)>): (ks: seq<string>)
    ensures |ks| == |fields|
    ensures forall i :: 0 <= i < |fields| ==> ks[i] == fields[i].0
  {
    if fields == [] then [] else [fields[0].0] + KeysOf(fields[1..])
  }

  /** The value stored under key k, if any (the first one, should a response repeat a key). */
  function Find(fields: seq<(string, Json)>, k: string): (r: Option<Json>)
    ensures r.Some? <==> k in KeysOf(fields)
    ensures r.Some? ==> (k, r.value) in fields
  {
    if fields == [] then None
    else if fields[0].0 == k then Some(fields[0].1)
    else Find(fields[1..], k)
  }

  /** `x[k]` for a string key k. */
  function Get(x: Json, k: string): (r: Py<Json>)
    ensures r.Success? <==> x.JObj? && k in KeysOf(x.fields)
    ensures r.Success? ==> (k, r.value) in x.fields
    ensures x.JObj? && k !in KeysOf(x.fields) ==> r == Failure(KeyError)
    ensures !x.JObj? ==> r == Failure(TypeError)
  {
    match x
    case JObj(fields) => if k in KeysOf(fields) then Success(Find(fields, k).value) else Failure(KeyError)
    case _ => Failure(TypeError)
  }

  /** `x[i]` for an integer index i >= 0. JSON objects have no integer keys. */
  function At(x: Json, i: nat): Py<Json>
  {
    match x
    case JList(items) => if i < |items| then Success(items[i]) else Failure(IndexError)
    case JStr(s) => if i < |s| then Success(JStr([s[i]])) else Failure(IndexError)
    case JObj(_) => Failure(KeyError)
    case _ => Failure(TypeError)
  }

  datatype Step = Key(k: string) | Index(i: nat)

  /** A chain of subscripts `x[s0][s1]...`, evaluated left to right. */
  function Path(x: Json, steps: seq<Step>): Py<Json>
    decreases |steps|
  {
    if steps == [] then Success(x)
    else
      var y :- match steps[0] case Key(k) => Get(x, k) case Index(i) => At(x, i);
      Path(y, steps[1..])
  }

  /** What `for y in x` visits: list items, dict keys, or the characters of a string. */
  function Iter(x: Json): Py<seq<Json>>
  {
    match x
    case JList(items) => Success(items)
    case JObj(fields) => Success(seq(|fields|, i requires 0 <= i < |fields| => JStr(fields[i].0)))
    case JStr(s) => Success(seq(|s|, i requires 0 <= i < |s| => JStr([s[i]])))
    case _ => Failure(TypeError)
  }

  /** `k in x` for a string k: key membership, list membership or a substring test. */
  function Contains(x: Json, k: string): Py<bool>
  {
    match x
    case JObj(fields) => Success(k in KeysOf(fields))
    case JList(items) => Success(JStr(k) in items)
    case JStr(s) => Success(Text.HasSubstring(s, k))
    case _ => Failure(TypeError)
  }

  /** `k in x` where x is already known to be a dict. */
  predicate HasKey(x: Json, k: string)
  {
    x.JObj? && k in KeysOf(x.fields)
  }

  /** `x.get(k, default)`; only dicts have a `get` method. */
  function GetOr(x: Json, k: string, default: Json): (r: Py<Json>)
    ensures x.JObj? <==> r.Success?
    ensures HasKey(x, k) ==> r == Get(x, k)
    ensures x.JObj? && !HasKey(x, k) ==> r == Success(default)
  {
    match x
    case JObj(fields) => if k in KeysOf(fields) then Get(x, k) else Success(default)
    case _ => Failure(AttributeError)
  }

  /** `list(x.keys())`; only dicts have a `keys` method. */
  function DictKeys(x: Json): Py<seq<string>>
  {
    match x
    case JObj(fields) => Success(KeysOf(fields))
    case _ => Failure(AttributeError)
  }

  /** Lists and dicts cannot be dict keys or Counter keys. */
  predicate Hashable(x: Json)
  {
    !x.JList? && !x.JObj?
  }

  const EmptyDict: Json := JObj([])
  const EmptyList: Json := JList([])
}
