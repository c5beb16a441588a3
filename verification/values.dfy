/** Python values as they travel through the bot: decoded updates, handler
    arguments and outgoing request parameters. Both bot libraries
    (asynctelebot and pytelegram_async) share this vocabulary. */
module Values {

  datatype Option<+T> = None | Some(value: T)

  /** One octet of a request body or of an attached file. */
  newtype byte = b: int | 0 <= b < 256

  /** A JSON-shaped Python value: None, bool, int, str, list or dict. */
  datatype Value =
    | Null
    | Bool(b: bool)
    | Int(i: int)
    | Str(s: string)
    | List(items: seq<Value>)
    | Obj(fields: map<string, Value>)

  /** A chat message as the handlers see it: a dict from field name to value. */
  type Message = map<string, Value>

  /** The Python exceptions the modelled code raises, filters or swallows.
      SocketError stands for a transport exception that is not an
      HTTPError (tornado hands a raw `socket.error` to the callback), and
      HandlerError for whatever user handler code raises. */
  datatype Exc =
    | KeyError
    | TypeError
    | AttributeError
    | ValueError
    | HttpError
    | UnicodeError
    | IndexError
    | SocketError
    | HandlerError

  /** A Python call that either returns a value or raises. */
  datatype Outcome<+T> = Ok(value: T) | Raise(exc: Exc)

  /** Which of the two near-duplicate libraries is being modelled. */
  datatype Library = AsyncTelebot | PytelegramAsync

  /** Python's json.dumps and str(): the model takes them as given. */
  datatype Codec = Codec(dumps: Value -> string, str: Value -> string)

  /** Python truth value (`if v:`). */
  predicate Truthy(v: Value) {
    match v
    case Null => false
    case Bool(b) => b
    case Int(i) => i != 0
    case Str(s) => s != []
    case List(xs) => xs != []
    case Obj(m) => m != map[]
  }

  /** The integer a value stands for in Python arithmetic and comparison:
      bool is a subclass of int, so True behaves as 1 and False as 0. */
  function AsInt(v: Value): (r: Option<int>)
    ensures r.Some? <==> v.Int? || v.Bool?
    ensures v.Int? ==> r == Some(v.i)
  {
    match v
    case Int(i) => Some(i)
    case Bool(b) => Some(if b then 1 else 0)
    case _ => None
  }

  /** Python `v in xs` for a list of ints: membership by `==`. */
  predicate InIntList(v: Value, xs: seq<int>) {
    AsInt(v).Some? && AsInt(v).value in xs
  }

  /** Python `len(v)`: the item count of a str, list or dict, or None for a
      value that has no length (`len` raises TypeError on it). */
  function Len(v: Value): (r: Option<nat>)
    ensures r.None? <==> v.Null? || v.Bool? || v.Int?
    ensures v.Str? ==> r == Some(|v.s|)
    ensures v.List? ==> r == Some(|v.items|)
  {
    match v
    case Str(s) => Some(|s|)
    case List(xs) => Some(|xs|)
    case Obj(m) => Some(|m|)
    case _ => None
  }

  /** Python `v[i]` for a non-negative int index: a str yields its
      one-character string, a list (or tuple) its item, and an index past
      the end raises IndexError; a dict has only str keys, so the lookup
      raises KeyError; any other value is not subscriptable (TypeError). */
  function Item(v: Value, i: nat): (r: Outcome<Value>)
    ensures r.Ok? <==> (v.Str? || v.List?) && i < Len(v).value
    ensures r.Raise? ==> r.exc == (if v.Str? || v.List? then IndexError else if v.Obj? then KeyError else TypeError)
    ensures r.Ok? && v.Str? ==> r.value == Str([v.s[i]])
    ensures r.Ok? && v.List? ==> r.value == v.items[i]
  {
    match v
    case Str(s) => if i < |s| then Ok(Str([s[i]])) else Raise(IndexError)
    case List(xs) => if i < |xs| then Ok(xs[i]) else Raise(IndexError)
    case Obj(_) => Raise(KeyError)
    case _ => Raise(TypeError)
  }

  /** Python `k in s` for two strings: `k` occurs in `s` as a substring. */
  predicate Infix(k: string, s: string)
    decreases |s|
  {
    |k| <= |s| && (s[..|k|] == k || Infix(k, s[1..]))
  }

  /** Python `d.get(k)`: the value under `k`, or None. */
  function Get(d: map<string, Value>, k: string): (r: Value)
    ensures k in d ==> r == d[k]
    ensures k !in d ==> r == Null
  {
    if k in d then d[k] else Null
  }
}
