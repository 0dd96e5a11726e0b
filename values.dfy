/** The Python-level values the storehouse passes around. */
module Values {

  /** A JSON-like payload: the `data` of a box and the values of parsed documents. */
  datatype Value =
    | JNull
    | JBool(b: bool)
    | JInt(i: int)
    | JStr(s: string)
    | JList(items: seq<Value>)
    | JDict(fields: map<string, Value>)

  /** A parsed JSON object, or the dictionary a box turns into. */
  type Dict = map<string, Value>

  /** An attribute that holds either Python's `None` or a `str`. */
  datatype OptStr = PyNone | PyStr(s: string)

  /** The JSON value an optional string serialises to. */
  function AsValue(o: OptStr): Value
  {
    match o
    case PyNone => JNull
    case PyStr(s) => JStr(s)
  }

  /** The exceptions the modelled code raises or catches. */
  datatype Exc =
    | KeyError
    | TypeError
    | ValueError
    | AttributeError
    | UnboundLocalError
    | FileNotFoundError
    | NotFoundException
    | OtherError

  datatype Option<+T> = None | Some(value: T) {
    function GetOr(default: T): T
    {
      match this
      case Some(v) => v
      case None => default
    }
  }

  /** The value a Python call returns, or the exception it raises. */
  datatype Result<+T> = Ok(value: T) | Raise(error: Exc)

  predicate IsPrefix(t: string, s: string)
  {
    |t| <= |s| && s[..|t|] == t
  }

  /** Python's `t in s` on two strings: `t` occurs somewhere in `s`. */
  predicate IsSubstring(t: string, s: string)
  {
    exists p :: 0 <= p <= |s| - |t| && IsPrefix(t, s[p..])
  }
}
