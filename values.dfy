/**
 * Python values as they cross the framework's boundaries (arguments, decoded request
 * bodies, metrics entries) and the exception classes its code raises or catches.
 */
module Values {
  import opened PyText

  /** A Python value; dictionaries are keyed by strings, as all of the framework's are. */
  datatype Value =
    | VNone
    | VBool(b: bool)
    | VInt(i: int)
    | VFloat(text: string)
    | VStr(s: string)
    | VBytes(bytes: seq<byte>)
    | VList(items: seq<Value>)
    | VTuple(elems: seq<Value>)
    | VDict(entries: map<string, Value>)
    | VObject(className: string)

  /** Python truthiness. */
  predicate Truthy(v: Value)
  {
    match v
    case VNone => false
    case VBool(b) => b
    case VInt(i) => i != 0
    case VFloat(t) => t != "0.0" && t != "-0.0"
    case VStr(s) => s != ""
    case VBytes(b) => b != []
    case VList(xs) => xs != []
    case VTuple(xs) => xs != []
    case VDict(m) => m != map[]
    case VObject(_) => true
  }

  /** Python's name for the type of a value, as error messages print it. */
  function TypeName(v: Value): string
  {
    match v
    case VNone => "NoneType"
    case VBool(_) => "bool"
    case VInt(_) => "int"
    case VFloat(_) => "float"
    case VStr(_) => "str"
    case VBytes(_) => "bytes"
    case VList(_) => "list"
    case VTuple(_) => "tuple"
    case VDict(_) => "dict"
    case VObject(c) => c
  }

  /** The exception classes the modelled code raises or catches. */
  datatype ExcKind =
    | PermissionError      // a subclass of OSError
    | OSError              // Python 3's IOError is the same class
    | ValueError
    | UnicodeDecodeError   // a subclass of ValueError
    | AttributeError
    | TypeError
    | KeyError
    | RuntimeError
    | OtherError(name: string)

  /** `isinstance(e, OSError)` (which is also `IOError`). */
  predicate IsOSError(k: ExcKind)
  {
    k == PermissionError || k == OSError
  }

  /** `isinstance(e, ValueError)`. */
  predicate IsValueError(k: ExcKind)
  {
    k == ValueError || k == UnicodeDecodeError
  }

  /** A raised exception and the text `str(e)` gives. */
  datatype Exc = Exc(kind: ExcKind, msg: string)

  /** The one-entry dictionary `{'error': str(e)}` that error replies carry. */
  function ErrorDict(e: Exc): (v: Value)
    ensures v.VDict? && v.entries.Keys == {"error"} && v.entries["error"] == VStr(e.msg)
  {
    VDict(map["error" := VStr(e.msg)])
  }
}
