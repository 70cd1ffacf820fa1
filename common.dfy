/** Small shared vocabulary: optional values, results with the errors the
    Python code raises, attribute values as Frappe stores them, and the
    string join used to build document content. */
module Common {

  datatype Option<+T> = None | Some(value: T) {
    function GetOr(default: T): T {
      match this
      case Some(v) => v
      case None => default
    }
  }

  /** The Python exceptions that the modelled code can raise. */
  datatype Error =
    | ZeroDivision      // `x // 0`
    | IndexError        // `[][0]`, `[][-1]`
    | KeyError          // `dict.pop(k)` for a missing key
    | AttributeError    // `getattr(doc, f)` for a field the document lacks
    | NameError         // a free variable read before the enclosing scope binds it

  datatype Result<+T> = Ok(value: T) | Err(error: Error) {
    predicate IsFailure() { Err? }
    function PropagateFailure<U>(): Result<U>
      requires Err?
    {
      Err(error)
    }
    function Extract(): T
      requires Ok?
    {
      value
    }
  }

  /** A field value read from the data store: SQL NULL / Python None, or text.
      Numbers and dates are represented by their text. */
  datatype Value = Null | Text(s: string)

  /** Python's `str(v)`. */
  function Str(v: Value): string {
    match v
    case Null => "None"
    case Text(s) => s
  }

  /** Python truthiness of a value: None and "" are falsy. */
  predicate Truthy(v: Value) {
    v.Text? && v.s != ""
  }

  /** `sep.join(parts)`. */
  function Join(sep: string, parts: seq<string>): string {
    if |parts| == 0 then ""
    else if |parts| == 1 then parts[0]
    else parts[0] + sep + Join(sep, parts[1..])
  }

  predicate NoDuplicates<T(==)>(s: seq<T>) {
    forall i, j :: 0 <= i < j < |s| ==> s[i] != s[j]
  }

  function Min(a: nat, b: nat): nat {
    if a <= b then a else b
  }
}
