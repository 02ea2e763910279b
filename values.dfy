/** The Python objects the modelling session keeps in its attributes and writes
    into a saved artifact: `None`, strings, numbers, lists, dicts with string
    keys, and the regressor object. */
module Values {

  datatype Option<T> = None | Some(value: T)

  /** The regressor in `self.model`: created but not fitted, or fitted. */
  datatype Estimator = Unfitted | Fitted(coefficients: seq<real>, intercept: real)

  datatype Value =
    | VNone
    | VStr(s: string)
    | VNum(x: real)
    | VList(items: seq<Value>)
    | VDict(entries: map<string, Value>)
    | VModel(estimator: Estimator)

  /** Python truthiness, as `if not x` reads it: an estimator object is always true. */
  predicate Truthy(v: Value) {
    match v
    case VNone => false
    case VStr(s) => s != []
    case VNum(x) => x != 0.0
    case VList(items) => items != []
    case VDict(m) => m != map[]
    case VModel(_) => true
  }

  /** `d.get(key, default)`. */
  function Get(d: map<string, Value>, key: string, default: Value): Value {
    if key in d then d[key] else default
  }

  /** A Python list of strings. */
  function StrList(names: seq<string>): Value {
    VList(seq(|names|, i requires 0 <= i < |names| => VStr(names[i])))
  }
}
