/** The Python values the core handles after `json.loads` or
    `ast.literal_eval`, the exceptions it raises or catches, and the three
    Python operators the salary validator applies to them: `in`, subscription
    and `<`. */
module PyValues {
  import opened Text

  datatype Option<+T> = None | Some(value: T)

  /** None, booleans, integers, strings, lists and dicts with string keys:
      the values a JSON document denotes in Python (floats are left out). */
  datatype Value =
    | Null
    | Bool(b: bool)
    | Int(n: int)
    | Str(s: string)
    | List(items: seq<Value>)
    | Dict(fields: map<string, Value>)

  /** The exceptions raised by the parsers and operators the core uses. */
  datatype Exception = JSONDecodeError | SyntaxError | ValueError | KeyError | TypeError

  /** Either the value an expression evaluates to, or the exception it raises. */
  datatype Outcome<+T> = Return(value: T) | Raise(exc: Exception) {
    predicate IsFailure() {
      Raise?
    }

    function PropagateFailure<U>(): Outcome<U>
      requires Raise?
    {
      Raise(exc)
    }

    function Extract(): T
      requires Return?
    {
      value
    }
  }

  /** The containers Python's `in` accepts among these values. */
  predicate IsContainer(v: Value) {
    v.Str? || v.List? || v.Dict?
  }

  /** Python's `key in container` for a string key: a key test on a dict, a
      substring test on a string, an element test on a list, and `TypeError`
      on None, booleans and integers. */
  function In(key: string, container: Value): (r: Outcome<bool>)
    ensures r.Raise? <==> !IsContainer(container)
    ensures r.Raise? ==> r.exc == TypeError
  {
    match container
    case Dict(m) => Return(key in m)
    case Str(s) => Return(Occurs(key, s))
    case List(items) => Return(Str(key) in items)
    case _ => Raise(TypeError)
  }

  /** Python's `container[key]` for a string key: the entry of a dict,
      `KeyError` when the dict lacks the key, `TypeError` on anything else. */
  function Subscript(container: Value, key: string): (r: Outcome<Value>)
    ensures r.Return? <==> container.Dict? && key in container.fields
    ensures r.Return? ==> r.value == container.fields[key]
    ensures r.Raise? ==> (r.exc == KeyError <==> container.Dict?)
  {
    match container
    case Dict(m) => if key in m then Return(m[key]) else Raise(KeyError)
    case _ => Raise(TypeError)
  }

  /** Python's `v < bound` for an integer bound: booleans compare as 0 and 1;
      None, strings, lists and dicts raise `TypeError`. */
  function LessThan(v: Value, bound: int): (r: Outcome<bool>)
    ensures r.Return? <==> v.Int? || v.Bool?
  {
    match v
    case Int(n) => Return(n < bound)
    case Bool(b) => Return((if b then 1 else 0) < bound)
    case _ => Raise(TypeError)
  }
}
