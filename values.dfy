/** The values that travel on the channel and make up an exposed object graph. */
module Values {

  datatype Option<T> = None | Some(value: T)

  /** Identity of a callable in the exposed graph; what it does is given by an `Invoker`. */
  type FnId = nat

  /**
   * A JavaScript value as the protocol sees it. Objects and functions carry
   * their own enumerable properties; functions are objects that can also be called.
   */
  datatype Value =
    | Undefined
    | Null
    | Bool(b: bool)
    | Num(n: int)
    | Str(s: string)
    | Obj(props: map<string, Value>)
    | Fn(fn: FnId, props: map<string, Value>)

  /** JavaScript truthiness: `undefined`, `null`, `false`, `0` and `""` are falsy. */
  predicate Truthy(v: Value) {
    match v
    case Undefined => false
    case Null => false
    case Bool(b) => b
    case Num(n) => n != 0
    case Str(s) => s != ""
    case Obj(_) => true
    case Fn(_, _) => true
  }

  /** Values that hold properties of their own and accept property assignment. */
  predicate IsObject(v: Value) {
    v.Obj? || v.Fn?
  }

  /** Property read `o[prop]` on a value that is known to be truthy or not. */
  function Lookup(o: Value, prop: string): Value
  {
    if IsObject(o) && prop in o.props then o.props[prop] else Undefined
  }

  /** A failure raised by a callable: its `message` ("" when absent) and what `toString()` gives. */
  datatype Failure = Failure(message: string, text: string)

  /**
   * `err.message || err.toString()`: one of the two texts, and empty only when
   * both are, in which case the caller sees no error at all.
   */
  function ErrorText(f: Failure): (t: string)
    ensures t == f.message || t == f.text
    ensures t == "" <==> f.message == "" && f.text == ""
  {
    if f.message != "" then f.message else f.text
  }

  /**
   * What running a callable produces: a (possibly awaited) result, a raised
   * failure, or a raised `undefined` or `null` (also a rejection without a
   * reason), which has no `message` to read.
   */
  datatype CallResult = Returned(value: Value) | Threw(failure: Failure) | ThrewNullish

  /** The behaviour of the exposed callables: callable, receiver (`this`), arguments in order. */
  type Invoker = (FnId, Value, seq<Value>) -> CallResult
}
