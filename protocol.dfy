/** Message shapes of the protocol, already parsed from their JSON text. */
module Protocol {
  import opened Values

  /** The three operations a caller can request. */
  datatype Op = Get | Set | Apply

  /** The wire tag of each operation: `'G'`, `'S'`, `'A'`. */
  function Tag(op: Op): (v: Value)
    ensures v.Str? && |v.s| == 1
    ensures v != Str("R")
  {
    match op
    case Get => Str("G")
    case Set => Str("S")
    case Apply => Str("A")
  }

  /** A request before the correlator gives it an id. */
  datatype Request = Request(op: Op, path: seq<string>, value: Value, args: seq<Value>)

  /**
   * Every field a listener reads out of a parsed message. An absent field is
   * `Undefined`, an absent `path` or `args` is `[]`, and an absent `error` is "".
   */
  datatype Message = Message(id: Value, kind: Value, path: seq<string>, value: Value, args: seq<Value>, error: string)

  /** The exposer's response `{ id, type: 'R', value?, error? }`. */
  function Reply(id: Value, value: Value, error: string): Message
  {
    Message(id, Str("R"), [], value, [], error)
  }

  /**
   * A request with its id attached, as the correlator sends it. Under a non-empty
   * id it has a truthy id and type, so an exposer handles it, and its type is
   * never 'R', so no correlator takes it for a response.
   */
  function Stamp(req: Request, id: string): (m: Message)
    ensures id != "" ==> Truthy(m.id) && Truthy(m.kind) && m.kind != Str("R")
  {
    Message(Str(id), Tag(req.op), req.path, req.value, req.args, "")
  }
}
