/** The exposer: the `message` listener that `expose` installs on the serving side. */
module Expose {
  import opened Values
  import opened Protocol
  import opened Paths

  /** `if (id && type)`: only messages with a truthy id and a truthy type are handled. */
  predicate WellFormed(m: Message) {
    Truthy(m.id) && Truthy(m.kind)
  }

  /** The last segment of a non-empty path. */
  function Last(path: seq<string>): string
    requires |path| > 0
  {
    path[|path| - 1]
  }

  /** A Set that really assigns: a non-empty path whose last segment is truthy. */
  predicate AssigningSet(m: Message) {
    m.kind == Str("S") && |m.path| > 0 && Last(m.path) != ""
  }

  /**
   * A Set that assigns onto a value that is not an object: the assignment throws
   * a TypeError (the module code is strict), which escapes the async listener, so
   * nothing is sent.
   */
  predicate SetEscapes(root: Value, m: Message) {
    AssigningSet(m) && !IsObject(Resolve(root, Parent(m.path)))
  }

  /**
   * An Apply whose callable raises `undefined` or `null`: reading `err.message`
   * in the `catch` throws a TypeError of its own, which escapes the async
   * listener before the send, so nothing is sent.
   */
  predicate ApplyEscapes(root: Value, m: Message, invoke: Invoker) {
    m.kind == Str("A") && Resolve(root, m.path).Fn? &&
    invoke(Resolve(root, m.path).fn, Resolve(root, Parent(m.path)), m.args).ThrewNullish?
  }

  /** Handling throws out of the listener before anything is sent. */
  predicate Escapes(root: Value, m: Message, invoke: Invoker) {
    SetEscapes(root, m) || ApplyEscapes(root, m, invoke)
  }

  /** The TypeError that `ref.apply(...)` raises when `ref` is not callable. */
  function NotCallable(ref: Value): (f: Failure)
    ensures ErrorText(f) != ""
  {
    match ref
    case Undefined => Failure("Cannot read properties of undefined (reading 'apply')", "TypeError")
    case Null => Failure("Cannot read properties of null (reading 'apply')", "TypeError")
    case _ => Failure("ref.apply is not a function", "TypeError")
  }

  /**
   * The response of the Apply case: the callable's result, or the text of what it
   * raised; none when what it raised was `undefined` or `null`.
   */
  function ApplyReply(id: Value, ref: Value, receiver: Value, args: seq<Value>, invoke: Invoker): Option<Message>
  {
    if ref.Fn? then
      match invoke(ref.fn, receiver, args)
      case Returned(v) => Some(Reply(id, v, ""))
      case Threw(f) => Some(Reply(id, Undefined, ErrorText(f)))
      case ThrewNullish => None
    else Some(Reply(id, Undefined, ErrorText(NotCallable(ref))))
  }

  /** What handling one message does: the graph afterwards, and the response sent, if any. */
  datatype Handled = Handled(target: Value, reply: Option<Message>)

  /** The listener body as a function of the graph before and the parsed message. */
  function Handle(root: Value, m: Message, invoke: Invoker): (h: Handled)
  {
    if !WellFormed(m) then Handled(root, None)
    else if m.kind == Str("G") then HandleGet(root, m)
    else if m.kind == Str("S") then HandleSet(root, m)
    else if m.kind == Str("A") then HandleApply(root, m, invoke)
    else Handled(root, Some(Reply(m.id, Undefined, "")))
  }

  /** `case 'G'`: the response value is the resolved reference. */
  function HandleGet(root: Value, m: Message): Handled {
    Handled(root, Some(Reply(m.id, Resolve(root, m.path), "")))
  }

  /** `case 'S'`: pop the last segment and, when it is truthy, assign onto the parent. */
  function HandleSet(root: Value, m: Message): Handled {
    if AssigningSet(m) then
      if IsObject(Resolve(root, Parent(m.path))) then
        Handled(Assign(root, Parent(m.path), Last(m.path), m.value), Some(Reply(m.id, Undefined, "")))
      else Handled(root, None)
    else Handled(root, Some(Reply(m.id, Undefined, "")))
  }

  /** `case 'A'`: apply the reference to its parent and the arguments, catching what it raises. */
  function HandleApply(root: Value, m: Message, invoke: Invoker): Handled {
    Handled(root, ApplyReply(m.id, Resolve(root, m.path), Resolve(root, Parent(m.path)), m.args, invoke))
  }

  /** The serving endpoint: the graph it publishes, mutated in place, and what it has sent. */
  class Exposer {
    var target: Value
    var sent: seq<Message>
    const invoke: Invoker

    constructor (target: Value, invoke: Invoker)
      ensures this.target == target && this.invoke == invoke && sent == []
    {
      this.target := target;
      this.invoke := invoke;
      sent := [];
    }

    /** One inbound message: dispatch on its type, then send one response with its id. */
    method OnMessage(m: Message)
      modifies this
      ensures target == Handle(old(target), m, invoke).target
      ensures Handle(old(target), m, invoke).reply.None? ==> sent == old(sent)
      ensures Handle(old(target), m, invoke).reply.Some? ==> sent == old(sent) + [Handle(old(target), m, invoke).reply.value]
    {
      if !(Truthy(m.id) && Truthy(m.kind)) {
        return;
      }
      var response := Reply(m.id, Undefined, "");
      var path := m.path;
      var ref := Resolve(target, path);
      var refParent := Resolve(target, Parent(path));
      if m.kind == Str("G") {
        response := response.(value := ref);
      } else if m.kind == Str("S") {
        if |path| > 0 {
          var prop := path[|path| - 1];
          path := path[..|path| - 1];
          if prop != "" {
            if !IsObject(refParent) {
              return;
            }
            target := Assign(target, path, prop, m.value);
          }
        }
      } else if m.kind == Str("A") {
        if ref.Fn? {
          var outcome := invoke(ref.fn, refParent, m.args);
          match outcome
          case Returned(v) => response := response.(value := v);
          case Threw(f) => response := response.(error := ErrorText(f));
          case ThrewNullish => return;
        } else {
          response := response.(error := ErrorText(NotCallable(ref)));
        }
      }
      sent := sent + [response];
    }
  }

  /** A message without a truthy id or type changes nothing and gets no response. */
  lemma DropsMalformed(root: Value, m: Message, invoke: Invoker)
    requires !WellFormed(m)
    ensures Handle(root, m, invoke) == Handled(root, None)
  {
  }

  /**
   * A response is sent exactly when the message is well formed and handling it
   * does not escape (a Set onto a non-object, an Apply whose callable raises
   * `undefined` or `null`); it carries the request's id and the type 'R'.
   */
  lemma OneResponse(root: Value, m: Message, invoke: Invoker)
    ensures Handle(root, m, invoke).reply.Some? <==> WellFormed(m) && !Escapes(root, m, invoke)
    ensures Handle(root, m, invoke).reply.Some? ==>
      Handle(root, m, invoke).reply.value.id == m.id && Handle(root, m, invoke).reply.value.kind == Str("R")
  {
  }

  /** Get answers with the resolved reference and leaves the graph unchanged. */
  lemma GetAnswers(root: Value, m: Message, invoke: Invoker)
    requires WellFormed(m) && m.kind == Str("G")
    ensures Handle(root, m, invoke) == Handled(root, Some(Reply(m.id, Resolve(root, m.path), "")))
  {
  }

  /** Repeating a Get gives the same graph and the same answer. */
  lemma GetIdempotent(root: Value, m: Message, invoke: Invoker)
    requires m.kind == Str("G")
    ensures Handle(Handle(root, m, invoke).target, m, invoke) == Handle(root, m, invoke)
  {
  }

  /** A Set that assigns onto an object puts `value` in that one slot and answers with neither value nor error. */
  lemma SetAssigns(root: Value, m: Message, invoke: Invoker)
    requires WellFormed(m) && AssigningSet(m) && IsObject(Resolve(root, Parent(m.path)))
    ensures Handle(root, m, invoke).target == Assign(root, Parent(m.path), Last(m.path), m.value)
    ensures Resolve(Handle(root, m, invoke).target, Parent(m.path))
         == Resolve(root, Parent(m.path)).(props := Resolve(root, Parent(m.path)).props[Last(m.path) := m.value])
    ensures Handle(root, m, invoke).reply == Some(Reply(m.id, Undefined, ""))
  {
    AssignParentSlots(root, Parent(m.path), Last(m.path), m.value);
  }

  /** After a Set, a Get of the same path answers with the value set. */
  lemma SetThenGet(root: Value, s: Message, g: Message, invoke: Invoker)
    requires WellFormed(s) && AssigningSet(s) && IsObject(Resolve(root, Parent(s.path)))
    requires WellFormed(g) && g.kind == Str("G") && g.path == s.path
    ensures Handle(Handle(root, s, invoke).target, g, invoke).reply == Some(Reply(g.id, s.value, ""))
  {
    AssignReadBack(root, Parent(s.path), Last(s.path), s.value);
  }

  /** A Set leaves every path that neither leads to nor passes through the assigned slot as it was. */
  lemma SetFrame(root: Value, m: Message, invoke: Invoker, q: seq<string>)
    requires WellFormed(m) && m.kind == Str("S")
    requires !(q <= m.path) && !(m.path <= q)
    ensures Resolve(Handle(root, m, invoke).target, q) == Resolve(root, q)
  {
    if AssigningSet(m) && IsObject(Resolve(root, Parent(m.path))) {
      AssignFrame(root, Parent(m.path), Last(m.path), m.value, q);
    }
  }

  /** A Set on the empty path, or with an empty last segment, changes nothing and answers with an empty response. */
  lemma SetIgnored(root: Value, m: Message, invoke: Invoker)
    requires WellFormed(m) && m.kind == Str("S") && (|m.path| == 0 || Last(m.path) == "")
    ensures Handle(root, m, invoke) == Handled(root, Some(Reply(m.id, Undefined, "")))
  {
  }

  /**
   * Apply leaves the graph alone and answers with exactly one of: the callable's
   * result (invoked with the parent as receiver and the arguments in order), or
   * the text of the failure it raised, or of the TypeError for a non-callable.
   * When the callable raises `undefined` or `null`, nothing is sent.
   */
  lemma ApplyOutcome(root: Value, m: Message, invoke: Invoker)
    requires WellFormed(m) && m.kind == Str("A")
    ensures Handle(root, m, invoke).target == root
    ensures var ref := Resolve(root, m.path);
            var receiver := Resolve(root, Parent(m.path));
            var r := Handle(root, m, invoke).reply;
            (r.None? <==> ref.Fn? && invoke(ref.fn, receiver, m.args).ThrewNullish?) &&
            (ref.Fn? && invoke(ref.fn, receiver, m.args).Returned? ==>
               r.Some? && r.value.value == invoke(ref.fn, receiver, m.args).value && r.value.error == "") &&
            (ref.Fn? && invoke(ref.fn, receiver, m.args).Threw? ==>
               r.Some? && r.value.value == Undefined && r.value.error == ErrorText(invoke(ref.fn, receiver, m.args).failure)) &&
            (!ref.Fn? ==> r.Some? && r.value.value == Undefined && r.value.error == ErrorText(NotCallable(ref)) && r.value.error != "")
  {
  }

  /** A type other than G, S and A falls through: an empty response, no change. */
  lemma UnknownKind(root: Value, m: Message, invoke: Invoker)
    requires WellFormed(m) && m.kind !in {Str("G"), Str("S"), Str("A")}
    ensures Handle(root, m, invoke) == Handled(root, Some(Reply(m.id, Undefined, "")))
  {
  }

  /**
   * A response is itself a message the exposer answers: fed its own response, it
   * sends another with the same id. On a channel where both ends expose, responses
   * are answered back and forth.
   */
  lemma {:induction false} RepliesAreAnswered(root: Value, m: Message, invoke: Invoker, n: nat)
    requires WellFormed(m) && !Escapes(root, m, invoke)
    ensures Echo(root, Handle(root, m, invoke).reply.value, invoke, n).Some?
    ensures Echo(root, Handle(root, m, invoke).reply.value, invoke, n).value.id == m.id
  {
    OneResponse(root, m, invoke);
    EchoKeepsId(root, Handle(root, m, invoke).reply.value, invoke, n);
  }

  /** The response obtained after feeding a response back `n` times. */
  function Echo(root: Value, r: Message, invoke: Invoker, n: nat): Option<Message>
    decreases n
  {
    if n == 0 then Some(r)
    else match Handle(root, r, invoke).reply
      case None => None
      case Some(r') => Echo(root, r', invoke, n - 1)
  }

  lemma {:induction false} EchoKeepsId(root: Value, r: Message, invoke: Invoker, n: nat)
    requires Truthy(r.id) && r.kind == Str("R")
    ensures Echo(root, r, invoke, n).Some? && Echo(root, r, invoke, n).value.id == r.id
    decreases n
  {
    if n > 0 {
      EchoKeepsId(root, Reply(r.id, Undefined, ""), invoke, n - 1);
    }
  }
}
