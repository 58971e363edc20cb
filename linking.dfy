/** `link`: a correlator bound to a connection, composed with the proxy generator. */
module Linking {
  import opened Values
  import opened Protocol
  import opened Paths
  import opened Expose
  import opened Correlation
  import opened Proxies

  /** `link(connection)`: a fresh correlator and the root proxy. */
  method Link(uid: string) returns (c: Correlator, root: Proxy)
    ensures fresh(c) && c.Valid()
    ensures c.uid == uid && c.counter == 0 && c.callbacks == map[] && c.sent == []
    ensures root == Root
  {
    c := new Correlator(uid);
    root := Root;
  }

  /**
   * A consumer touches a proxy: the trap runs, and the request it issues, if
   * any, goes through the correlator. `id` names the pending call it created.
   */
  method Touch(c: Correlator, p: Proxy, t: Trap) returns (r: TrapResult, id: Option<string>)
    requires c.Valid()
    modifies c
    ensures c.Valid() && r == Intercept(p, t).result
    ensures Intercept(p, t).request.None? ==>
      id == None && c.counter == old(c.counter) && c.callbacks == old(c.callbacks) && c.sent == old(c.sent)
    ensures Intercept(p, t).request.Some? ==>
      id == Some(RequestId(c.uid, c.counter)) && c.counter == old(c.counter) + 1 &&
      id.value !in old(c.callbacks) && c.callbacks == old(c.callbacks)[id.value := Waiting] &&
      c.sent == old(c.sent) + [Stamp(Intercept(p, t).request.value, id.value)]
  {
    var e := Intercept(p, t);
    r := e.result;
    if e.request.Some? {
      var newId := c.Send(e.request.value);
      id := Some(newId);
    } else {
      id := None;
    }
  }

  /** Awaiting the proxy at a non-empty path `q` (see `WalkIsLocal` for how it is reached) asks the exposer for `Resolve(root, q)`. */
  lemma RemoteGet(root: Value, q: seq<string>, id: string, invoke: Invoker)
    requires q != [] && id != ""
    ensures var m := Stamp(Intercept(Proxy(q), Read("then")).request.value, id);
            Handle(root, m, invoke) == Handled(root, Some(Reply(Str(id), Resolve(root, q), "")))
  {
  }

  /**
   * Setting `k` on the proxy at `q`, where `q` leads to an object, then awaiting
   * the proxy at `q + [k]`, yields the value set: read-after-write end to end.
   */
  lemma RemoteSetThenGet(root: Value, q: seq<string>, k: string, v: Value, id1: string, id2: string, invoke: Invoker)
    requires k != "" && id1 != "" && id2 != ""
    requires IsObject(Resolve(root, q))
    ensures var s := Stamp(Intercept(Proxy(q), Write(k, v)).request.value, id1);
            var after := Handle(root, s, invoke);
            var g := Stamp(Intercept(Proxy(q + [k]), Read("then")).request.value, id2);
            after.reply == Some(Reply(Str(id1), Undefined, "")) &&
            Handle(after.target, g, invoke).reply == Some(Reply(Str(id2), v, ""))
  {
    var s := Stamp(Request(Set, q + [k], v, []), id1);
    var g := Stamp(Request(Get, q + [k], Undefined, []), id2);
    assert Intercept(Proxy(q), Write(k, v)).request.value == Request(Set, q + [k], v, []);
    assert Intercept(Proxy(q + [k]), Read("then")).request.value == Request(Get, q + [k], Undefined, []);
    assert Parent(s.path) == q && Last(s.path) == k;
    SetAssigns(root, s, invoke);
    SetThenGet(root, s, g, invoke);
  }

  /** Calling the proxy at `q` invokes the callable there, with the object above it as receiver. */
  lemma RemoteCall(root: Value, q: seq<string>, args: seq<Value>, id: string, invoke: Invoker)
    requires id != "" && Resolve(root, q).Fn?
    ensures var m := Stamp(Intercept(Proxy(q), Invoke(args)).request.value, id);
            var out := invoke(Resolve(root, q).fn, Resolve(root, Parent(q)), args);
            Handle(root, m, invoke).target == root &&
            (out.Returned? ==> Handle(root, m, invoke).reply == Some(Reply(Str(id), out.value, ""))) &&
            (out.Threw? ==> Handle(root, m, invoke).reply == Some(Reply(Str(id), Undefined, ErrorText(out.failure)))) &&
            (out.ThrewNullish? ==> Handle(root, m, invoke).reply == None) &&
            Awaited(Handle(root, m, invoke).reply) == Settlement(out)
  {
  }

  /** The caller's entry once the exposer's response, if any, has come back. */
  function Awaited(reply: Option<Message>): Pending
  {
    if reply.Some? then Outcome(reply.value) else Waiting
  }

  /**
   * How a remote call settles for the caller, given what the callable did; after
   * a raised `undefined` or `null` no response comes, so the call stays waiting.
   */
  function Settlement(out: CallResult): Pending
  {
    match out
    case Returned(v) => Resolved(v)
    case Threw(f) => if ErrorText(f) != "" then Rejected(ErrorText(f)) else Resolved(Undefined)
    case ThrewNullish => Waiting
  }

  /**
   * The exposer's response to a request the correlator sent settles exactly that
   * call: rejected with the error text when there is one, resolved with the value
   * otherwise; every other call is left as it was.
   */
  lemma ResponseSettlesItsCall(callbacks: map<string, Pending>, root: Value, m: Message, invoke: Invoker, other: string)
    requires m.id.Str? && m.id.s in callbacks && callbacks[m.id.s].Waiting?
    requires WellFormed(m) && !Escapes(root, m, invoke)
    requires other in callbacks && other != m.id.s
    ensures var r := Handle(root, m, invoke).reply.value;
            var after := Settle(callbacks, r);
            after[m.id.s] == (if r.error != "" then Rejected(r.error) else Resolved(r.value)) &&
            after[other] == callbacks[other]
  {
    OneResponse(root, m, invoke);
  }

  /**
   * One round trip: the trap runs, the request it issues goes out through the
   * correlator, the exposer handles it, and its response, if any, comes back.
   */
  method RoundTrip(c: Correlator, e: Exposer, p: Proxy, t: Trap) returns (r: TrapResult, id: string)
    requires c.Valid() && Intercept(p, t).request.Some?
    modifies c, e
    ensures c.Valid() && c.counter == old(c.counter) + 1 && id == RequestId(c.uid, c.counter)
    ensures r == Intercept(p, t).result && id !in old(c.callbacks)
    ensures c.callbacks.Keys == old(c.callbacks).Keys + {id}
    ensures forall other :: other in old(c.callbacks) ==> c.callbacks[other] == old(c.callbacks)[other]
    ensures c.sent == old(c.sent) + [Stamp(Intercept(p, t).request.value, id)]
    ensures var h := Handle(old(e.target), Stamp(Intercept(p, t).request.value, id), e.invoke);
            e.target == h.target &&
            e.sent == old(e.sent) + (if h.reply.Some? then [h.reply.value] else []) &&
            c.callbacks[id] == Awaited(h.reply)
  {
    var sentId;
    r, sentId := Touch(c, p, t);
    id := sentId.value;
    var request := c.sent[|c.sent| - 1];
    assert request.id == Str(id) && id != "";
    ghost var waiting := c.callbacks;
    ghost var h := Handle(e.target, request, e.invoke);
    OneResponse(e.target, request, e.invoke);
    var before := |e.sent|;
    e.OnMessage(request);
    if |e.sent| > before {
      var response := e.sent[|e.sent| - 1];
      assert response == h.reply.value;
      c.OnMessage(response);
      SettleMatched(waiting, response);
      forall other | other in old(c.callbacks)
        ensures c.callbacks[other] == old(c.callbacks)[other]
      {
        SettleIsolated(waiting, response, other);
      }
    }
  }

  /** A graph `{ greet(name) => "hi " + name }`. */
  function Greeter(): Value {
    Obj(map["greet" := Fn(0, map[])])
  }

  /**
   * The behaviour of `greet`: `"hi " + name`; callable 2 throws `undefined`;
   * any other callable throws "boom".
   */
  function GreetInvoker(): Invoker {
    (f: FnId, self: Value, args: seq<Value>) =>
      if f == 0 && |args| > 0 && args[0].Str? then Returned(Str("hi " + args[0].s))
      else if f == 2 then ThrewNullish
      else Threw(Failure("boom", "Error: boom"))
  }

  /** `remote.greet("world")` resolves to "hi world". */
  method GreetWorld() returns (outcome: Pending)
    ensures outcome == Resolved(Str("hi world"))
  {
    assert Resolve(Greeter(), ["greet"]) == Fn(0, map[]);
    assert "hi " + "world" == "hi world";
    outcome := CallThenAwait("seed", Greeter(), GreetInvoker(), ["greet"], [Str("world")]);
  }

  /**
   * On a fresh link to an exposer of `graph`: `await remote.q(...args)`. When `q`
   * leads to a callable, the call settles as that callable's outcome does, with
   * the object above it as receiver.
   */
  method CallThenAwait(uid: string, graph: Value, invoke: Invoker, q: seq<string>, args: seq<Value>)
    returns (outcome: Pending)
    requires "then" !in q && Resolve(graph, q).Fn?
    ensures outcome == Settlement(invoke(Resolve(graph, q).fn, Resolve(graph, Parent(q)), args))
  {
    var id := RequestId(uid, 1);
    RemoteCall(graph, q, args, id, invoke);
    var c, root := Link(uid);
    var e := new Exposer(graph, invoke);
    WalkIsLocal(root, q);
    assert root.path + q == q;
    var target := Walk(root, q).value;
    assert target == Proxy(q) && e.target == graph && e.invoke == invoke;
    var _, callId := RoundTrip(c, e, target, Invoke(args));
    assert callId == id;
    outcome := c.callbacks[callId];
  }

  /** A graph `{ counter: { value: 0 } }`. */
  function CounterGraph(): Value {
    Obj(map["counter" := Obj(map["value" := Num(0)])])
  }

  /** `p.a.b.c` through the traps: each read is a local path step, so nothing is sent. */
  method Navigate(c: Correlator, p: Proxy, props: seq<string>) returns (r: Proxy)
    requires c.Valid() && "then" !in props
    modifies c
    ensures c.Valid() && c.counter == old(c.counter) && c.callbacks == old(c.callbacks) && c.sent == old(c.sent)
    ensures r == Proxy(p.path + props)
  {
    r := p;
    var i := 0;
    while i < |props|
      invariant 0 <= i <= |props| && c.Valid()
      invariant r == Proxy(p.path + props[..i])
      invariant c.counter == old(c.counter) && c.callbacks == old(c.callbacks) && c.sent == old(c.sent)
    {
      assert props[i] in props;
      var step, _ := Touch(c, r, Read(props[i]));
      r := step.proxy;
      assert props[..i + 1] == props[..i] + [props[i]];
      i := i + 1;
    }
    assert props[..i] == props;
  }

  /**
   * On a fresh link to an exposer of `graph`: `remote.q[k] = v`, then
   * `await remote.q[k]`. The write is acknowledged with no value and the read
   * resolves to `v`, when `q` leads to an object.
   */
  method WriteThenAwait(uid: string, graph: Value, invoke: Invoker, q: seq<string>, k: string, v: Value)
    returns (ack: Pending, read: Pending)
    requires "then" !in q && k != "then" && k != ""
    requires IsObject(Resolve(graph, q))
    ensures ack == Resolved(Undefined) && read == Resolved(v)
  {
    var id1, id2 := RequestId(uid, 1), RequestId(uid, 2);
    IdsDistinct(uid, 1, 2);
    RemoteSetThenGet(graph, q, k, v, id1, id2, invoke);
    ghost var written := Handle(graph, Stamp(Intercept(Proxy(q), Write(k, v)).request.value, id1), invoke);
    ghost var answer := Handle(written.target, Stamp(Intercept(Proxy(q + [k]), Read("then")).request.value, id2), invoke).reply;
    assert Outcome(written.reply.value) == Resolved(Undefined);
    assert Outcome(answer.value) == Resolved(v);
    var c, root := Link(uid);
    var e := new Exposer(graph, invoke);
    WalkIsLocal(root, q);
    assert root.path + q == q;
    var parent := Walk(root, q).value;
    assert parent == Proxy(q) && e.target == graph && e.invoke == invoke;
    var _, setId := RoundTrip(c, e, parent, Write(k, v));
    assert setId == id1 && e.target == written.target;
    ack := c.callbacks[setId];
    assert ack == Resolved(Undefined);
    var value := Intercept(parent, Read(k)).result.proxy;
    assert value == Proxy(q + [k]);
    var _, getId := RoundTrip(c, e, value, Read("then"));
    assert getId == id2;
    read := c.callbacks[getId];
    assert read == Resolved(v);
    assert c.callbacks[setId] == ack;
  }

  /** `remote.counter.value = 5`, then `await remote.counter.value` resolves to 5. */
  method SetCounter() returns (ack: Pending, read: Pending)
    ensures ack == Resolved(Undefined) && read == Resolved(Num(5))
  {
    ack, read := WriteThenAwait("seed", CounterGraph(), GreetInvoker(), ["counter"], "value", Num(5));
  }

  /** A callable that raises "boom": the call rejects with "boom". */
  method CallFails() returns (outcome: Pending)
    ensures outcome == Rejected("boom")
  {
    assert Resolve(Obj(map["explode" := Fn(1, map[])]), ["explode"]) == Fn(1, map[]);
    outcome := CallThenAwait("seed", Obj(map["explode" := Fn(1, map[])]), GreetInvoker(), ["explode"], []);
  }

  /** A callable that throws `undefined`: no response comes, and the call never settles. */
  method CallHangs() returns (outcome: Pending)
    ensures outcome == Waiting
  {
    assert Resolve(Obj(map["vanish" := Fn(2, map[])]), ["vanish"]) == Fn(2, map[]);
    outcome := CallThenAwait("seed", Obj(map["vanish" := Fn(2, map[])]), GreetInvoker(), ["vanish"], []);
  }

  /** A message with no id gets no response. */
  method NoIdNoResponse() returns (responses: nat)
    ensures responses == 0
  {
    var e := new Exposer(Greeter(), GreetInvoker());
    e.OnMessage(Message(Undefined, Str("G"), ["greet"], Undefined, [], ""));
    responses := |e.sent|;
  }
}
