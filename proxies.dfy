/** The proxy generator: `proxy(handler, path)` as an explicit path value and its three traps. */
module Proxies {
  import opened Values
  import opened Protocol

  /** A proxy stands for the path it has been built up to. */
  datatype Proxy = Proxy(path: seq<string>)

  /** The root proxy that `link` returns. */
  const Root: Proxy := Proxy([])

  /** What a consumer does to a proxy: read a property, write one, or call it. */
  datatype Trap = Read(prop: string) | Write(prop: string, value: Value) | Invoke(args: seq<Value>)

  /**
   * What a trap gives back: a child proxy; the root's thenable, whose `then`
   * returns the proxy itself; the pending result of the request just issued;
   * or `true` from the set trap.
   */
  datatype TrapResult = Child(proxy: Proxy) | SelfThenable(proxy: Proxy) | Awaiting | Accepted

  /** A trap's result together with the request it hands to the handler, if any. */
  datatype Effect = Effect(result: TrapResult, request: Option<Request>)

  /** The get, set and apply traps. */
  function Intercept(p: Proxy, t: Trap): (e: Effect)
    ensures e.request.None? <==> t.Read? && (t.prop != "then" || p.path == [])
    ensures e.request.Some? ==> e.result in {Awaiting, Accepted}
  {
    match t
    case Read(prop) =>
      if prop == "then" then
        if p.path == [] then Effect(SelfThenable(p), None)
        else Effect(Awaiting, Some(Request(Get, p.path, Undefined, [])))
      else Effect(Child(Proxy(p.path + [prop])), None)
    case Write(prop, value) => Effect(Accepted, Some(Request(Set, p.path + [prop], value, [])))
    case Invoke(args) => Effect(Awaiting, Some(Request(Apply, p.path, Undefined, args)))
  }

  /** Reading `then` on the root gives a thenable for the root itself and sends nothing. */
  lemma RootThenIsLocal()
    ensures Intercept(Root, Read("then")) == Effect(SelfThenable(Root), None)
  {
  }

  /** Reading `then` below the root issues exactly one Get for the current path. */
  lemma ThenIssuesGet(p: Proxy)
    requires p.path != []
    ensures Intercept(p, Read("then")) == Effect(Awaiting, Some(Request(Get, p.path, Undefined, [])))
  {
  }

  /** Writing a property issues one Set for the extended path with the value, and the trap returns `true`. */
  lemma WriteIssuesSet(p: Proxy, prop: string, v: Value)
    ensures Intercept(p, Write(prop, v)) == Effect(Accepted, Some(Request(Set, p.path + [prop], v, [])))
  {
  }

  /** Calling a proxy issues one Apply for its own path with the arguments in order. */
  lemma InvokeIssuesApply(p: Proxy, args: seq<Value>)
    ensures Intercept(p, Invoke(args)) == Effect(Awaiting, Some(Request(Apply, p.path, Undefined, args)))
  {
  }

  /** `p.a.b.c`: read the properties in turn; `None` as soon as a read is not a local path step. */
  function Walk(p: Proxy, props: seq<string>): Option<Proxy>
    decreases |props|
  {
    if props == [] then Some(p)
    else
      match Intercept(p, Read(props[0]))
      case Effect(Child(q), None) => Walk(q, props[1..])
      case _ => None
  }

  /**
   * Path building is purely local: a chain of reads is a chain of child proxies
   * exactly when no property read is `then`, and it ends at the extended path.
   */
  lemma {:induction false} WalkIsLocal(p: Proxy, props: seq<string>)
    ensures Walk(p, props).Some? <==> "then" !in props
    ensures Walk(p, props).Some? ==> Walk(p, props) == Some(Proxy(p.path + props))
    decreases |props|
  {
    if props == [] {
      assert p.path + props == p.path;
    } else {
      assert props == [props[0]] + props[1..];
      var child := Proxy(p.path + [props[0]]);
      WalkIsLocal(child, props[1..]);
      if props[0] != "then" {
        assert Walk(p, props) == Walk(child, props[1..]);
        assert child.path + props[1..] == p.path + props;
      } else {
        assert !Intercept(p, Read(props[0])).result.Child?;
        assert Walk(p, props) == None;
      }
    }
  }
}
